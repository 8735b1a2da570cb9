/** Integer facts behind the C-order index arithmetic of the detector's tensors. */
module Arith {

  /** Euclidean division is determined by quotient and remainder. */
  lemma {:induction false} DivModUnique(k: int, d: int, q: int, m: int)
    requires 0 < d && 0 <= m < d && k == q * d + m
    ensures k / d == q && k % d == m
  {
    var q' := k / d;
    assert (q' - q) * d == m - k % d;
    MulAwayFromZero(q' - q, d);
  }

  /** A non-zero multiple of a positive d is at least d away from zero. */
  lemma {:induction false} MulAwayFromZero(x: int, d: int)
    requires 0 < d
    ensures x >= 1 ==> x * d >= d
    ensures x <= -1 ==> x * d <= -d
  {
  }

  /** A non-negative index below q * d has a quotient below q. */
  lemma {:induction false} DivBelow(k: int, d: int, q: int)
    requires 0 <= k < q * d && 0 < d
    ensures 0 <= k / d < q
  {
  }

  /** Splitting the flat index of cell (a, r, c) of an anchors x w x h block. */
  lemma {:induction false} CellIndex(w: nat, h: nat, a: nat, r: nat, c: nat)
    requires r < w && c < h
    ensures r * h + c < w * h
    ensures (a * (w * h) + r * h + c) / (w * h) == a
    ensures (a * (w * h) + r * h + c) % (w * h) == r * h + c
    ensures (r * h + c) / h == r && (r * h + c) % h == c
  {
    assert r * h + c < (r + 1) * h <= w * h;
    DivModUnique(a * (w * h) + r * h + c, w * h, a, r * h + c);
    DivModUnique(r * h + c, h, r, c);
  }

  /** The same index lies below m planes when a < m. */
  lemma {:induction false} CellIndexBelow(w: nat, h: nat, m: nat, a: nat, r: nat, c: nat)
    requires a < m && r < w && c < h
    ensures a * (w * h) + r * h + c < m * (w * h)
  {
    CellIndex(w, h, a, r, c);
    assert a * (w * h) + r * h + c < (a + 1) * (w * h);
    MulAwayFromZero(m - (a + 1), w * h);
  }
}
