/** Concatenation of a sequence of sequences: numpy's C-order reshape to one
    fewer axis and np.concatenate along an axis both amount to it. */
module Seqs {

  /** Sum of the lengths of the parts. */
  function TotalLength<T>(m: seq<seq<T>>): nat
  {
    if m == [] then 0 else |m[0]| + TotalLength(m[1..])
  }

  /** The parts laid end to end, in order. */
  function Flatten<T>(m: seq<seq<T>>): (r: seq<T>)
    ensures |r| == TotalLength(m)
  {
    if m == [] then [] else m[0] + Flatten(m[1..])
  }

  /** Every part of m has length w. */
  ghost predicate Rectangular<T>(m: seq<seq<T>>, w: nat)
  {
    forall i :: 0 <= i < |m| ==> |m[i]| == w
  }

  /** Element k of part s sits at the total length of the parts before s, plus k. */
  lemma {:induction false} FlattenAt<T>(m: seq<seq<T>>, s: nat, k: nat)
    requires s < |m| && k < |m[s]|
    ensures TotalLength(m[..s]) + k < |Flatten(m)|
    ensures Flatten(m)[TotalLength(m[..s]) + k] == m[s][k]
  {
    if s > 0 {
      FlattenAt(m[1..], s - 1, k);
      assert m[..s][1..] == m[1..][..s - 1];
    }
  }

  /** The parts before row i of a rectangular m hold i * w elements. */
  lemma {:induction false} RectangularPrefix<T>(m: seq<seq<T>>, w: nat, i: nat)
    requires Rectangular(m, w) && i <= |m|
    ensures TotalLength(m[..i]) == i * w
  {
    if i > 0 {
      RectangularPrefix(m[1..], w, i - 1);
      assert m[..i][1..] == m[1..][..i - 1];
    }
  }

  /** C-order reshape: element (i, j) of a rectangular m lands at i * w + j. */
  lemma {:induction false} RectangularAt<T>(m: seq<seq<T>>, w: nat, i: nat, j: nat)
    requires Rectangular(m, w) && i < |m| && j < w
    ensures |Flatten(m)| == |m| * w
    ensures i * w + j < |Flatten(m)| && Flatten(m)[i * w + j] == m[i][j]
  {
    RectangularPrefix(m, w, |m|);
    assert m[..|m|] == m;
    RectangularPrefix(m, w, i);
    FlattenAt(m, i, j);
  }

  /** A property of every element of every part holds of every element of the concatenation. */
  lemma {:induction false} FlattenAll<T>(m: seq<seq<T>>, p: T -> bool)
    requires forall i, j :: 0 <= i < |m| && 0 <= j < |m[i]| ==> p(m[i][j])
    ensures forall k :: 0 <= k < |Flatten(m)| ==> p(Flatten(m)[k])
  {
    if m != [] {
      FlattenAll(m[1..], p);
      forall k | 0 <= k < |Flatten(m)|
        ensures p(Flatten(m)[k])
      {
        if k >= |m[0]| {
          assert Flatten(m)[k] == Flatten(m[1..])[k - |m[0]|];
        } else {
          assert Flatten(m)[k] == m[0][k];
        }
      }
    }
  }
}
