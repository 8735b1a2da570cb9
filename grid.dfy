/** make_grid: the integer cell offsets added to decoded box centres. */
module Grid {
  import opened Arith
  import opened Seqs

  /** One grid entry: component 0 (added to the x centre) and component 1 (added to the y centre). */
  datatype Offset = Offset(gx: int, gy: int)

  /** np.meshgrid(arange(ny), arange(nx)) stacked on a last axis: shape (nx, ny, 2),
      entry [i][j] holds (j, i). */
  function MeshStack(nx: nat, ny: nat): (m: seq<seq<Offset>>)
    ensures |m| == nx && Rectangular(m, ny)
  {
    seq(nx, i requires 0 <= i < nx => seq(ny, j requires 0 <= j < ny => Offset(j, i)))
  }

  /** make_grid(nx, ny): the stacked mesh reshaped in C order to (1, 1, ny, nx, 2),
      kept as its ny * nx entries. Entry k holds (k mod ny, k div ny), so component 0
      is below ny and component 1 below nx. */
  function MakeGrid(nx: nat, ny: nat): (g: seq<Offset>)
    ensures |g| == ny * nx
    ensures g == [] || 0 < ny
    ensures forall k :: 0 <= k < |g| ==> g[k] == Offset(k % ny, k / ny)
    ensures forall k :: 0 <= k < |g| ==> 0 <= g[k].gx < ny && 0 <= g[k].gy < nx
  {
    FlatMesh(nx, ny);
    Flatten(MeshStack(nx, ny))
  }

  lemma {:induction false} FlatMesh(nx: nat, ny: nat)
    ensures var g := Flatten(MeshStack(nx, ny));
      && |g| == ny * nx
      && (g == [] || 0 < ny)
      && (forall k :: 0 <= k < |g| ==> g[k] == Offset(k % ny, k / ny))
      && (forall k :: 0 <= k < |g| ==> 0 <= g[k].gx < ny && 0 <= g[k].gy < nx)
  {
    var m := MeshStack(nx, ny);
    RectangularPrefix(m, ny, |m|);
    assert m[..|m|] == m;
    assert |Flatten(m)| == nx * ny == ny * nx;
    forall k | 0 <= k < |Flatten(m)|
      ensures Flatten(m)[k] == Offset(k % ny, k / ny) && k % ny < ny && k / ny < nx
    {
      FlatMeshAt(nx, ny, k);
    }
  }

  lemma {:induction false} FlatMeshAt(nx: nat, ny: nat, k: nat)
    requires k < nx * ny
    ensures k < |Flatten(MeshStack(nx, ny))|
    ensures Flatten(MeshStack(nx, ny))[k] == Offset(k % ny, k / ny)
    ensures k % ny < ny && k / ny < nx
  {
    var m := MeshStack(nx, ny);
    DivBelow(k, ny, nx);
    var q, r := k / ny, k % ny;
    assert k == q * ny + r;
    RectangularAt(m, ny, q, r);
    assert m[q][r] == Offset(r, q);
  }

  /** On a square n x n grid, seen with shape (n, n), cell (r, c) holds (c, r):
      the x offset is the column, the y offset the row. */
  lemma {:induction false} SquareGridCell(n: nat, r: nat, c: nat)
    requires r < n && c < n
    ensures r * n + c < |MakeGrid(n, n)|
    ensures MakeGrid(n, n)[r * n + c] == Offset(c, r)
  {
    CellIndex(n, n, 0, r, c);
  }

  /** The grid broadcast over m anchor planes of a square n x n head: cell (a, r, c),
      stored at a * n * n + r * n + c, lies in plane a and takes grid entry (c, r). */
  lemma {:induction false} CellCoordinates(n: nat, m: nat, a: nat, r: nat, c: nat)
    requires a < m && r < n && c < n
    ensures 0 < n * n
    ensures a * (n * n) + r * n + c < m * (n * n)
    ensures (a * (n * n) + r * n + c) / (n * n) == a
    ensures (a * (n * n) + r * n + c) % (n * n) < |MakeGrid(n, n)|
    ensures MakeGrid(n, n)[(a * (n * n) + r * n + c) % (n * n)] == Offset(c, r)
  {
    CellIndex(n, n, a, r, c);
    CellIndexBelow(n, n, m, a, r, c);
    SquareGridCell(n, r, c);
  }
}
