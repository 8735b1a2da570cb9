/** The detector's raw head outputs and the logistic activation applied to them. */
module Tensors {

  /** The logistic function sigmoid_v applies elementwise is taken abstractly, as a
      parameter sigma: real -> real; its exact floating-point values are not modelled.
      What the proofs use of it is that it maps into [0, 1]. */
  ghost predicate UnitRange(sigma: real -> real)
  {
    forall x :: 0.0 <= sigma(x) <= 1.0
  }

  lemma UnitRangeAt(sigma: real -> real, x: real)
    requires UnitRange(sigma)
    ensures 0.0 <= sigma(x) <= 1.0
  {
  }

  /** One head output of shape (1, anchors, width, height, attrs). The batch axis is
      always 1. cells holds the (anchor, row, col) cells in C order, so cell
      (a, r, c) is cells[a * width * height + r * height + c]; each cell is the
      attribute vector (tx, ty, tw, th, objectness, class_0, ...). */
  datatype Tensor = Tensor(anchors: nat, width: nat, height: nat, attrs: nat, cells: seq<seq<real>>)
  {
    /** numpy arrays are dense: the cell count and every cell's length match the shape. */
    ghost predicate WellShaped()
    {
      && |cells| == anchors * width * height
      && forall k :: 0 <= k < |cells| ==> |cells[k]| == attrs
    }
  }

  /** sigmoid_v on a vector: the activation of every entry, in place of the entry. */
  function SigmoidV(xs: seq<real>, sigma: real -> real): (ys: seq<real>)
    ensures |ys| == |xs|
    ensures forall i :: 0 <= i < |xs| ==> ys[i] == sigma(xs[i])
  {
    seq(|xs|, i requires 0 <= i < |xs| => sigma(xs[i]))
  }

  /** sigmoid_v on a whole tensor: a new tensor of the same shape with every value activated. */
  function Activate(t: Tensor, sigma: real -> real): (u: Tensor)
    ensures u.anchors == t.anchors && u.width == t.width && u.height == t.height && u.attrs == t.attrs
    ensures |u.cells| == |t.cells|
    ensures forall k :: 0 <= k < |t.cells| ==> u.cells[k] == SigmoidV(t.cells[k], sigma)
    ensures t.WellShaped() ==> u.WellShaped()
  {
    t.(cells := seq(|t.cells|, k requires 0 <= k < |t.cells| => SigmoidV(t.cells[k], sigma)))
  }

  /** Python's slice xs[lo:hi] for non-negative bounds: an end past the sequence is
      clipped and a start at or past the end gives the empty slice, never an error. */
  function Slice<T>(xs: seq<T>, lo: nat, hi: nat): (s: seq<T>)
    ensures var end := if hi <= |xs| then hi else |xs|;
      |s| == if lo <= end then end - lo else 0
    ensures forall i :: 0 <= i < |s| ==> lo + i < |xs| && s[i] == xs[lo + i]
  {
    var end := if hi <= |xs| then hi else |xs|;
    if lo <= end then xs[lo..end] else []
  }
}
