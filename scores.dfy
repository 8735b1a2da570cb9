/** What extract_object_grids and extract_class_grids compute for one head: the
    objectness probability of every cell, and every class probability weighted by it. */
module Scores {
  import opened Tensors
  import opened Config
  import opened Decode

  /** out[..., 4:5] activated for one cell: the objectness probability as a one-element
      vector, or the empty vector for a cell without an objectness column. */
  function ObjectCell(cell: seq<real>, sigma: real -> real): (p: seq<real>)
    ensures |p| == if |cell| >= 5 then 1 else 0
    ensures |cell| >= 5 ==> p[0] == sigma(cell[4])
  {
    SigmoidV(Slice(cell, 4, 5), sigma)
  }

  /** sigmoid_v(out[..., 5:]) * sigmoid_v(out[..., 4:5]) for one cell: the one-element
      objectness vector broadcasts over the class probabilities. Cells with fewer than
      five columns have neither, and the product of two empty vectors is empty. */
  function ClassCell(cell: seq<real>, sigma: real -> real): (p: seq<real>)
    ensures |p| == if |cell| >= 5 then |cell| - 5 else 0
  {
    var obj := ObjectCell(cell, sigma);
    var cls := SigmoidV(Slice(cell, 5, |cell|), sigma);
    if |cls| == 0 then [] else seq(|cls|, j requires 0 <= j < |cls| => cls[j] * obj[0])
  }

  /** One element of extract_object_grids' result: a head of the same anchors, width and
      height whose single attribute is the objectness probability. */
  function ObjectGrid(t: Tensor, sigma: real -> real): (u: Tensor)
    ensures u.anchors == t.anchors && u.width == t.width && u.height == t.height
    ensures u.attrs == if t.attrs >= 5 then 1 else 0
    ensures |u.cells| == |t.cells|
    ensures forall k :: 0 <= k < |t.cells| ==> u.cells[k] == ObjectCell(t.cells[k], sigma)
    ensures t.WellShaped() ==> u.WellShaped()
  {
    Tensor(t.anchors, t.width, t.height, if t.attrs >= 5 then 1 else 0,
      seq(|t.cells|, k requires 0 <= k < |t.cells| => ObjectCell(t.cells[k], sigma)))
  }

  /** One element of extract_class_grids' result: a head of the same anchors, width and
      height with one weighted score per class. */
  function ClassGrid(t: Tensor, sigma: real -> real): (u: Tensor)
    ensures u.anchors == t.anchors && u.width == t.width && u.height == t.height
    ensures u.attrs == if t.attrs >= 5 then t.attrs - 5 else 0
    ensures |u.cells| == |t.cells|
    ensures forall k :: 0 <= k < |t.cells| ==> u.cells[k] == ClassCell(t.cells[k], sigma)
    ensures t.WellShaped() ==> u.WellShaped()
  {
    Tensor(t.anchors, t.width, t.height, if t.attrs >= 5 then t.attrs - 5 else 0,
      seq(|t.cells|, k requires 0 <= k < |t.cells| => ClassCell(t.cells[k], sigma)))
  }

  /** Class score j of a cell is the activated class column 5 + j times the cell's
      objectness probability, as the object grid reports it. */
  lemma {:induction false} ClassScoreIsProduct(t: Tensor, sigma: real -> real, k: nat, j: nat)
    requires t.WellShaped() && t.attrs >= 5
    requires k < |t.cells| && j < t.attrs - 5
    ensures 5 + j < |t.cells[k]|
    ensures ClassGrid(t, sigma).cells[k][j] == sigma(t.cells[k][5 + j]) * ObjectGrid(t, sigma).cells[k][0]
  {
    var cell := t.cells[k];
    var cls := SigmoidV(Slice(cell, 5, |cell|), sigma);
    assert cls[j] == sigma(cell[5 + j]);
  }

  /** With an activation into [0, 1], every class score lies in [0, 1] and is at most
      both the objectness probability and the class probability it weights. */
  lemma {:induction false} ClassScoresBounded(cell: seq<real>, sigma: real -> real)
    requires UnitRange(sigma)
    ensures forall j :: 0 <= j < |ClassCell(cell, sigma)| ==>
      && 5 + j < |cell|
      && 0.0 <= ClassCell(cell, sigma)[j] <= 1.0
      && ClassCell(cell, sigma)[j] <= sigma(cell[4])
      && ClassCell(cell, sigma)[j] <= sigma(cell[5 + j])
  {
    var p := ClassCell(cell, sigma);
    forall j | 0 <= j < |p|
      ensures 5 + j < |cell|
      ensures 0.0 <= p[j] <= 1.0 && p[j] <= sigma(cell[4]) && p[j] <= sigma(cell[5 + j])
    {
      var c, o := sigma(cell[5 + j]), sigma(cell[4]);
      UnitRangeAt(sigma, cell[5 + j]);
      UnitRangeAt(sigma, cell[4]);
      assert p[j] == c * o by {
        var cls := SigmoidV(Slice(cell, 5, |cell|), sigma);
        assert cls[j] == c;
      }
      ProductOfProbabilities(c, o);
    }
  }

  /** The product of two probabilities is a probability no larger than either. */
  lemma ProductOfProbabilities(c: real, o: real)
    requires 0.0 <= c <= 1.0 && 0.0 <= o <= 1.0
    ensures 0.0 <= c * o <= 1.0 && c * o <= c && c * o <= o
  {
    MulMono(0.0, c, o);
    MulMono(c, 1.0, o);
    MulMono(0.0, o, c);
    MulMono(o, 1.0, c);
    assert c * o == o * c;
  }

  /** The objectness column extract_boxes thresholds is the object grid's value: cell k
      of scale s survives the threshold exactly when its object-grid probability exceeds it. */
  lemma {:induction false} ObjectnessAgrees(outputs: seq<Tensor>, sigma: real -> real, s: nat, k: nat)
    requires s < ScaleCount(outputs) && outputs[s].WellShaped() && ShapeOk(outputs[s])
    requires k < |outputs[s].cells|
    ensures |ObjectGrid(outputs[s], sigma).cells[k]| == 1
    ensures DecodedScale(outputs, s, sigma)[k][4] == ObjectGrid(outputs[s], sigma).cells[k][0]
  {
    DecodedCell(outputs, sigma, s, k);
  }
}
