/** xywh2xyxy: centre-form boxes to corner-form boxes. */
module Boxes {

  /** A box by centre and size, one row of an n x 4 [x, y, w, h] array. */
  datatype Xywh = Xywh(x: real, y: real, w: real, h: real)

  /** A box by top-left and bottom-right corner, one row of an n x 4 [x1, y1, x2, y2] array. */
  datatype Xyxy = Xyxy(x1: real, y1: real, x2: real, y2: real)

  /** One row of the conversion. The corners average back to the centre and are
      the size apart; a box of non-negative size has ordered corners. */
  function ToCorners(b: Xywh): (c: Xyxy)
    ensures (c.x1 + c.x2) / 2.0 == b.x && (c.y1 + c.y2) / 2.0 == b.y
    ensures c.x2 - c.x1 == b.w && c.y2 - c.y1 == b.h
    ensures b.w >= 0.0 <==> c.x1 <= c.x2
    ensures b.h >= 0.0 <==> c.y1 <= c.y2
  {
    Xyxy(b.x - b.w / 2.0, b.y - b.h / 2.0, b.x + b.w / 2.0, b.y + b.h / 2.0)
  }

  /** The reverse conversion, centre and size from the corners. */
  function ToCentre(c: Xyxy): (b: Xywh)
    ensures ToCorners(b) == c
  {
    Xywh((c.x1 + c.x2) / 2.0, (c.y1 + c.y2) / 2.0, c.x2 - c.x1, c.y2 - c.y1)
  }

  /** xywh2xyxy on an n x 4 array: a fresh array with one converted row per input row,
      in the same order; the input is left as it was. */
  function XywhToXyxy(x: seq<Xywh>): (y: seq<Xyxy>)
    ensures |y| == |x|
    ensures forall i :: 0 <= i < |x| ==> y[i] == ToCorners(x[i])
  {
    seq(|x|, i requires 0 <= i < |x| => ToCorners(x[i]))
  }

  /** The reverse conversion row by row. */
  function XyxyToXywh(y: seq<Xyxy>): (x: seq<Xywh>)
    ensures |x| == |y|
    ensures forall i :: 0 <= i < |y| ==> x[i] == ToCentre(y[i])
  {
    seq(|y|, i requires 0 <= i < |y| => ToCentre(y[i]))
  }

  /** Converting to corners and back gives every input row back. */
  lemma {:induction false} CornersRoundTrip(x: seq<Xywh>)
    ensures XyxyToXywh(XywhToXyxy(x)) == x
  {
    var y := XyxyToXywh(XywhToXyxy(x));
    forall i | 0 <= i < |x|
      ensures y[i] == x[i]
    {
      var c := ToCorners(x[i]);
      assert (c.x1 + c.x2) / 2.0 == x[i].x && c.x2 - c.x1 == x[i].w;
    }
  }

  /** Converting corner boxes to centre form and back to corners gives them back. */
  lemma {:induction false} CentresRoundTrip(y: seq<Xyxy>)
    ensures XywhToXyxy(XyxyToXywh(y)) == y
  {
  }

  /** Every converted box of non-negative width and height has ordered corners. */
  lemma {:induction false} ConvertedOrdered(x: seq<Xywh>)
    requires forall i :: 0 <= i < |x| ==> x[i].w >= 0.0 && x[i].h >= 0.0
    ensures forall i :: 0 <= i < |x| ==>
      XywhToXyxy(x)[i].x1 <= XywhToXyxy(x)[i].x2 && XywhToXyxy(x)[i].y1 <= XywhToXyxy(x)[i].y2
  {
  }
}
