/** The static post-processing configuration the detector builds once in its constructor. */
module Config {

  /** An anchor: a (width, height) box prior in input pixels. */
  datatype Anchor = Anchor(w: real, h: real)

  /** A head output shape (batch, anchors, width, height, attributes). */
  datatype Shape = Shape(batch: nat, anchors: nat, width: nat, height: nat, attrs: nat)

  /** Number of classes. */
  const Nc: nat := 80
  /** Attributes per anchor: four box parameters, objectness, and one score per class. */
  const No: nat := Nc + 5
  /** Number of detection scales (heads). */
  const Nl: nat := 3
  /** Anchors per scale. */
  const Na: nat := 3

  /** Side of the square network input the grids cover. */
  const InputSize: nat := 640

  /** The three head shapes, finest grid first. */
  const OutputShapes: seq<Shape> := [
    Shape(1, Na, 80, 80, No),
    Shape(1, Na, 40, 40, No),
    Shape(1, Na, 20, 20, No)
  ]

  /** Pixels per grid cell of each scale. */
  const Strides: seq<real> := [8.0, 16.0, 32.0]

  /** One scale's anchors. */
  type AnchorRow = row: seq<Anchor> | |row| == Na
    witness [Anchor(1.0, 1.0), Anchor(1.0, 1.0), Anchor(1.0, 1.0)]

  /** The anchor table, one row per scale, small anchors first. anchor_grid holds the
      same values with broadcast axes added (shape (nl, 1, na, 1, 1, 2)). */
  const AnchorGrid: seq<AnchorRow> := [
    [Anchor(10.0, 13.0), Anchor(16.0, 30.0), Anchor(33.0, 23.0)],
    [Anchor(30.0, 61.0), Anchor(62.0, 45.0), Anchor(59.0, 119.0)],
    [Anchor(116.0, 90.0), Anchor(156.0, 198.0), Anchor(373.0, 326.0)]
  ]

  function Area(a: Anchor): real { a.w * a.h }

  /** The tables agree with each other: one stride, one anchor row and one shape per
      scale; Na positive anchors per row; square grids that cover the input exactly
      at their stride; and finer strides paired with smaller anchors, every anchor
      of a row smaller in area than every anchor of a later row. */
  lemma ConfigurationConsistent()
    ensures |Strides| == Nl && |AnchorGrid| == Nl && |OutputShapes| == Nl
    ensures forall i :: 0 <= i < Nl ==>
      && OutputShapes[i].batch == 1 && OutputShapes[i].anchors == Na
      && OutputShapes[i].width == OutputShapes[i].height && OutputShapes[i].attrs == No
      && Strides[i] * OutputShapes[i].width as real == InputSize as real
      && |AnchorGrid[i]| == Na
    ensures forall i, a :: 0 <= i < Nl && 0 <= a < Na ==> 0.0 < AnchorGrid[i][a].w && 0.0 < AnchorGrid[i][a].h
    ensures forall i, j :: 0 <= i < j < Nl ==> Strides[i] < Strides[j]
    ensures forall i, j, a, b :: 0 <= i < j < Nl && 0 <= a < Na && 0 <= b < Na ==>
      Area(AnchorGrid[i][a]) < Area(AnchorGrid[j][b])
  {
  }
}
