/** What extract_boxes, extract_object_grids and extract_class_grids compute, as functions
    of the raw head outputs, and what is proved about it. */
module Decode {
  import opened Arith
  import opened Seqs
  import opened Tensors
  import opened Config
  import opened Grid
  import opened Boxes

  datatype Option<T> = None | Some(value: T)

  /** Why extract_boxes fails: a head shape its broadcasts or reshape reject, or no
      head at all to concatenate. */
  datatype Error = ShapeMismatch(scale: nat) | EmptyInput

  datatype Result<T> = Success(value: T) | Failure(error: Error)

  function Sq(x: real): real { x * x }

  /** Line 146 on one coordinate: an activated offset v in cell g becomes the pixel
      coordinate (2 v - 0.5 + g) * stride. */
  function CentrePixel(v: real, g: int, stride: real): real
  {
    (v * 2.0 - 0.5 + g as real) * stride
  }

  /** Line 147 on one side: an activated size v becomes (2 v)^2 anchor sides. */
  function SizePixel(v: real, side: real): real
  {
    Sq(v * 2.0) * side
  }

  /** A value the activation produced, doubled and squared, scales a non-negative
      anchor side into [0, 4 * side]. */
  lemma {:induction false} ScaledSquareBound(v: real, side: real)
    ensures 0.0 <= side ==> 0.0 <= SizePixel(v, side)
    ensures 0.0 <= v <= 1.0 && 0.0 <= side ==> SizePixel(v, side) <= 4.0 * side
  {
    if 0.0 <= side {
      MulMono(0.0, Sq(v * 2.0), side);
    }
    if 0.0 <= v <= 1.0 && 0.0 <= side {
      assert v * v <= 1.0 by { MulMono(v, 1.0, v); assert 1.0 * v == v; }
      assert Sq(v * 2.0) == 4.0 * (v * v);
      MulMono(Sq(v * 2.0), 4.0, side);
    }
  }

  /** Multiplying by a non-negative factor keeps order. */
  lemma {:induction false} MulMono(a: real, b: real, s: real)
    requires a <= b && 0.0 <= s
    ensures a * s <= b * s
  {
  }

  /** A centre decoded from an activated offset lies within [-0.5, 1.5] cells of g. */
  lemma {:induction false} CentreBound(v: real, g: int, stride: real)
    ensures 0.0 <= v <= 1.0 && 0.0 <= stride ==>
      (g as real - 0.5) * stride <= CentrePixel(v, g, stride) <= (g as real + 1.5) * stride
  {
    if 0.0 <= v <= 1.0 && 0.0 <= stride {
      MulMono(g as real - 0.5, v * 2.0 - 0.5 + g as real, stride);
      MulMono(v * 2.0 - 0.5 + g as real, g as real + 1.5, stride);
    }
  }

  // ---------------------------------------------------------------------------
  // One cell

  /** Line 146 on one activated cell: the centre columns become pixel coordinates from
      the grid offset and the stride; every other column is kept. */
  function DecodeCentre(row: seq<real>, g: Offset, stride: real): (d: seq<real>)
    requires |row| >= 2
    ensures |d| == |row| && d[2..] == row[2..]
  {
    row[0 := CentrePixel(row[0], g.gx, stride)][1 := CentrePixel(row[1], g.gy, stride)]
  }

  /** Line 147 on one activated cell: the size columns become pixel sizes from the
      anchor; every other column is kept. */
  function DecodeSize(row: seq<real>, anchor: Anchor): (d: seq<real>)
    requires |row| >= 4
    ensures |d| == |row| && d[..2] == row[..2] && d[4..] == row[4..]
  {
    row[2 := SizePixel(row[2], anchor.w)][3 := SizePixel(row[3], anchor.h)]
  }

  // ---------------------------------------------------------------------------
  // One scale

  /** The activated cells of one square n x n head, ready for decoding. */
  ghost predicate ScaleCells(act: seq<seq<real>>, n: nat)
  {
    && |act| == Na * (n * n)
    && forall k :: 0 <= k < |act| ==> |act[k]| >= 4
  }

  /** Line 146 over a scale: grid (1, 1, n, n, 2) broadcasts over the anchor axis, so
      cell k takes grid entry k mod (n * n). */
  function CentresDecoded(act: seq<seq<real>>, n: nat, grid: seq<Offset>, stride: real): (d: seq<seq<real>>)
    requires ScaleCells(act, n) && |grid| == n * n
    ensures ScaleCells(d, n)
    ensures forall k :: 0 <= k < |act| ==> |d[k]| == |act[k]|
  {
    seq(|act|, k requires 0 <= k < |act| => DecodeCentre(act[k], grid[k % (n * n)], stride))
  }

  /** Line 147 over a scale: anchor_grid (1, 3, 1, 1, 2) broadcasts over rows and
      columns, so cell k takes anchor k div (n * n). */
  function SizesDecoded(act: seq<seq<real>>, n: nat, anchors: seq<Anchor>): (d: seq<seq<real>>)
    requires ScaleCells(act, n) && |anchors| == Na
    ensures ScaleCells(d, n)
    ensures forall k :: 0 <= k < |act| ==> |d[k]| == |act[k]|
  {
    seq(|act|, k requires 0 <= k < |act| =>
      DivBelow(k, n * n, Na);
      DecodeSize(act[k], anchors[k / (n * n)]))
  }

  /** Lines 146-147 on one activated head: centres, then sizes. What each cell becomes
      is stated by DecodeScaleCell. */
  function DecodeScale(act: seq<seq<real>>, n: nat, grid: seq<Offset>, stride: real, anchors: seq<Anchor>): (d: seq<seq<real>>)
    requires ScaleCells(act, n) && |grid| == n * n && |anchors| == Na
    ensures |d| == |act|
  {
    SizesDecoded(CentresDecoded(act, n, grid, stride), n, anchors)
  }

  // ---------------------------------------------------------------------------
  // All scales

  ghost predicate AllWellShaped(outputs: seq<Tensor>)
  {
    forall i :: 0 <= i < |outputs| ==> outputs[i].WellShaped()
  }

  /** A head shape lines 146-148 accept: a square grid (the grid broadcast), Na anchors
      (the anchor broadcast) and No attributes (the reshape to (1, 3 * w * h, 85)); an
      empty grid reshapes whatever its attribute count, once the four box columns exist. */
  predicate ShapeOk(t: Tensor)
    ensures ShapeOk(t) && t.WellShaped() ==> |t.cells| == Na * (t.width * t.width)
  {
    && t.width == t.height
    && t.anchors == Na
    && (t.attrs == No || (t.width == 0 && t.attrs >= 4))
  }

  /** zip with the three strides and anchor rows stops at the shortest: at most Nl
      scales are decoded. */
  function ScaleCount(outputs: seq<Tensor>): (m: nat)
    ensures m <= Nl && m <= |outputs|
    ensures m == |outputs| || m == Nl
  {
    if |outputs| < Nl then |outputs| else Nl
  }

  /** The first decoded scale, from scale `from` on, whose shape is rejected. */
  function FirstMismatch(outputs: seq<Tensor>, from: nat): (r: Option<nat>)
    decreases ScaleCount(outputs) - from
    ensures r.None? <==> forall i :: from <= i < ScaleCount(outputs) ==> ShapeOk(outputs[i])
    ensures r.Some? ==>
      && from <= r.value < ScaleCount(outputs) && !ShapeOk(outputs[r.value])
      && forall i :: from <= i < r.value ==> ShapeOk(outputs[i])
  {
    if from >= ScaleCount(outputs) then None
    else if !ShapeOk(outputs[from]) then Some(from)
    else FirstMismatch(outputs, from + 1)
  }

  /** Scale s after lines 138-147: activated, then centres and sizes decoded with the
      grid of its own size, the s-th stride and the s-th anchor row. */
  function DecodedScale(outputs: seq<Tensor>, s: nat, sigma: real -> real): (d: seq<seq<real>>)
    requires s < ScaleCount(outputs) && outputs[s].WellShaped() && ShapeOk(outputs[s])
    ensures |d| == |outputs[s].cells|
    ensures forall k :: 0 <= k < |d| ==> |d[k]| == No
  {
    var t := Activate(outputs[s], sigma);
    DecodeScale(t.cells, t.width, MakeGrid(t.width, t.height), Strides[s], AnchorGrid[s])
  }

  /** The decoded scales, as line 149 collects them. */
  function DecodedScales(outputs: seq<Tensor>, sigma: real -> real): (z: seq<seq<seq<real>>>)
    requires AllWellShaped(outputs) && FirstMismatch(outputs, 0).None?
    ensures |z| == ScaleCount(outputs)
    ensures forall s :: 0 <= s < |z| ==> z[s] == DecodedScale(outputs, s, sigma)
    ensures forall s :: 0 <= s < |z| ==> |z[s]| == |outputs[s].cells|
  {
    seq(ScaleCount(outputs), s requires 0 <= s < ScaleCount(outputs) => DecodedScale(outputs, s, sigma))
  }

  /** The decoded scales reshaped to (1, 3 * w * h, 85) and concatenated (line 150). */
  function Candidates(outputs: seq<Tensor>, sigma: real -> real): (pred: seq<seq<real>>)
    requires AllWellShaped(outputs) && FirstMismatch(outputs, 0).None?
    ensures forall k :: 0 <= k < |pred| ==> |pred[k]| == No
  {
    var z := DecodedScales(outputs, sigma);
    FlattenAll(z, (row: seq<real>) => |row| == No);
    Flatten(z)
  }

  /** Number of cells in the scales before scale s. */
  function CellsBefore(outputs: seq<Tensor>, s: nat): nat
    requires s <= |outputs|
  {
    if s == 0 then 0 else CellsBefore(outputs, s - 1) + |outputs[s - 1].cells|
  }

  // ---------------------------------------------------------------------------
  // Boolean-mask indexing

  /** xc: objectness (column 4) strictly above the threshold, one flag per row. */
  function ObjectnessMask(pred: seq<seq<real>>, confThres: real): (xc: seq<bool>)
    requires forall k :: 0 <= k < |pred| ==> |pred[k]| > 4
    ensures |xc| == |pred|
  {
    seq(|pred|, k requires 0 <= k < |pred| => pred[k][4] > confThres)
  }

  /** The positions of the true flags, in increasing order. */
  function MaskIndices(mask: seq<bool>): (idx: seq<nat>)
    ensures |idx| <= |mask|
    ensures forall j :: 0 <= j < |idx| ==> idx[j] < |mask| && mask[idx[j]]
    ensures forall j, l :: 0 <= j < l < |idx| ==> idx[j] < idx[l]
  {
    if mask == [] then []
    else (if mask[0] then [0] else []) + Shift(MaskIndices(mask[1..]))
  }

  function Shift(idx: seq<nat>): (r: seq<nat>)
    ensures |r| == |idx| && forall j :: 0 <= j < |idx| ==> r[j] == idx[j] + 1
  {
    seq(|idx|, j requires 0 <= j < |idx| => idx[j] + 1)
  }

  /** Every set flag is listed: together with MaskIndices' own contract, the listed
      positions are exactly the set flags. */
  lemma {:induction false} MaskIndicesComplete(mask: seq<bool>, k: nat)
    requires k < |mask| && mask[k]
    ensures k in MaskIndices(mask)
  {
    var idx := MaskIndices(mask);
    if k > 0 {
      var rest := MaskIndices(mask[1..]);
      MaskIndicesComplete(mask[1..], k - 1);
      var j :| 0 <= j < |rest| && rest[j] == k - 1;
      assert idx == (if mask[0] then [0] else []) + Shift(rest);
      assert Shift(rest)[j] == k;
    }
  }

  /** xs[mask]: the elements whose flag is set, in their original order. */
  function MaskSelect<T>(xs: seq<T>, mask: seq<bool>): (r: seq<T>)
    requires |mask| == |xs|
    ensures |r| == |MaskIndices(mask)|
    ensures forall j :: 0 <= j < |r| ==> r[j] == xs[MaskIndices(mask)[j]]
  {
    if xs == [] then []
    else (if mask[0] then [xs[0]] else []) + MaskSelect(xs[1..], mask[1..])
  }

  /** pred[:, :4]: the centre-form box of each row. */
  function Heads(rows: seq<seq<real>>): (b: seq<Xywh>)
    requires forall k :: 0 <= k < |rows| ==> |rows[k]| >= 4
    ensures |b| == |rows|
  {
    seq(|rows|, k requires 0 <= k < |rows| => Xywh(rows[k][0], rows[k][1], rows[k][2], rows[k][3]))
  }

  // ---------------------------------------------------------------------------
  // extract_boxes

  /** extract_boxes(output, conf_thres) as a value: the first rejected zipped head, no
      head at all, or the corner boxes of the candidates above the threshold. */
  function ExtractBoxesSpec(outputs: seq<Tensor>, confThres: real, sigma: real -> real): (r: Result<seq<Xyxy>>)
    requires AllWellShaped(outputs)
    ensures r.Success? <==> 0 < ScaleCount(outputs) && forall i :: 0 <= i < ScaleCount(outputs) ==> ShapeOk(outputs[i])
  {
    match FirstMismatch(outputs, 0)
    case Some(s) => Failure(ShapeMismatch(s))
    case None =>
      if ScaleCount(outputs) == 0 then Failure(EmptyInput)
      else
        var pred := Candidates(outputs, sigma);
        Success(XywhToXyxy(Heads(MaskSelect(pred, ObjectnessMask(pred, confThres)))))
  }

  // ---------------------------------------------------------------------------
  // Properties of extract_boxes

  /** The concatenation offset of scale s is the number of cells of the scales before it. */
  lemma {:induction false} TotalLengthPrefix(outputs: seq<Tensor>, z: seq<seq<seq<real>>>, s: nat)
    requires s <= |z| <= |outputs|
    requires forall i :: 0 <= i < |z| ==> |z[i]| == |outputs[i].cells|
    ensures TotalLength(z[..s]) == CellsBefore(outputs, s)
  {
    if s > 0 {
      TotalLengthPrefix(outputs, z, s - 1);
      TotalLengthSnoc(z[..s - 1], z[s - 1]);
      assert z[..s] == z[..s - 1] + [z[s - 1]];
    }
  }

  lemma {:induction false} TotalLengthSnoc<T>(m: seq<seq<T>>, x: seq<T>)
    ensures TotalLength(m + [x]) == TotalLength(m) + |x|
  {
    if m != [] {
      TotalLengthSnoc(m[1..], x);
      assert (m + [x])[1..] == m[1..] + [x];
    }
  }

  /** There is one candidate per cell of every decoded scale: 3 * w * h per scale. */
  lemma {:induction false} CandidatesCount(outputs: seq<Tensor>, sigma: real -> real)
    requires AllWellShaped(outputs) && FirstMismatch(outputs, 0).None?
    ensures |Candidates(outputs, sigma)| == CellsBefore(outputs, ScaleCount(outputs))
  {
    var z := DecodedScales(outputs, sigma);
    assert Candidates(outputs, sigma) == Flatten(z);
    TotalLengthPrefix(outputs, z, |z|);
    assert z[..|z|] == z;
  }

  /** Candidate CellsBefore(s) + k is row k of decoded scale s. */
  lemma {:induction false} CandidateAt(outputs: seq<Tensor>, sigma: real -> real, s: nat, k: nat)
    requires AllWellShaped(outputs) && FirstMismatch(outputs, 0).None?
    requires s < ScaleCount(outputs) && k < |outputs[s].cells|
    ensures CellsBefore(outputs, s) + k < |Candidates(outputs, sigma)|
    ensures Candidates(outputs, sigma)[CellsBefore(outputs, s) + k] == DecodedScale(outputs, s, sigma)[k]
  {
    var z := DecodedScales(outputs, sigma);
    assert Candidates(outputs, sigma) == Flatten(z);
    assert k < |z[s]|;
    FlattenAt(z, s, k);
    TotalLengthPrefix(outputs, z, s);
  }

  /** Cell k of a decoded scale is activated cell k decoded with grid entry k mod n * n
      and anchor k div n * n. */
  lemma {:induction false} DecodeScaleCell(act: seq<seq<real>>, n: nat, grid: seq<Offset>, stride: real, anchors: seq<Anchor>, k: nat)
    requires ScaleCells(act, n) && |grid| == n * n && |anchors| == Na
    requires k < |act|
    ensures 0 < n * n && 0 <= k % (n * n) < |grid| && 0 <= k / (n * n) < Na
    ensures DecodeScale(act, n, grid, stride, anchors)[k]
      == DecodeSize(DecodeCentre(act[k], grid[k % (n * n)], stride), anchors[k / (n * n)])
  {
    DivBelow(k, n * n, Na);
    assert CentresDecoded(act, n, grid, stride)[k] == DecodeCentre(act[k], grid[k % (n * n)], stride);
  }

  /** The decoded cell written out: centre from the grid offset and stride, size from
      the anchor, every other column as it was. */
  lemma {:induction false} DecodeCellColumns(row: seq<real>, g: Offset, stride: real, anchor: Anchor)
    requires |row| >= 4
    ensures var d := DecodeSize(DecodeCentre(row, g, stride), anchor);
      && |d| == |row|
      && d[0] == CentrePixel(row[0], g.gx, stride)
      && d[1] == CentrePixel(row[1], g.gy, stride)
      && d[2] == SizePixel(row[2], anchor.w)
      && d[3] == SizePixel(row[3], anchor.h)
      && forall j :: 4 <= j < |row| ==> d[j] == row[j]
  {
    var e := DecodeCentre(row, g, stride);
    var d := DecodeSize(e, anchor);
    forall j | 4 <= j < |row|
      ensures d[j] == row[j]
    {
      assert d[4..][j - 4] == e[4..][j - 4];
      assert e[2..][j - 2] == row[2..][j - 2];
    }
    assert d[..2][0] == e[..2][0] && d[..2][1] == e[..2][1];
  }

  /** What a raw cell becomes. Cell k of scale s is raw cell k activated, then decoded
      with grid entry g = k mod n * n of the scale's own grid and anchor k div n * n of
      its anchor row: its centre is (2 sigma(tx) - 0.5 + g.gx, 2 sigma(ty) - 0.5 + g.gy)
      cells times the s-th stride, its size (2 sigma(tw))^2 and (2 sigma(th))^2 times
      the anchor, and every other column is the activated raw value. By
      CellCoordinates, cell (a, r, c) is k = a * n * n + r * n + c with anchor a and
      grid entry (c, r); by CandidateAt it is candidate CellsBefore(s) + k. */
  lemma {:induction false} DecodedCell(outputs: seq<Tensor>, sigma: real -> real, s: nat, k: nat)
    requires s < ScaleCount(outputs) && outputs[s].WellShaped() && ShapeOk(outputs[s])
    requires k < |outputs[s].cells|
    ensures var n := outputs[s].width;
      && 0 < n * n && 0 <= k / (n * n) < Na && 0 <= k % (n * n) < n * n
    ensures var n := outputs[s].width;
      var g := MakeGrid(n, n)[k % (n * n)];
      var anchor := AnchorGrid[s][k / (n * n)];
      var raw := outputs[s].cells[k];
      var row := DecodedScale(outputs, s, sigma)[k];
      && |raw| == |row| == No
      && row[0] == CentrePixel(sigma(raw[0]), g.gx, Strides[s])
      && row[1] == CentrePixel(sigma(raw[1]), g.gy, Strides[s])
      && row[2] == SizePixel(sigma(raw[2]), anchor.w)
      && row[3] == SizePixel(sigma(raw[3]), anchor.h)
      && forall j :: 4 <= j < No ==> row[j] == sigma(raw[j])
  {
    var t := outputs[s];
    var n := t.width;
    var act := Activate(t, sigma).cells;
    assert ScaleCells(act, n);
    var grid := MakeGrid(n, n);
    DecodeScaleCell(act, n, grid, Strides[s], AnchorGrid[s], k);
    DecodeCellColumns(SigmoidV(t.cells[k], sigma), grid[k % (n * n)], Strides[s], AnchorGrid[s][k / (n * n)]);
  }

  /** DecodedCell with the anchor and the grid entry of cell k already worked out. */
  lemma {:induction false} DecodedCellWith(outputs: seq<Tensor>, sigma: real -> real, s: nat, k: nat, a: nat, g: Offset)
    requires s < ScaleCount(outputs) && outputs[s].WellShaped() && ShapeOk(outputs[s])
    requires k < |outputs[s].cells|
    requires var n := outputs[s].width;
      0 < n * n && k / (n * n) == a && k % (n * n) < n * n && MakeGrid(n, n)[k % (n * n)] == g
    ensures a < Na
    ensures var anchor := AnchorGrid[s][a];
      var raw := outputs[s].cells[k];
      var row := DecodedScale(outputs, s, sigma)[k];
      && |raw| == |row| == No
      && row[0] == CentrePixel(sigma(raw[0]), g.gx, Strides[s])
      && row[1] == CentrePixel(sigma(raw[1]), g.gy, Strides[s])
      && row[2] == SizePixel(sigma(raw[2]), anchor.w)
      && row[3] == SizePixel(sigma(raw[3]), anchor.h)
      && forall j :: 4 <= j < No ==> row[j] == sigma(raw[j])
  {
    DecodedCell(outputs, sigma, s, k);
  }

  /** DecodedCell read by position: the cell of anchor a at row r and column c of
      head s takes the column index c as its x offset, the row index r as its y offset
      and anchor a of the s-th anchor row. */
  lemma {:induction false} DecodedCellAt(outputs: seq<Tensor>, sigma: real -> real, s: nat, a: nat, r: nat, c: nat)
    requires s < ScaleCount(outputs) && outputs[s].WellShaped() && ShapeOk(outputs[s])
    requires a < Na && r < outputs[s].width && c < outputs[s].width
    ensures var n := outputs[s].width; a * (n * n) + r * n + c < |outputs[s].cells|
    ensures var n := outputs[s].width;
      var k := a * (n * n) + r * n + c;
      var anchor := AnchorGrid[s][a];
      var raw := outputs[s].cells[k];
      var row := DecodedScale(outputs, s, sigma)[k];
      && |raw| == |row| == No
      && row[0] == CentrePixel(sigma(raw[0]), c, Strides[s])
      && row[1] == CentrePixel(sigma(raw[1]), r, Strides[s])
      && row[2] == SizePixel(sigma(raw[2]), anchor.w)
      && row[3] == SizePixel(sigma(raw[3]), anchor.h)
      && forall j :: 4 <= j < No ==> row[j] == sigma(raw[j])
  {
    var n := outputs[s].width;
    CellCoordinates(n, Na, a, r, c);
    DecodedCellWith(outputs, sigma, s, a * (n * n) + r * n + c, a, Offset(c, r));
  }

  /** With an activation into [0, 1], a decoded box stays near its cell and its anchor:
      the centre lies between half a cell before and one and a half cells after the
      cell's grid offset, and each size lies between zero and four anchor sides. */
  lemma {:induction false} DecodedBoxBounds(outputs: seq<Tensor>, sigma: real -> real, s: nat, k: nat)
    requires UnitRange(sigma)
    requires s < ScaleCount(outputs) && outputs[s].WellShaped() && ShapeOk(outputs[s])
    requires k < |outputs[s].cells|
    ensures var n := outputs[s].width;
      && 0 < n * n && 0 <= k / (n * n) < Na && 0 <= k % (n * n) < n * n
    ensures var n := outputs[s].width;
      var g := MakeGrid(n, n)[k % (n * n)];
      var anchor := AnchorGrid[s][k / (n * n)];
      var row := DecodedScale(outputs, s, sigma)[k];
      var stride := Strides[s];
      && (g.gx as real - 0.5) * stride <= row[0] <= (g.gx as real + 1.5) * stride
      && (g.gy as real - 0.5) * stride <= row[1] <= (g.gy as real + 1.5) * stride
      && 0.0 <= row[2] <= 4.0 * anchor.w
      && 0.0 <= row[3] <= 4.0 * anchor.h
  {
    DecodedCell(outputs, sigma, s, k);
    var n := outputs[s].width;
    var g := MakeGrid(n, n)[k % (n * n)];
    var anchor := AnchorGrid[s][k / (n * n)];
    var raw := outputs[s].cells[k];
    assert 0.0 <= Strides[s] && 0.0 <= anchor.w && 0.0 <= anchor.h;
    UnitRangeAt(sigma, raw[0]);
    UnitRangeAt(sigma, raw[1]);
    UnitRangeAt(sigma, raw[2]);
    UnitRangeAt(sigma, raw[3]);
    CentreBound(sigma(raw[0]), g.gx, Strides[s]);
    CentreBound(sigma(raw[1]), g.gy, Strides[s]);
    ScaledSquareBound(sigma(raw[2]), anchor.w);
    ScaledSquareBound(sigma(raw[3]), anchor.h);
  }

  /** Every row of a decoded scale keeps non-negative sizes when its anchors are
      non-negative, and carries its objectness and class columns through unchanged. */
  lemma {:induction false} DecodeScaleRow(act: seq<seq<real>>, n: nat, grid: seq<Offset>, stride: real, anchors: seq<Anchor>, k: nat)
    requires ScaleCells(act, n) && |grid| == n * n && |anchors| == Na
    requires forall a :: 0 <= a < Na ==> 0.0 <= anchors[a].w && 0.0 <= anchors[a].h
    requires k < |act|
    ensures var row := DecodeScale(act, n, grid, stride, anchors)[k];
      && |row| == |act[k]|
      && 0.0 <= row[2] && 0.0 <= row[3]
      && forall j :: 4 <= j < |row| ==> row[j] == act[k][j]
  {
    var nn := n * n;
    DivBelow(k, nn, Na);
    var anchor := anchors[k / nn];
    var centred := CentresDecoded(act, n, grid, stride)[k];
    var row := DecodeScale(act, n, grid, stride, anchors)[k];
    assert row == DecodeSize(centred, anchor);
    ScaledSquareBound(centred[2], anchor.w);
    ScaledSquareBound(centred[3], anchor.h);
    forall j | 4 <= j < |row|
      ensures row[j] == act[k][j]
    {
      assert row[4..][j - 4] == centred[4..][j - 4];
      assert centred[2..][j - 2] == act[k][2..][j - 2];
    }
  }

  /** Every decoded row of scale s: the size columns are non-negative, and when the
      activation maps into [0, 1] so are the objectness and class columns. */
  lemma {:induction false} DecodedScaleRows(outputs: seq<Tensor>, s: nat, sigma: real -> real, k: nat)
    requires s < ScaleCount(outputs) && outputs[s].WellShaped() && ShapeOk(outputs[s])
    requires k < |outputs[s].cells|
    ensures var row := DecodedScale(outputs, s, sigma)[k];
      && 0.0 <= row[2] && 0.0 <= row[3]
      && (UnitRange(sigma) ==> forall j :: 4 <= j < No ==> 0.0 <= row[j] <= 1.0)
  {
    var t := outputs[s];
    var n := t.width;
    var act := Activate(t, sigma).cells;
    assert |AnchorGrid[s]| == Na;
    assert forall a :: 0 <= a < Na ==> 0.0 <= AnchorGrid[s][a].w && 0.0 <= AnchorGrid[s][a].h;
    DecodeScaleRow(act, n, MakeGrid(n, n), Strides[s], AnchorGrid[s], k);
    var row := DecodedScale(outputs, s, sigma)[k];
    if UnitRange(sigma) {
      forall j | 4 <= j < No
        ensures 0.0 <= row[j] <= 1.0
      {
        UnitRangeAt(sigma, t.cells[k][j]);
      }
    }
  }

  /** Every candidate row has non-negative size columns. */
  lemma {:induction false} CandidateRows(outputs: seq<Tensor>, sigma: real -> real)
    requires AllWellShaped(outputs) && FirstMismatch(outputs, 0).None?
    ensures forall k :: 0 <= k < |Candidates(outputs, sigma)| ==>
      0.0 <= Candidates(outputs, sigma)[k][2] && 0.0 <= Candidates(outputs, sigma)[k][3]
  {
    var z := DecodedScales(outputs, sigma);
    var p := (row: seq<real>) => |row| == No && 0.0 <= row[2] && 0.0 <= row[3];
    forall s, k | 0 <= s < |z| && 0 <= k < |z[s]|
      ensures p(z[s][k])
    {
      DecodedScaleRows(outputs, s, sigma, k);
    }
    FlattenAll(z, p);
    assert Candidates(outputs, sigma) == Flatten(z);
  }

  /** With an activation into [0, 1], every candidate's objectness and class columns
      are probabilities. */
  lemma {:induction false} CandidateScores(outputs: seq<Tensor>, sigma: real -> real)
    requires UnitRange(sigma)
    requires AllWellShaped(outputs) && FirstMismatch(outputs, 0).None?
    ensures forall k, j :: 0 <= k < |Candidates(outputs, sigma)| && 4 <= j < No ==>
      0.0 <= Candidates(outputs, sigma)[k][j] <= 1.0
  {
    var z := DecodedScales(outputs, sigma);
    var p := (row: seq<real>) => |row| == No && forall j :: 4 <= j < No ==> 0.0 <= row[j] <= 1.0;
    forall s, k | 0 <= s < |z| && 0 <= k < |z[s]|
      ensures p(z[s][k])
    {
      DecodedScaleRows(outputs, s, sigma, k);
    }
    FlattenAll(z, p);
    assert Candidates(outputs, sigma) == Flatten(z);
  }

  /** extract_boxes fails exactly when a head among the first Nl has a shape the
      broadcasts or the reshape reject (reported for the first such head), or when
      there is no head at all. */
  lemma {:induction false} ExtractBoxesFailures(outputs: seq<Tensor>, confThres: real, sigma: real -> real)
    requires AllWellShaped(outputs)
    ensures ExtractBoxesSpec(outputs, confThres, sigma) == Failure(EmptyInput) <==> outputs == []
    ensures forall s: nat :: ExtractBoxesSpec(outputs, confThres, sigma) == Failure(ShapeMismatch(s)) <==>
      && s < |outputs| && s < Nl && !ShapeOk(outputs[s])
      && forall i :: 0 <= i < s ==> ShapeOk(outputs[i])
    ensures ExtractBoxesSpec(outputs, confThres, sigma).Success? <==>
      outputs != [] && forall i :: 0 <= i < ScaleCount(outputs) ==> ShapeOk(outputs[i])
  {
    var fm := FirstMismatch(outputs, 0);
    forall s: nat
      ensures ExtractBoxesSpec(outputs, confThres, sigma) == Failure(ShapeMismatch(s)) <==>
        && s < |outputs| && s < Nl && !ShapeOk(outputs[s])
        && forall i :: 0 <= i < s ==> ShapeOk(outputs[i])
    {
      if fm.None? {
        if s < ScaleCount(outputs) {
          assert ShapeOk(outputs[s]);
        }
      } else if s < fm.value {
        assert ShapeOk(outputs[s]);
      } else if s > fm.value {
        assert !ShapeOk(outputs[fm.value]) && 0 <= fm.value < s;
      }
    }
  }

  /** What extract_boxes returns: the corner form of exactly those candidates whose
      objectness is strictly above the threshold, in candidate order (scale 0, then 1,
      then 2; within a scale by anchor, row and column). */
  lemma {:induction false} ExtractBoxesSelects(outputs: seq<Tensor>, confThres: real, sigma: real -> real)
    requires AllWellShaped(outputs) && ExtractBoxesSpec(outputs, confThres, sigma).Success?
    ensures FirstMismatch(outputs, 0).None?
    ensures var pred := Candidates(outputs, sigma);
      var idx := MaskIndices(ObjectnessMask(pred, confThres));
      var boxes := ExtractBoxesSpec(outputs, confThres, sigma).value;
      && |boxes| == |idx|
      && (forall j :: 0 <= j < |idx| ==> idx[j] < |pred| && pred[idx[j]][4] > confThres)
      && (forall k :: 0 <= k < |pred| && pred[k][4] > confThres ==> k in idx)
      && (forall j, l :: 0 <= j < l < |idx| ==> idx[j] < idx[l])
      && forall j :: 0 <= j < |idx| ==>
        boxes[j] == ToCorners(Xywh(pred[idx[j]][0], pred[idx[j]][1], pred[idx[j]][2], pred[idx[j]][3]))
  {
    var pred := Candidates(outputs, sigma);
    var mask := ObjectnessMask(pred, confThres);
    forall k | 0 <= k < |pred| && pred[k][4] > confThres
      ensures k in MaskIndices(mask)
    {
      MaskIndicesComplete(mask, k);
    }
  }

  /** Every box extract_boxes returns has ordered corners: x1 <= x2 and y1 <= y2. */
  lemma {:induction false} ExtractBoxesOrdered(outputs: seq<Tensor>, confThres: real, sigma: real -> real)
    requires AllWellShaped(outputs) && ExtractBoxesSpec(outputs, confThres, sigma).Success?
    ensures var boxes := ExtractBoxesSpec(outputs, confThres, sigma).value;
      forall j :: 0 <= j < |boxes| ==> boxes[j].x1 <= boxes[j].x2 && boxes[j].y1 <= boxes[j].y2
  {
    ExtractBoxesSelects(outputs, confThres, sigma);
    CandidateRows(outputs, sigma);
  }

  /** extract_boxes returns at most one box per cell of the decoded scales. */
  lemma {:induction false} ExtractBoxesBound(outputs: seq<Tensor>, confThres: real, sigma: real -> real)
    requires AllWellShaped(outputs) && ExtractBoxesSpec(outputs, confThres, sigma).Success?
    ensures |ExtractBoxesSpec(outputs, confThres, sigma).value| <= CellsBefore(outputs, ScaleCount(outputs))
  {
    ExtractBoxesSelects(outputs, confThres, sigma);
    CandidatesCount(outputs, sigma);
  }

  /** Heads of the three configured shapes have acceptable shapes and
      3 * (80 * 80 + 40 * 40 + 20 * 20) = 25200 cells between them. */
  lemma {:induction false} ConfiguredShapesCells(outputs: seq<Tensor>)
    requires AllWellShaped(outputs) && |outputs| == Nl
    requires forall i :: 0 <= i < Nl ==>
      var sh := OutputShapes[i];
      && outputs[i].anchors == sh.anchors && outputs[i].width == sh.width
      && outputs[i].height == sh.height && outputs[i].attrs == sh.attrs
    ensures FirstMismatch(outputs, 0).None?
    ensures CellsBefore(outputs, ScaleCount(outputs)) == 25200
  {
    var t0, t1, t2 := outputs[0], outputs[1], outputs[2];
    assert t0.width == t0.height == 80 && t0.anchors == Na && t0.attrs == No;
    assert t1.width == t1.height == 40 && t1.anchors == Na && t1.attrs == No;
    assert t2.width == t2.height == 20 && t2.anchors == Na && t2.attrs == No;
    assert forall i :: 0 <= i < ScaleCount(outputs) ==> ShapeOk(outputs[i]);
    assert |t0.cells| == 19200 && |t1.cells| == 4800 && |t2.cells| == 1200;
    assert CellsBefore(outputs, 1) == 19200;
    assert CellsBefore(outputs, 2) == 24000;
  }

  /** Heads of the three configured shapes decode without error into at most
      25200 boxes. */
  lemma {:induction false} ConfiguredShapesBound(outputs: seq<Tensor>, confThres: real, sigma: real -> real)
    requires AllWellShaped(outputs) && |outputs| == Nl
    requires forall i :: 0 <= i < Nl ==>
      var sh := OutputShapes[i];
      && outputs[i].anchors == sh.anchors && outputs[i].width == sh.width
      && outputs[i].height == sh.height && outputs[i].attrs == sh.attrs
    ensures ExtractBoxesSpec(outputs, confThres, sigma).Success?
    ensures |ExtractBoxesSpec(outputs, confThres, sigma).value| <= 25200
  {
    ConfiguredShapesCells(outputs);
    ExtractBoxesBound(outputs, confThres, sigma);
  }
}
