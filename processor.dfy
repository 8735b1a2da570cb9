/** The loops of Processor's post-processing: extract_boxes, which activates every head
    into a fresh array and overwrites its box columns in place, and extract_object_grids
    and extract_class_grids, which append one grid per head. Each is proved to compute
    the function that specifies it in Decode or Scores. */
module Processor {
  import opened Arith
  import opened Seqs
  import opened Tensors
  import opened Config
  import opened Grid
  import opened Boxes
  import opened Decode
  import opened Scores

  /** Lines 146-147 on one activated head held in an array: first every centre pair,
      then every size pair is overwritten in place. Afterwards the array holds the
      decoded scale. */
  method DecodeInPlace(out: array<seq<real>>, n: nat, grid: seq<Offset>, stride: real, anchors: seq<Anchor>)
    requires ScaleCells(out[..], n) && |grid| == n * n && |anchors| == Na
    modifies out
    ensures out[..] == DecodeScale(old(out[..]), n, grid, stride, anchors)
  {
    ghost var act := out[..];
    var k := 0;
    while k < out.Length
      invariant 0 <= k <= out.Length
      invariant forall i :: 0 <= i < k ==> out[i] == CentresDecoded(act, n, grid, stride)[i]
      invariant forall i :: k <= i < out.Length ==> out[i] == act[i]
    {
      DivBelow(k, n * n, Na);
      out[k] := DecodeCentre(out[k], grid[k % (n * n)], stride);
      k := k + 1;
    }
    ghost var centred := out[..];
    assert centred == CentresDecoded(act, n, grid, stride);
    k := 0;
    while k < out.Length
      invariant 0 <= k <= out.Length
      invariant forall i :: 0 <= i < k ==> out[i] == SizesDecoded(centred, n, anchors)[i]
      invariant forall i :: k <= i < out.Length ==> out[i] == centred[i]
    {
      DivBelow(k, n * n, Na);
      out[k] := DecodeSize(out[k], anchors[k / (n * n)]);
      k := k + 1;
    }
    assert out[..] == SizesDecoded(centred, n, anchors);
  }

  /** The first loop of extract_boxes (lines 137-142): every head activated into a fresh
      array of its own, and the grid of its width and height. */
  method ActivateHeads(outputs: seq<Tensor>, sigma: real -> real) returns (scaled: seq<array<seq<real>>>, grids: seq<seq<Offset>>)
    ensures |scaled| == |outputs| && |grids| == |outputs|
    ensures forall j :: 0 <= j < |scaled| ==> fresh(scaled[j])
    ensures forall j, l :: 0 <= j < l < |scaled| ==> scaled[j] != scaled[l]
    ensures forall j :: 0 <= j < |scaled| ==> scaled[j][..] == Activate(outputs[j], sigma).cells
    ensures forall j :: 0 <= j < |grids| ==> grids[j] == MakeGrid(outputs[j].width, outputs[j].height)
  {
    scaled, grids := [], [];
    var i := 0;
    while i < |outputs|
      invariant 0 <= i <= |outputs|
      invariant |scaled| == i && |grids| == i
      invariant forall j :: 0 <= j < i ==> fresh(scaled[j])
      invariant forall j, l :: 0 <= j < l < i ==> scaled[j] != scaled[l]
      invariant forall j :: 0 <= j < i ==> scaled[j][..] == Activate(outputs[j], sigma).cells
      invariant forall j :: 0 <= j < i ==> grids[j] == MakeGrid(outputs[j].width, outputs[j].height)
    {
      var cells := Activate(outputs[i], sigma).cells;
      var out := new seq<real>[|cells|](k requires 0 <= k < |cells| => cells[k]);
      assert out[..] == cells;
      scaled := scaled + [out];
      grids := grids + [MakeGrid(outputs[i].width, outputs[i].height)];
      i := i + 1;
    }
  }

  /** Head s as the first loop leaves it: out holds the head activated and grid is the
      grid of its width and height. */
  ghost predicate Prepared(outputs: seq<Tensor>, sigma: real -> real, s: nat, out: array<seq<real>>, grid: seq<Offset>)
    reads out
    requires s < |outputs|
  {
    out[..] == Activate(outputs[s], sigma).cells && grid == MakeGrid(outputs[s].width, outputs[s].height)
  }

  /** Lines 145-147 on head s of acceptable shape: its activated array is decoded in
      place with its grid, the s-th stride and the s-th anchor row; the arrays of the
      other heads are left as they were. */
  method DecodeHead(outputs: seq<Tensor>, sigma: real -> real, s: nat, scaled: seq<array<seq<real>>>, grids: seq<seq<Offset>>)
    requires s < ScaleCount(outputs) && outputs[s].WellShaped() && ShapeOk(outputs[s])
    requires s < |scaled| && s < |grids|
    requires forall j :: 0 <= j < |scaled| && j != s ==> scaled[j] != scaled[s]
    requires Prepared(outputs, sigma, s, scaled[s], grids[s])
    modifies scaled[s]
    ensures scaled[s][..] == DecodedScale(outputs, s, sigma)
    ensures forall j :: 0 <= j < |scaled| && j != s ==> scaled[j][..] == old(scaled[j][..])
  {
    HeadReady(outputs, sigma, s);
    DecodeInPlace(scaled[s], outputs[s].width, grids[s], Strides[s], AnchorGrid[s]);
  }

  /** The second loop of extract_boxes (lines 144-149), once every zipped head has a
      shape numpy accepts: the activated heads zipped with the strides and anchor rows,
      each decoded in place and collected in order. */
  method DecodeHeads(outputs: seq<Tensor>, sigma: real -> real, scaled: seq<array<seq<real>>>, grids: seq<seq<Offset>>)
    returns (r: seq<seq<seq<real>>>)
    requires AllWellShaped(outputs) && FirstMismatch(outputs, 0).None?
    requires |scaled| == |outputs| && |grids| == |outputs|
    requires forall j, l :: 0 <= j < l < |scaled| ==> scaled[j] != scaled[l]
    requires forall j :: 0 <= j < |scaled| ==> Prepared(outputs, sigma, j, scaled[j], grids[j])
    modifies scaled
    ensures r == DecodedScales(outputs, sigma)
    ensures forall j :: 0 <= j < ScaleCount(outputs) ==> scaled[j][..] == r[j]
    ensures forall j :: ScaleCount(outputs) <= j < |scaled| ==> scaled[j][..] == old(scaled[j][..])
  {
    ghost var decoded := DecodedScales(outputs, sigma);
    var z: seq<seq<seq<real>>> := [];
    var m := ScaleCount(outputs);
    var s := 0;
    while s < m
      invariant 0 <= s <= m
      invariant z == decoded[..s]
      invariant forall j :: 0 <= j < s ==> scaled[j][..] == decoded[j]
      invariant forall j :: s <= j < |scaled| ==> scaled[j][..] == old(scaled[j][..])
    {
      assert Prepared(outputs, sigma, s, scaled[s], grids[s]) by {
        assert old(Prepared(outputs, sigma, s, scaled[s], grids[s]));
      }
      DecodeHead(outputs, sigma, s, scaled, grids);
      z := z + [scaled[s][..]];
      s := s + 1;
    }
    assert z == decoded;
    r := z;
  }

  /** A head of acceptable shape, activated, is ready for the in-place decoding, and
      decoding it with its grid, stride and anchor row gives its decoded scale. */
  lemma {:induction false} HeadReady(outputs: seq<Tensor>, sigma: real -> real, s: nat)
    requires s < ScaleCount(outputs) && outputs[s].WellShaped() && ShapeOk(outputs[s])
    ensures var t := outputs[s];
      var act := Activate(t, sigma).cells;
      && ScaleCells(act, t.width)
      && |MakeGrid(t.width, t.height)| == t.width * t.width
      && DecodeScale(act, t.width, MakeGrid(t.width, t.height), Strides[s], AnchorGrid[s])
         == DecodedScale(outputs, s, sigma)
  {
    var t := outputs[s];
    assert |t.cells| == t.anchors * t.width * t.height;
    assert t.anchors * t.width * t.height == Na * (t.width * t.width);
  }

  /** The default objectness threshold of extract_boxes (line 131). */
  const DefaultConfThres: real := 0.5

  /** extract_boxes(output, conf_thres=0.5): the two loops, then the concatenation (which
      fails when no head was collected), the objectness mask and the corner conversion.
      numpy raises at the first zipped head whose shape it rejects; the work done before
      that point touches only the fresh arrays, so the model looks for that head before
      the second loop and reports the same failure. The caller's heads are values, and
      the method modifies nothing that existed before the call. */
  method ExtractBoxes(outputs: seq<Tensor>, sigma: real -> real, confThres: real := DefaultConfThres) returns (res: Result<seq<Xyxy>>)
    requires AllWellShaped(outputs)
    ensures res == ExtractBoxesSpec(outputs, confThres, sigma)
  {
    var scaled, grids := ActivateHeads(outputs, sigma);
    var fm := FirstMismatch(outputs, 0);
    if fm.Some? {
      res := Failure(ShapeMismatch(fm.value));
      return;
    }
    var z := DecodeHeads(outputs, sigma, scaled, grids);
    if z == [] {
      res := Failure(EmptyInput);
      return;
    }
    var pred := Flatten(z);
    assert pred == Candidates(outputs, sigma);
    var xc := ObjectnessMask(pred, confThres);
    res := Success(XywhToXyxy(Heads(MaskSelect(pred, xc))));
  }

  /** extract_object_grids(output): one object grid per head, in head order. */
  method ExtractObjectGrids(outputs: seq<Tensor>, sigma: real -> real) returns (grids: seq<Tensor>)
    ensures |grids| == |outputs|
    ensures forall i :: 0 <= i < |outputs| ==> grids[i] == ObjectGrid(outputs[i], sigma)
  {
    grids := [];
    var i := 0;
    while i < |outputs|
      invariant 0 <= i <= |outputs|
      invariant |grids| == i
      invariant forall j :: 0 <= j < i ==> grids[j] == ObjectGrid(outputs[j], sigma)
    {
      grids := grids + [ObjectGrid(outputs[i], sigma)];
      i := i + 1;
    }
  }

  /** extract_class_grids(output): one class grid per head, in head order. */
  method ExtractClassGrids(outputs: seq<Tensor>, sigma: real -> real) returns (grids: seq<Tensor>)
    ensures |grids| == |outputs|
    ensures forall i :: 0 <= i < |outputs| ==> grids[i] == ClassGrid(outputs[i], sigma)
  {
    grids := [];
    var i := 0;
    while i < |outputs|
      invariant 0 <= i <= |outputs|
      invariant |grids| == i
      invariant forall j :: 0 <= j < i ==> grids[j] == ClassGrid(outputs[j], sigma)
    {
      grids := grids + [ClassGrid(outputs[i], sigma)];
      i := i + 1;
    }
  }
}
