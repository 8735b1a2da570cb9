# YOLOv5 post-processing of the TensorRT `Processor`

This project models the post-processing half of the detector class `Processor`
(python/lib/Processor.py). That half turns the three raw YOLOv5 head outputs into a
list of corner-form boxes, and the model states what it promises.

- **Configuration.** There are 80 classes and 85 attributes per anchor. There are three
  scales with three anchors each. The head shapes are (1, 3, 80, 80, 85),
  (1, 3, 40, 40, 85) and (1, 3, 20, 20, 85). The strides are 8, 16 and 32, and they
  pair with the small, medium and large anchor rows.
- **`make_grid`.** It builds the integer cell offsets that are added to decoded box
  centres.
- **`extract_boxes`.** It runs in these steps:
  1. activate every head with the logistic function;
  2. decode the centre columns with the grid offset and the stride, and the size
     columns with the doubled, squared value times the anchor (both overwrite the
     activated array in place);
  3. flatten each head to (1, 3·W·H, 85) and concatenate the heads;
  4. keep the rows whose objectness is strictly above the threshold;
  5. convert the kept rows with `xywh2xyxy`.
- **`extract_object_grids` and `extract_class_grids`.** The first gives the objectness
  probability of every cell. The second gives every class probability weighted by the
  objectness probability.

Modules:

| Module | File | What it holds |
|---|---|---|
| `Config` | config.dfy | The constant tables. |
| `Tensors` | tensors.dfy | A head as a value `Tensor(anchors, width, height, attrs, cells)`. The batch axis is 1. The cells are in C order, so cell (a, r, c) is `cells[a·W·H + r·H + c]`. Also the activation `sigmoid_v`. |
| `Grid` | grid.dfy | `make_grid`. |
| `Boxes` | boxes.dfy | `xywh2xyxy` and its inverse. |
| `Decode` | decode.dfy | What `extract_boxes` computes, as functions of the raw heads, and the properties proved about it. |
| `Scores` | scores.dfy | The object and class grids. |
| `Processor` | processor.dfy | The imperative side, proved equal to those functions. |
| `Arith`, `Seqs` | arith.dfy, seqs.dfy | Index arithmetic and concatenation helpers. |

The imperative side in `Processor`:

- The first loop of `extract_boxes` makes a fresh array per head.
- The second loop decodes each head in place with two loops over the cells (lines 146 and 147).
- `extract_object_grids` and `extract_class_grids` are loops that append.

The logistic function is a parameter `sigma: real -> real`. Where a property needs it
to map into [0, 1], the lemma requires `Tensors.UnitRange(sigma)`.

`extract_boxes` fails where numpy would raise. The failure is reported as a `Result`:

- **`ShapeMismatch(s)`.** The first zipped head `s` has a shape that is rejected, for one
  of these reasons:
  - it is not square, so the grid broadcast fails;
  - it does not have 3 anchors, so the anchor broadcast fails;
  - it does not have 85 attributes, so the reshape fails. An empty grid still reshapes,
    provided the four box columns exist.
- **`EmptyInput`.** No head is zipped, so there is nothing to concatenate.

`zip` with the three strides and anchor rows decodes at most the first three heads.

The `make_grid` docstring says the result has shape (1, 1, nx, ny, 80). The code reshapes
to (1, 1, ny, nx, 2), and the model follows the code. Entry k of the flattened grid holds
(k mod ny, k div ny). On a square grid, cell (row r, column c) therefore holds (c, r).

## Model

| member | source | states |
|---|---|---|
| Config.ConfigurationConsistent | python/lib/Processor.py:45-76 | One stride, one anchor row and one shape per scale. Each shape is (1, 3, n, n, 85) with stride · n = 640. All anchors are positive. Strides increase, and every anchor of a scale has a smaller area than every anchor of a later scale, so 8 pairs with the smallest row and 32 with the largest. |
| Tensors.SigmoidV | python/lib/Processor.py:179-180 | The activation applied elementwise: same length, entry i is sigma of entry i. |
| Tensors.Activate | python/lib/Processor.py:138 | A new head with the same shape where every cell is activated. A dense head stays dense. |
| Tensors.Slice | python/lib/Processor.py:118 | Python slicing `xs[lo:hi]`: the end is clipped to the length, a start past the end gives an empty slice, and element i is `xs[lo + i]`. |
| Grid.MeshStack | python/lib/Processor.py:169-172 | The stacked meshgrid has nx rows of ny entries each. Its content, flattened, is stated by `Grid.MakeGrid`: entry k is (k mod ny, k div ny). |
| Grid.MakeGrid | python/lib/Processor.py:159-174 | The grid has ny·nx entries. Entry k is (k mod ny, k div ny), so component 0 is below ny and component 1 below nx. |
| Grid.SquareGridCell | python/lib/Processor.py:169-173 | On a square n×n grid, cell (r, c), stored at r·n + c, holds (c, r): the x offset comes first. |
| Grid.CellCoordinates | python/lib/Processor.py:144-146 | Cell (a, r, c) of a head with m anchor planes is stored at a·n·n + r·n + c, below m·n·n. That index lies in anchor plane a and, under the broadcast, takes grid entry (c, r). |
| Boxes.ToCorners | python/lib/Processor.py:252-256 | The corner box has the centre box's centre as its midpoint and its width and height as its extents. x1 ≤ x2 exactly when w ≥ 0, and y1 ≤ y2 exactly when h ≥ 0. |
| Boxes.ToCentre | python/lib/Processor.py:252-256 | Inverse of the corner conversion: converting its result back gives the corner box. |
| Boxes.XywhToXyxy | python/lib/Processor.py:248-257 | One corner box per input row, in order; row i is the conversion of input row i. The input is not changed, because the result is a new sequence. |
| Boxes.XyxyToXywh | python/lib/Processor.py:248-257 | The reverse conversion row by row: one centre box per corner box. |
| Boxes.CornersRoundTrip | python/lib/Processor.py:252-256 | Converting to corners and back gives the original centre boxes. |
| Boxes.CentresRoundTrip | python/lib/Processor.py:252-256 | Converting to centres and back gives the original corner boxes. |
| Boxes.ConvertedOrdered | python/lib/Processor.py:252-256 | Boxes with non-negative width and height convert to boxes with x1 ≤ x2 and y1 ≤ y2. |
| Decode.ScaledSquareBound | python/lib/Processor.py:147 | A decoded size is non-negative for a non-negative anchor side. For an activated value in [0, 1] it is at most 4 anchor sides. |
| Decode.CentreBound | python/lib/Processor.py:146 | A centre decoded from an activated value in [0, 1] lies between (g − 0.5) and (g + 1.5) strides. |
| Decode.DecodeCentre | python/lib/Processor.py:146 | Writing the centre columns keeps the length and every column from 2 on. |
| Decode.DecodeSize | python/lib/Processor.py:147 | Writing the size columns keeps the length, columns 0-1 and every column from 4 on. |
| Decode.CentresDecoded | python/lib/Processor.py:146 | Decoding the centres over a head keeps the cell count and every cell's length. What each cell becomes is stated by `Decode.DecodeScaleCell` and `Decode.DecodedCell`. |
| Decode.SizesDecoded | python/lib/Processor.py:147 | Decoding the sizes over a head keeps the cell count and every cell's length. What each cell becomes is stated by `Decode.DecodeScaleCell` and `Decode.DecodedCell`. |
| Decode.DecodeScale | python/lib/Processor.py:146-147 | Decoding one activated head keeps its cell count. What each cell becomes is stated by `Decode.DecodeScaleCell` and `Decode.DecodedCell`. |
| Decode.ScaleCount | python/lib/Processor.py:144 | `zip` with the three strides decodes min(number of heads, 3) heads. |
| Decode.ShapeOk | python/lib/Processor.py:146-148 | A head shape that lines 146-148 accept: a square grid, 3 anchors, and 85 attributes, or an empty grid with at least the four box columns. Any other shape makes numpy raise. An accepted, well-shaped head has 3·n² cells. `Decode.ExtractBoxesFailures` states how this decides the failure case. |
| Decode.FirstMismatch | python/lib/Processor.py:144-148 | Returns no head exactly when every zipped head from `from` on has an accepted shape. Otherwise it returns the first zipped head with a rejected shape. |
| Decode.DecodedScale | python/lib/Processor.py:138-147 | A decoded head has one row per cell, and every row has 85 columns. Row k's values are stated by `Decode.DecodedCell`. |
| Decode.DecodedScales | python/lib/Processor.py:144-149 | One decoded head per zipped head, in order. |
| Decode.Candidates | python/lib/Processor.py:148-150 | Every concatenated candidate row has 85 columns. Which decoded row each candidate is, is stated by `Decode.CandidateAt`. |
| Decode.ObjectnessMask | python/lib/Processor.py:151 | One flag per candidate. Which candidates it keeps (objectness strictly above the threshold) is stated by `Decode.ExtractBoxesSelects`. |
| Decode.MaskIndices | python/lib/Processor.py:151-152 | Lists positions of set flags only, each within range, in strictly increasing order. |
| Decode.MaskIndicesComplete | python/lib/Processor.py:151-152 | Every set flag's position is listed. Together with MaskIndices, the list is exactly the set flags, in order. |
| Decode.MaskSelect | python/lib/Processor.py:152 | Boolean-mask indexing: result j is the element at the j-th set flag. |
| Decode.Heads | python/lib/Processor.py:153 | One centre box per candidate row. That the box is the row's first four columns is stated by `Decode.ExtractBoxesSelects`. |
| Decode.CandidatesCount | python/lib/Processor.py:148-150 | There are as many candidates as cells in the decoded heads together. |
| Decode.CandidateAt | python/lib/Processor.py:148-150 | Candidate CellsBefore(s) + k is row k of decoded head s: head 0 first, then 1, then 2, each in flat cell order. |
| Decode.DecodeScaleCell | python/lib/Processor.py:144-147 | Cell k of a decoded head is activated cell k decoded with grid entry k mod n² and anchor k div n². `Grid.CellCoordinates` shows that index k is cell (a, r, c) with a = k div n² and grid entry (c, r), which is how the grid broadcasts over anchors and the anchors over cells. |
| Decode.DecodeCellColumns | python/lib/Processor.py:146-147 | The decoded cell column by column. Columns 0-1 are the centre from the grid offset and the stride. Columns 2-3 are the size from the anchor. Every other column is unchanged. |
| Decode.DecodedCell | python/lib/Processor.py:138-147 | Raw cell k of head s after `extract_boxes` has these columns: cx = (2σ(tx) − 0.5 + gx)·stride_s; cy likewise with gy; w = (2σ(tw))²·anchor_w; h = (2σ(th))²·anchor_h; every other column is σ(raw). The grid is the head's own, the stride is stride s and the anchor row is row s, and the anchor and grid entry are found by k div n² and k mod n². |
| Decode.DecodedCellAt | python/lib/Processor.py:138-147 | The cell of anchor a, row r and column c of head s decodes to: cx = (2σ(tx) − 0.5 + c)·stride_s; cy = (2σ(ty) − 0.5 + r)·stride_s; w = (2σ(tw))²·anchor_w; h = (2σ(th))²·anchor_h, using anchor a of row s; every other column is σ(raw). |
| Decode.DecodedBoxBounds | python/lib/Processor.py:146-147 | With σ in [0, 1], every decoded centre lies within [−0.5, 1.5] cells of its grid offset, and every decoded width and height lies in [0, 4 · anchor side]. |
| Decode.DecodeScaleRow | python/lib/Processor.py:147 | In a decoded head with non-negative anchors, the sizes are non-negative and columns 4 onwards are the activated values. |
| Decode.DecodedScaleRows | python/lib/Processor.py:138-147 | In every decoded row the sizes are non-negative. With σ in [0, 1], the objectness and class columns are in [0, 1]. |
| Decode.CandidateRows | python/lib/Processor.py:147-150 | Every candidate has non-negative width and height. |
| Decode.CandidateScores | python/lib/Processor.py:138-150 | With σ in [0, 1], every candidate's objectness and class columns are in [0, 1]. |
| Decode.ExtractBoxesSpec | python/lib/Processor.py:131-154 | `extract_boxes` as a value: it succeeds exactly when there is a head and every zipped head has an accepted shape. The failure cases are stated by `Decode.ExtractBoxesFailures`, and the selected boxes by `Decode.ExtractBoxesSelects`. |
| Decode.ExtractBoxesFailures | python/lib/Processor.py:131-154 | `EmptyInput` exactly when there are no heads. `ShapeMismatch(s)` exactly when s is the first of the first three heads with a rejected shape. Success exactly when there is a head and every zipped head's shape is accepted. |
| Decode.ExtractBoxesSelects | python/lib/Processor.py:150-154 | The result is the corner form of exactly those candidates whose objectness is strictly greater than the threshold, in candidate order. |
| Decode.ExtractBoxesOrdered | python/lib/Processor.py:147-154 | Every returned box has x1 ≤ x2 and y1 ≤ y2. |
| Decode.ExtractBoxesBound | python/lib/Processor.py:148-153 | At most one box per cell of the decoded heads is returned. |
| Decode.ConfiguredShapesCells | python/lib/Processor.py:45-49 | Heads of the three configured shapes are all accepted and have 25200 cells between them. |
| Decode.ConfiguredShapesBound | python/lib/Processor.py:131-154 | On heads of the configured shapes, `extract_boxes` succeeds and returns at most 25200 boxes. |
| Scores.ObjectCell | python/lib/Processor.py:118 | `sigmoid_v(out[..., 4:5])` on one cell: a single entry σ(column 4), or empty when there is no column 4. |
| Scores.ClassCell | python/lib/Processor.py:124-127 | The fused scores of one cell: one per class column. Each score's value is stated by `Scores.ClassScoreIsProduct`. |
| Scores.ObjectGrid | python/lib/Processor.py:117-119 | An object grid keeps the head's anchors, width and height, has one attribute, and holds each cell's objectness probability. A dense head gives a dense grid. |
| Scores.ClassGrid | python/lib/Processor.py:124-128 | A class grid keeps the head's anchors, width and height, has one attribute per class, and holds each cell's fused scores. A dense head gives a dense grid. |
| Scores.ClassScoreIsProduct | python/lib/Processor.py:124-127 | Class score j of cell k is σ(class column j) times the cell's value in the object grid. |
| Scores.ClassScoresBounded | python/lib/Processor.py:124-127 | With σ in [0, 1], every fused class score is in [0, 1] and is at most both the objectness probability and the class probability. |
| Scores.ProductOfProbabilities | python/lib/Processor.py:127 | A product of two probabilities is a probability no larger than either factor. |
| Scores.ObjectnessAgrees | python/lib/Processor.py:118 | The column `extract_boxes` thresholds (line 151) equals the object grid's value for that cell. |
| Processor.DecodeInPlace | python/lib/Processor.py:146-147 | Overwriting the centre and then the size columns in place leaves the array holding the decoded head of its old contents. |
| Processor.ActivateHeads | python/lib/Processor.py:137-142 | One fresh array per head, pairwise distinct, each holding the activated head, together with the grid of each head's width and height. |
| Processor.DecodeHead | python/lib/Processor.py:145-147 | The prepared array of an accepted head s ends up holding decoded head s; the arrays of the other heads are unchanged. |
| Processor.DecodeHeads | python/lib/Processor.py:144-149 | The collected list is the decoded heads, in zip order. Each zipped head's array ends up holding its decoded head, and the arrays of heads past the third are unchanged. |
| Processor.HeadReady | python/lib/Processor.py:139-147 | An accepted, activated head has 3·n² cells with at least four columns each, and a grid of n² entries. Decoding it with its grid, stride s and anchor row s gives decoded head s. |
| Processor.ExtractBoxes | python/lib/Processor.py:131-154 | The method returns exactly what `Decode.ExtractBoxesSpec` describes, including both failure cases. The threshold defaults to 0.5. It modifies nothing that existed before the call, so the caller's heads are unchanged. |
| Processor.ExtractObjectGrids | python/lib/Processor.py:115-120 | One object grid per head, in head order. |
| Processor.ExtractClassGrids | python/lib/Processor.py:122-129 | One class grid per head, in head order. |

## Left out

- Engine deserialisation, CUDA buffer allocation and the rest of the constructor outside
  lines 40-76: these are foreign-library and device operations.
- `inference`: asynchronous host/device copies and stream synchronisation.
- `pre_process`: OpenCV resize and colour conversion, which are foreign calls, plus image
  normalisation.
- `detect`: the orchestration of the steps above. Its reshape of flat buffers to the head
  shapes is what the C-order `cells` layout already assumes.
- `non_max_suppression`, `nms` and `post_process`: the first is debugging code that exits
  the process part-way through. The second is a stub that returns `[]` or nothing. The
  third returns a constant.
- Tensors.SigmoidV: the exact floating-point values of `exp` and of the logistic
  function are not modelled. The activation is the abstract `sigma`. The scalar
  `sigmoid` and `exponential_v` are not used by the core.
- Floating-point rounding throughout: values are `real`.
- All `print` calls, including the two inside `xywh2xyxy`.
- Batch sizes other than 1: the batch axis of every head is fixed at 1.
- `filters` (line 40) is computed but never used.
- The anchor table is kept once (`AnchorGrid`). `self.anchors` and `self.anchor_grid` hold
  the same numbers with different axes.
- Processor.ExtractBoxes: numpy raises at the first zipped head with a rejected shape,
  part-way through the second loop. The model looks for that head before the second loop.
  The arrays decoded before that point are fresh and are then discarded, so the outcome
  is the same.
