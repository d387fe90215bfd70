# YOLOv3 detection head, modelled in Dafny

This project models the bookkeeping of the YOLOv3 detection head of
`chaos0625/yolov3` for one image, in three modules:

- **Tensors** (`tensors.dfy`) holds the layout operations the head uses, stated over nested sequences:
  - the row-major reshape that merges two axes (`Flatten`) and its inverse (`Unflatten`);
  - the even channel split (`Chunk`);
  - the 'ij' mesh grid;
  - column selection, boolean masking and gathering along the first axis.
- **YoloPrediction** (`yolo_prediction.dfy`) is `yolo_prediction` together with `correct_yolo_boxes`:
  - It splits one scale's raw output, an h x w grid of cells with `c` channels each, into one chunk per anchor. Each chunk is split into 4 box values, 1 objectness logit and `n_class` class logits.
  - It decodes every box against its row-major grid coordinate: centre = (sigmoid(t_xy) + (x, y)) * scale, and size = anchor * exp(t_wh).
  - It forms the multi-label scores sigmoid(objectness) * sigmoid(class logit).
  - It stacks the anchors so that output row `a*h*w + y*w + x` holds anchor `a` at cell `(y, x)`.
  - The anchor loop is a method (`YoloPredictionLayer`) proved against reference grids computed directly from channel offsets.
- **YoloDetection** (`yolo_detection.dfy`) is `get_detection`:
  - It optionally rescales the boxes and converts them once to corner format.
  - Then, class by class, it keeps the boxes whose class score reaches the threshold (inclusive) and lets non-max suppression keep at most `max_boxes` of them.
  - The survivors are gathered and tagged with the class index, and everything is concatenated in class order.
  - The class loop is a method (`GetDetection`) proved against the function `Detect`. `Detect` is the concatenation of per-class blocks, and the properties of the output are proved about it.

The logistic sigmoid, `exp`, the two box tools (`rescale_bbox`,
`cxywh2xyxy`) and non-max suppression are parameters (function values). Each
comes with only the contract its call site relies on:
- the box tools keep the number of boxes (`KeepsCount`);
- suppression returns at most `max_output_size` distinct, in-range candidate indices (`IsSuppressor`).

Failures of `tf.split` in `yolo_prediction` are modelled as `Err` results:
- no anchors, or a channel count that is not a multiple of the number of anchors;
- a chunk that is not `4 + 1 + n_class` wide.

The shape requirements of `get_detection` are preconditions (`Aligned`): one score row per box, with a score for every class. TensorFlow raises on them rather than returning.

Some members are plain definitions of a single TensorFlow operation applied
to the parameters above. Their meaning is their definition, so the table
below lists the lemmas and methods that state something about them instead:
- `Gather` is `tf.gather` (src/model/yolo_module.py:131-132), `ScoreMask` is
  `bbox_score >= score_thr` (:120) and `PreparedBoxes` is the optional
  rescale followed by the corner conversion (:115-118). `ClassDetectionsSound`
  and `ClassCandidatesExact` state what they select, and `GetDetection`'s loop
  is proved to use exactly `PreparedBoxes`.
- `SplitAnchors` and `SplitDetection` are the two `tf.split` calls (:67,
  :72-73). `ChannelCount`, `SplitAnchorsRoundTrip` and
  `SplitDetectionRoundTrip` state when they succeed and that they lose
  nothing.
- `Decode` (:98-104), `ScoreRow` (:75-78), `StackAnchors` (:83-89), `Concat`
  (:138-140) and `Detect` (:107-142) are the reference definitions that
  `DecodeFlat`, `AnchorStepScores`, `StackAnchorsAt`, `ConcatAt` and the
  `Detect...` lemmas are about.

Some lemmas are proof helpers and have no row: `OffsetInside` is the
real-arithmetic bound behind `DecodeCentreInCellX`/`DecodeCentreInCellY`, and
`SingleCandidate`, `SingleBoxKept` and `ConcatTwo` are the steps of
`MultiLabel`.

## Model

| member | source | states |
|---|---|---|
| Tensors.FlattenLength | src/model/yolo_module.py:96 | flattening rows of width w gives (number of rows) * w entries |
| Tensors.FlattenAt | src/model/yolo_module.py:96 | entry (y, x) of rows of width w lands at offset y*w + x of the row-major reshape |
| Tensors.FlattenIndex | src/model/yolo_module.py:96 | offset k of the row-major reshape holds row k / w, column k % w (x varies fastest) |
| Tensors.UnflattenAt | src/model/yolo_module.py:105 | reshaping h*w entries back to [h, w] puts entry y*w + x at cell (y, x) |
| Tensors.UnflattenFlatten | src/model/yolo_module.py:96-105 | flattening an [h, w] grid and reshaping it back gives the same grid |
| Tensors.FlattenUnflatten | src/model/yolo_module.py:96-105 | reshaping to [h, w] and flattening again gives the same sequence |
| Tensors.FlattenAppend | src/model/yolo_module.py:138-140 | concatenating one more block appends its entries after the earlier ones |
| Tensors.TrueIndices | src/model/yolo_module.py:122-123 | the positions selected by a mask, strictly increasing, every true position among them |
| Tensors.BooleanMask | src/model/yolo_module.py:122-123 | entry i of the masked list is the input entry at the i-th true position of the mask |
| YoloPrediction.GridXY | src/model/yolo_module.py:61-64 | the flattened grid has h*w entries and offset k holds (x, y) = (k % w, k / w) |
| YoloPrediction.MeshGridFlat | src/model/yolo_module.py:61-63 | flattened row-major, the 'ij' mesh grid's column grid holds k % w and its row grid k / w at offset k |
| YoloPrediction.GridXYAt | src/model/yolo_module.py:61-64 | the grid entry for cell (y, x) sits at offset y*w + x and holds (x, y) |
| YoloPrediction.DecodeStride | src/model/yolo_module.py:98-104 | the decoded centre moves by exactly one stride per cell in x and in y, and the decoded size depends on neither the cell nor the stride (no scaling of the size) |
| YoloPrediction.DecodeCentreInCellX | src/model/yolo_module.py:98-99 | with sigmoid in (0, 1) and a positive stride, the decoded x centre lies strictly inside cell x's stride |
| YoloPrediction.DecodeCentreInCellY | src/model/yolo_module.py:98-99 | the same for the y centre and cell y |
| YoloPrediction.Row | src/model/yolo_module.py:83-89 | row a*h*w + y*w + x of anchor a at cell (y, x) is below nAnchors*h*w |
| YoloPrediction.RowInverse | src/model/yolo_module.py:83-89 | the row layout is one-to-one: row div h*w is the anchor, and the remainder splits into y = r / w and x = r % w |
| YoloPrediction.SplitAnchorsRoundTrip | src/model/yolo_module.py:66-67 | whenever the anchor split succeeds, the anchors' chunks of a cell, put back in anchor order, are exactly that cell's channels: nothing is lost or repeated |
| YoloPrediction.SplitDetectionRoundTrip | src/model/yolo_module.py:72-73 | whenever the [4, 1, n_class] split succeeds, box, objectness and class logits of a cell, put back in that order, are exactly the cell's chunk |
| YoloPrediction.ChannelCount | src/model/yolo_module.py:67-73 | the two splits both succeed exactly when c == nAnchors * (5 + n_class) |
| YoloPrediction.DecodeFlat | src/model/yolo_module.py:97-104 | the split/sigmoid/add-grid/scale/exp/concat steps decode flattened box k exactly as the box formula, with grid entry k |
| YoloPrediction.CorrectYoloBoxes | src/model/yolo_module.py:92-105 | the result is an [h, w] grid whose cell (y, x) is the box of cell (y, x) decoded with grid entry y*w + x |
| YoloPrediction.CorrectYoloBoxesDecoded | src/model/yolo_module.py:96-105 | flatten, decode and reshape back decode every cell with the grid entry at its own row-major offset |
| YoloPrediction.DecodedCell | src/model/yolo_module.py:92-105 | a decoded grid holds at (y, x) the box formula applied to cell (y, x) with grid entry y*w + x |
| YoloPrediction.AnchorStep | src/model/yolo_module.py:70-79 | one anchor iteration (split, decode, sigmoid, multiply) yields exactly the reference box grid and score grid computed from that anchor's channel offsets |
| YoloPrediction.AnchorStepBoxes | src/model/yolo_module.py:71-74 | anchor a's decoded boxes equal the reference grid: cell (y, x) decodes channels [a*(5+n_class), a*(5+n_class)+4) of the cell with grid (x, y) |
| YoloPrediction.AnchorStepScores | src/model/yolo_module.py:75-78 | anchor a's score rows equal sigmoid(objectness) * sigmoid(class logit c) for every class c taken from that anchor's chunk, each class on its own |
| YoloPrediction.StackAnchorsAt | src/model/yolo_module.py:83-89 | after stack and reshape, anchor a at cell (y, x) is row a*h*w + y*w + x |
| YoloPrediction.StackAnchorsLength | src/model/yolo_module.py:83-89 | the stacked output has nAnchors*h*w rows |
| YoloPrediction.StackAnchorsRowOf | src/model/yolo_module.py:83-89 | every output row is the row of some (anchor, y, x) and holds that anchor's cell |
| YoloPrediction.StackedUpToStep | src/model/yolo_module.py:78-79 | appending anchor a's grids keeps the accumulated lists equal to the reference grids of anchors 0..a |
| YoloPrediction.StackedLayout | src/model/yolo_module.py:83-89 | stacking the per-anchor reference grids gives the assembled, anchor-major layout |
| YoloPrediction.StackedBoxes | src/model/yolo_module.py:87-89 | box row a*h*w + y*w + x is anchor a's decoded box of cell (y, x) |
| YoloPrediction.StackedScores | src/model/yolo_module.py:83-85 | score row a*h*w + y*w + x is anchor a's score row of cell (y, x) |
| YoloPrediction.StackedScoreWidths | src/model/yolo_module.py:83-85 | every stacked score row has n_class entries |
| YoloPrediction.YoloPredictionLayer | src/model/yolo_module.py:56-90 | UnevenAnchorSplit exactly when there are no anchors or they do not divide the channels; DetectionSizeMismatch exactly when they divide but a chunk is not 5 + n_class wide; otherwise nAnchors*h*w boxes and score rows of n_class, row a*h*w + y*w + x holding anchor a at cell (y, x) decoded from its own channels |
| YoloDetection.ClassCandidates | src/model/yolo_module.py:122-123 | the masked scores and boxes of class c are aligned, one per passing box |
| YoloDetection.ClassCandidatesExact | src/model/yolo_module.py:120-123 | box j is a class-c candidate exactly when its class-c score reaches the threshold; candidates keep input order and carry their own class-c score and box |
| YoloDetection.ClassKeep | src/model/yolo_module.py:124-130 | suppression keeps at most max_boxes distinct candidate positions |
| YoloDetection.ClassDetections | src/model/yolo_module.py:121-136 | one iteration yields aligned scores, boxes and class tags, at most max_boxes, every tag equal to c |
| YoloDetection.ClassDetectionsSound | src/model/yolo_module.py:122-136 | the class-c detections are distinct input boxes whose class-c score reached the threshold, each with its own score and box, tagged c |
| YoloDetection.EmptyClassContributesNothing | src/model/yolo_module.py:120-136 | a class with no score reaching the threshold contributes no detection |
| YoloDetection.ClassIndependence | src/model/yolo_module.py:121-136 | the class-c detections depend on the class-c scores only (no suppression across classes) |
| YoloDetection.MultiLabel | src/model/yolo_module.py:120-140 | a single box reaching the threshold for two classes is reported twice, once under each class |
| YoloDetection.ConcatLength | src/model/yolo_module.py:138-140 | the concatenation keeps scores, boxes and classes aligned and holds at most max_boxes entries per block |
| YoloDetection.ConcatAt | src/model/yolo_module.py:138-140 | entry i of the concatenation comes from the earlier blocks or, past them, from the last block |
| YoloDetection.ConcatClassBound | src/model/yolo_module.py:136-140 | every concatenated class tag is the index of some block |
| YoloDetection.ConcatClassOrder | src/model/yolo_module.py:136-140 | the concatenated class tags never decrease |
| YoloDetection.ConcatCount | src/model/yolo_module.py:136-140 | tag c occurs exactly as often as block c has entries |
| YoloDetection.ConcatPrefix | src/model/yolo_module.py:138-140 | the concatenation of the first c blocks is a prefix of the whole |
| YoloDetection.ConcatSound | src/model/yolo_module.py:138-140 | if every block's entries come from candidates of the block's class, so does every concatenated entry |
| YoloDetection.ConcatEmpty | src/model/yolo_module.py:138-140 | empty blocks concatenate to no detections |
| YoloDetection.ClassBlocksTagged | src/model/yolo_module.py:121-136 | the loop's blocks are aligned, capped at max_boxes and tagged with their own class |
| YoloDetection.DetectUpTo | src/model/yolo_module.py:121-140 | the detections of the first k classes are aligned and number at most k * max_boxes |
| YoloDetection.DetectStep | src/model/yolo_module.py:121-140 | the detections of the first k classes are those of the first k-1 followed by class k-1's |
| YoloDetection.ClassBlocksSound | src/model/yolo_module.py:122-136 | every entry of every class block comes from a box that reached the block's class threshold |
| YoloDetection.ClassCandidateAt | src/model/yolo_module.py:122-136 | entry i of class c's block is a passing class-c candidate's score and box |
| YoloDetection.DetectSound | src/model/yolo_module.py:120-140 | every detection has a class index below k and is an input box whose score for that class reached the threshold, with that score |
| YoloDetection.DetectClassOrder | src/model/yolo_module.py:121-140 | detections are grouped by class in ascending class order |
| YoloDetection.DetectClassCount | src/model/yolo_module.py:121-140 | class c < k contributes exactly its own detections, at most max_boxes; classes from k on contribute none |
| YoloDetection.DetectPrefix | src/model/yolo_module.py:134-140 | the detections of the first c classes are a prefix of those of the first k |
| YoloDetection.NoDetectionsBelowThreshold | src/model/yolo_module.py:120-140 | with every score below the threshold there are no detections |
| YoloDetection.DetectGuarantees | src/model/yolo_module.py:107-142 | the whole output is aligned, at most n_class * max_boxes long, every class below n_class with a score reaching the threshold, classes ascending |
| YoloDetection.GetDetection | src/model/yolo_module.py:107-142 | the class loop returns exactly `Detect` (the class-order concatenation of the per-class blocks), with the guarantees above |

## Left out

- `yolo_layer` (src/model/yolo_module.py:14-54) is not modelled. It is convolution, batch-norm and leaky-ReLU plumbing whose weights the framework owns.
- `feat_upsampling_nearest_neighbor` (src/model/yolo_module.py:144-148) is not modelled. It is a one-call wrapper over TensorFlow's nearest-neighbour resize.
- Non-max suppression internals are not modelled: IoU computation, score ordering, and which candidates survive. Only the bound and index contract of its call site is stated, so nothing is claimed about overlaps among the survivors.
- `rescale_bbox` and `cxywh2xyxy` are not part of this model: they live in a file not modelled. They are parameters of the model that map lists of boxes to lists of the same length.
- Floating point is not modelled. Sigmoid and exp are arbitrary functions over `real`, and the products are exact real products with no rounding or overflow. The bounds in `DecodeCentreInCellX`/`DecodeCentreInCellY` assume the sigmoid lies strictly inside (0, 1), which holds of the mathematical logistic function.
- The batch axis is not modelled. Both functions are modelled for one image; `get_detection` is per image in the source. The transpose (1, 0, 2, 3, 4) only moves the batch axis in front of the anchor axis, so for one image the stacked layout is anchor-major, with no transpose left to model.
- `experiment/yolov3.py` is not part of this model. It holds the training and inference driver: argument parsing, dataset loading, sessions and the learning-rate schedule.
- Shape errors that TensorFlow raises in `get_detection` are not modelled as results. They are preconditions: a score list and box list of different lengths, or a score row shorter than `n_class`.
- GetDetection: with `n_class == 0` the source's loop appends nothing and `tf.concat` of the three empty lists (src/model/yolo_module.py:138-140) raises, since a concatenation needs at least one input. The model does not model that error: `GetDetection` and `Detect` return three empty lists in that case.
- GetDetection: `tf.image.non_max_suppression` (src/model/yolo_module.py:124-128) rejects an `iou_thr` outside [0, 1]. The model passes `iou_thr` to the suppressor parameter unchecked and does not model that error.
- `det_class` is produced as floats (`ones_like(score) * c`) in the source. The model keeps it as natural numbers.
- `max_boxes` defaults to 20 and both shapes to `None` in the source. The model takes them from `Config`; `DefaultConfig` builds the configuration with those defaults (`DefaultMaxBoxes` is 20).
- The stride `scale` is a real parameter. Nothing about its value, the network stride of the scale, is modelled.
- `YoloDetection.MultiLabel` is proved for one box and two classes, with a suppressor that keeps the first candidate. It shows that duplicates across classes are possible; it is not a statement about every suppressor.
