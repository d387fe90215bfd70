/**
 * The detection extractor of one image: optionally rescales the predicted
 * boxes, converts them once to corner format, and then, class by class,
 * keeps the candidates whose score for that class reaches the threshold,
 * lets non-max suppression pick at most max_boxes of them, and appends the
 * survivors tagged with the class index.
 *
 * The box tools (rescale, centre-to-corner conversion) and the suppression
 * routine are parameters: the model relies only on the contracts their call
 * sites need.
 */
module YoloDetection {
  import opened Tensors
  import opened YoloPrediction

  datatype Option<T> = None | Some(value: T)

  /** An image shape as passed to the rescaling tool. */
  type Shape = seq<int>

  /** A box in corner format: (xmin, ymin, xmax, ymax). */
  datatype Corners = Corners(xmin: real, ymin: real, xmax: real, ymax: real)

  /** The box tools: rescaling from the network input shape to the original image shape, and centre to corner format. */
  datatype BoxTools = BoxTools(rescale: (seq<Box>, Shape, Shape) -> seq<Box>, toCorners: seq<Box> -> seq<Corners>)

  /** Both tools map a list of boxes to a list of the same length, as the masks applied after them require. */
  ghost predicate KeepsCount(tools: BoxTools)
  {
    && (forall bs, r, o :: |tools.rescale(bs, r, o)| == |bs|)
    && (forall bs :: |tools.toCorners(bs)| == |bs|)
  }

  /** Non-max suppression: (boxes, scores, max_output_size, iou_threshold) to the indices it keeps. */
  type Suppressor = (seq<Corners>, seq<real>, nat, real) -> seq<nat>

  /** `idx` selects at most maxOut distinct positions of a list of length n. */
  predicate IsSelection(idx: seq<nat>, n: nat, maxOut: nat)
  {
    && |idx| <= maxOut
    && (forall i :: 0 <= i < |idx| ==> idx[i] < n)
    && (forall i, i' :: 0 <= i < i' < |idx| ==> idx[i] != idx[i'])
  }

  /** The only property of suppression the extractor relies on: a selection of at most max_output_size distinct candidates. */
  ghost predicate IsSuppressor(nms: Suppressor)
  {
    forall boxes, scores, maxOut, iou :: |boxes| == |scores| ==> IsSelection(nms(boxes, scores, maxOut, iou), |boxes|, maxOut)
  }

  /** The default cap on detections per class. */
  const DefaultMaxBoxes: nat := 20

  /** The parameters of the extractor; the two shapes are optional. */
  datatype Config = Config(nClass: nat, scoreThr: real, iouThr: real, maxBoxes: nat,
                           rescaleShape: Option<Shape>, originalShape: Option<Shape>)

  /** The extractor's parameters when the caller passes only the required ones: max_boxes 20 and no rescaling. */
  function DefaultConfig(nClass: nat, scoreThr: real, iouThr: real): Config
  {
    Config(nClass, scoreThr, iouThr, DefaultMaxBoxes, None, None)
  }

  /** The extractor's three aligned outputs: score, corner box and class index of every detection. */
  datatype Detections = Detections(scores: seq<real>, boxes: seq<Corners>, classes: seq<nat>)

  /** One score row per box, each holding a score for every class. */
  predicate Aligned<T>(scores: seq<seq<real>>, boxes: seq<T>, nClass: nat)
  {
    |scores| == |boxes| && forall j :: 0 <= j < |scores| ==> nClass <= |scores[j]|
  }

  /**
   * The boxes handed to the per-class loop: rescaled exactly when both shapes
   * are given, then converted to corner format once.
   */
  function PreparedBoxes(boxes: seq<Box>, cfg: Config, tools: BoxTools): (r: seq<Corners>)
    requires KeepsCount(tools)
    ensures |r| == |boxes|
    ensures cfg.rescaleShape.Some? && cfg.originalShape.Some? ==>
      r == tools.toCorners(tools.rescale(boxes, cfg.rescaleShape.value, cfg.originalShape.value))
    ensures cfg.rescaleShape.None? || cfg.originalShape.None? ==> r == tools.toCorners(boxes)
  {
    var rescaled := if cfg.rescaleShape.Some? && cfg.originalShape.Some?
      then tools.rescale(boxes, cfg.rescaleShape.value, cfg.originalShape.value)
      else boxes;
    tools.toCorners(rescaled)
  }

  /** The score mask: entry (j, c) is set when box j's score for class c reaches the threshold (inclusive). */
  function ScoreMask(scores: seq<seq<real>>, thr: real): (m: seq<seq<bool>>)
    ensures |m| == |scores|
    ensures forall j :: 0 <= j < |m| ==> |m[j]| == |scores[j]|
    ensures forall j, c :: 0 <= j < |m| && 0 <= c < |m[j]| ==> (m[j][c] <==> thr <= scores[j][c])
  {
    seq(|scores|, j requires 0 <= j < |scores| => seq(|scores[j]|, c requires 0 <= c < |scores[j]| => scores[j][c] >= thr))
  }

  /** The positions of the boxes whose class-c score reaches the threshold, in order. */
  function ClassIndices(scores: seq<seq<real>>, thr: real, c: nat): seq<nat>
    requires forall j :: 0 <= j < |scores| ==> c < |scores[j]|
  {
    TrueIndices(Column(ScoreMask(scores, thr), c))
  }

  /** The class-c candidates: their class-c scores and their boxes, masked alike. */
  function ClassCandidates<T>(scores: seq<seq<real>>, boxes: seq<T>, thr: real, c: nat): (r: (seq<real>, seq<T>))
    requires |scores| == |boxes| && forall j :: 0 <= j < |scores| ==> c < |scores[j]|
    ensures |r.0| == |r.1| == |ClassIndices(scores, thr, c)|
  {
    var mask := Column(ScoreMask(scores, thr), c);
    (BooleanMask(Column(scores, c), mask), BooleanMask(boxes, mask))
  }

  /** The candidate positions suppression keeps for class c. */
  function ClassKeep(scores: seq<seq<real>>, boxes: seq<Corners>, cfg: Config, nms: Suppressor, c: nat): (keep: seq<nat>)
    requires Aligned(scores, boxes, cfg.nClass) && c < cfg.nClass
    requires IsSuppressor(nms)
    ensures IsSelection(keep, |ClassIndices(scores, cfg.scoreThr, c)|, cfg.maxBoxes)
  {
    var (cScore, cBox) := ClassCandidates(scores, boxes, cfg.scoreThr, c);
    nms(cBox, cScore, cfg.maxBoxes, cfg.iouThr)
  }

  /** One iteration of the class loop: the kept candidates of class c, gathered and tagged with c. */
  function ClassDetections(scores: seq<seq<real>>, boxes: seq<Corners>, cfg: Config, nms: Suppressor, c: nat): (d: Detections)
    requires Aligned(scores, boxes, cfg.nClass) && c < cfg.nClass
    requires IsSuppressor(nms)
    ensures |d.scores| == |d.boxes| == |d.classes| <= cfg.maxBoxes
    ensures forall i :: 0 <= i < |d.classes| ==> d.classes[i] == c
  {
    var (cScore, cBox) := ClassCandidates(scores, boxes, cfg.scoreThr, c);
    var keep := ClassKeep(scores, boxes, cfg, nms, c);
    Detections(Gather(cScore, keep), Gather(cBox, keep), seq(|keep|, _ => c))
  }

  /** The input positions of the class-c detections. */
  function ClassOrigins(scores: seq<seq<real>>, boxes: seq<Corners>, cfg: Config, nms: Suppressor, c: nat): seq<nat>
    requires Aligned(scores, boxes, cfg.nClass) && c < cfg.nClass
    requires IsSuppressor(nms)
  {
    Gather(ClassIndices(scores, cfg.scoreThr, c), ClassKeep(scores, boxes, cfg, nms, c))
  }

  /**
   * Per-class blocks as the class loop appends them: block c holds aligned
   * scores, boxes and class tags, at most maxOut of them, every tag equal to c.
   */
  predicate Tagged(blocks: seq<Detections>, maxOut: nat)
  {
    forall c :: 0 <= c < |blocks| ==>
      && |blocks[c].scores| == |blocks[c].boxes| == |blocks[c].classes| <= maxOut
      && forall i :: 0 <= i < |blocks[c].classes| ==> blocks[c].classes[i] == c
  }

  /** Concatenation of the per-class lists along the first axis, block after block. */
  function Concat(blocks: seq<Detections>): Detections
  {
    if blocks == [] then Detections([], [], [])
    else
      var prev, b := Concat(blocks[..|blocks| - 1]), blocks[|blocks| - 1];
      Detections(prev.scores + b.scores, prev.boxes + b.boxes, prev.classes + b.classes)
  }

  /** The blocks of classes 0 .. k - 1, one loop iteration each. */
  function ClassBlocks(scores: seq<seq<real>>, boxes: seq<Corners>, cfg: Config, nms: Suppressor, k: nat): (bs: seq<Detections>)
    requires Aligned(scores, boxes, cfg.nClass) && k <= cfg.nClass
    requires IsSuppressor(nms)
    ensures |bs| == k && forall c :: 0 <= c < k ==> bs[c] == ClassDetections(scores, boxes, cfg, nms, c)
  {
    seq(k, c requires 0 <= c < k => ClassDetections(scores, boxes, cfg, nms, c))
  }

  /** The detections of classes 0 .. k - 1, concatenated in class order. */
  function DetectUpTo(scores: seq<seq<real>>, boxes: seq<Corners>, cfg: Config, nms: Suppressor, k: nat): (r: Detections)
    requires Aligned(scores, boxes, cfg.nClass) && k <= cfg.nClass
    requires IsSuppressor(nms)
    ensures |r.scores| == |r.boxes| == |r.classes| <= k * cfg.maxBoxes
  {
    ClassBlocksTagged(scores, boxes, cfg, nms, k);
    ConcatLength(ClassBlocks(scores, boxes, cfg, nms, k), cfg.maxBoxes);
    Concat(ClassBlocks(scores, boxes, cfg, nms, k))
  }

  /** get_detection as a function: the per-class detections of all classes over the prepared boxes. */
  function Detect(scores: seq<seq<real>>, bboxList: seq<Box>, cfg: Config, tools: BoxTools, nms: Suppressor): Detections
    requires Aligned(scores, bboxList, cfg.nClass)
    requires KeepsCount(tools) && IsSuppressor(nms)
  {
    DetectUpTo(scores, PreparedBoxes(bboxList, cfg, tools), cfg, nms, cfg.nClass)
  }

  /**
   * Exactly the boxes whose class-c score reaches the threshold are offered
   * to suppression for class c, in their original order, each with its own
   * class-c score and box.
   */
  lemma ClassCandidatesExact<T>(scores: seq<seq<real>>, boxes: seq<T>, thr: real, c: nat)
    requires |scores| == |boxes| && forall j :: 0 <= j < |scores| ==> c < |scores[j]|
    ensures forall j :: 0 <= j < |scores| ==> (j in ClassIndices(scores, thr, c) <==> thr <= scores[j][c])
    ensures forall i :: 0 <= i < |ClassIndices(scores, thr, c)| ==> ClassIndices(scores, thr, c)[i] < |scores|
    ensures forall i, i' :: 0 <= i < i' < |ClassIndices(scores, thr, c)| ==>
      ClassIndices(scores, thr, c)[i] < ClassIndices(scores, thr, c)[i']
    ensures forall i :: 0 <= i < |ClassIndices(scores, thr, c)| ==>
      var j := ClassIndices(scores, thr, c)[i];
      j < |scores| &&
      ClassCandidates(scores, boxes, thr, c).0[i] == scores[j][c] &&
      ClassCandidates(scores, boxes, thr, c).1[i] == boxes[j]
  {
    var mask := Column(ScoreMask(scores, thr), c);
    var idx := TrueIndices(mask);
    assert ClassIndices(scores, thr, c) == idx;
    forall j | 0 <= j < |scores|
      ensures j in idx <==> thr <= scores[j][c]
    {
      assert mask[j] <==> thr <= scores[j][c];
      if j in idx {
        var i :| 0 <= i < |idx| && idx[i] == j;
      }
    }
  }

  /**
   * The class-c detections are distinct boxes that passed the threshold: at
   * most max_boxes of them, each with its own class-c score and box, tagged c.
   */
  lemma ClassDetectionsSound(scores: seq<seq<real>>, boxes: seq<Corners>, cfg: Config, nms: Suppressor, c: nat)
    requires Aligned(scores, boxes, cfg.nClass) && c < cfg.nClass
    requires IsSuppressor(nms)
    ensures var d, o := ClassDetections(scores, boxes, cfg, nms, c), ClassOrigins(scores, boxes, cfg, nms, c);
      && |o| == |d.scores| <= cfg.maxBoxes
      && (forall i, i' :: 0 <= i < i' < |o| ==> o[i] != o[i'])
      && (forall i :: 0 <= i < |o| ==>
            && o[i] < |scores|
            && cfg.scoreThr <= scores[o[i]][c]
            && d.scores[i] == scores[o[i]][c]
            && d.boxes[i] == boxes[o[i]]
            && d.classes[i] == c)
  {
    var thr := cfg.scoreThr;
    var idx := ClassIndices(scores, thr, c);
    var keep := ClassKeep(scores, boxes, cfg, nms, c);
    var d, o := ClassDetections(scores, boxes, cfg, nms, c), ClassOrigins(scores, boxes, cfg, nms, c);
    ClassCandidatesExact(scores, boxes, thr, c);
    forall i, i' | 0 <= i < i' < |o|
      ensures o[i] != o[i']
    {
      assert keep[i] != keep[i'];
      if keep[i] < keep[i'] {
        assert idx[keep[i]] < idx[keep[i']];
      } else {
        assert idx[keep[i']] < idx[keep[i]];
      }
    }
    forall i | 0 <= i < |o|
      ensures o[i] < |scores| && thr <= scores[o[i]][c]
    {
      assert idx[keep[i]] in idx;
    }
  }

  lemma FirstIn<T>(s: seq<T>)
    ensures 0 < |s| ==> s[0] in s
  {
  }

  /** A class with no candidate reaching the threshold contributes nothing. */
  lemma EmptyClassContributesNothing(scores: seq<seq<real>>, boxes: seq<Corners>, cfg: Config, nms: Suppressor, c: nat)
    requires Aligned(scores, boxes, cfg.nClass) && c < cfg.nClass
    requires IsSuppressor(nms)
    requires forall j :: 0 <= j < |scores| ==> scores[j][c] < cfg.scoreThr
    ensures ClassDetections(scores, boxes, cfg, nms, c) == Detections([], [], [])
  {
    ClassCandidatesExact(scores, boxes, cfg.scoreThr, c);
    FirstIn(ClassIndices(scores, cfg.scoreThr, c));
    FirstIn(ClassKeep(scores, boxes, cfg, nms, c));
  }

  /**
   * Classes are filtered and suppressed independently: the class-c
   * detections depend on the class-c scores only, not on the other classes.
   */
  lemma ClassIndependence(scores: seq<seq<real>>, scores': seq<seq<real>>, boxes: seq<Corners>, cfg: Config, nms: Suppressor, c: nat)
    requires Aligned(scores, boxes, cfg.nClass) && Aligned(scores', boxes, cfg.nClass) && c < cfg.nClass
    requires IsSuppressor(nms)
    requires forall j :: 0 <= j < |scores| ==> scores[j][c] == scores'[j][c]
    ensures ClassDetections(scores, boxes, cfg, nms, c) == ClassDetections(scores', boxes, cfg, nms, c)
  {
    var thr := cfg.scoreThr;
    assert Column(scores, c) == Column(scores', c);
    var m, m' := ScoreMask(scores, thr), ScoreMask(scores', thr);
    assert Column(m, c) == Column(m', c) by {
      forall j | 0 <= j < |scores|
        ensures m[j][c] == m'[j][c]
      {
      }
    }
  }

  /** Score s and box b are those of an input box whose class-cls score reached the threshold. */
  ghost predicate FromCandidate(scores: seq<seq<real>>, boxes: seq<Corners>, thr: real, cls: nat, s: real, b: Corners)
  {
    exists o :: 0 <= o < |scores| && o < |boxes| && cls < |scores[o]| && thr <= scores[o][cls] && s == scores[o][cls] && b == boxes[o]
  }

  lemma TaggedPrefix(blocks: seq<Detections>, maxOut: nat, n: nat)
    requires Tagged(blocks, maxOut) && n <= |blocks|
    ensures Tagged(blocks[..n], maxOut)
  {
    assert forall c :: 0 <= c < n ==> blocks[..n][c] == blocks[c];
  }

  /** The concatenation keeps the three lists aligned and holds at most maxOut entries per block. */
  lemma {:induction false} ConcatLength(blocks: seq<Detections>, maxOut: nat)
    requires Tagged(blocks, maxOut)
    ensures var r := Concat(blocks); |r.scores| == |r.boxes| == |r.classes| <= |blocks| * maxOut
  {
    if blocks != [] {
      var n := |blocks| - 1;
      TaggedPrefix(blocks, maxOut, n);
      ConcatLength(blocks[..n], maxOut);
      MulSucc(n, maxOut);
    }
  }

  /** Entry i of the concatenation is entry i of the blocks before the last, or an entry of the last block. */
  lemma ConcatAt(blocks: seq<Detections>, maxOut: nat, i: nat)
    requires Tagged(blocks, maxOut) && blocks != []
    requires i < |Concat(blocks).classes|
    ensures var n := |blocks| - 1; var prev, b, r := Concat(blocks[..n]), blocks[n], Concat(blocks);
      && |r.scores| == |r.boxes| == |r.classes|
      && |prev.scores| == |prev.boxes| == |prev.classes|
      && (i < |prev.classes| ==> r.classes[i] == prev.classes[i] && r.scores[i] == prev.scores[i] && r.boxes[i] == prev.boxes[i])
      && (|prev.classes| <= i ==>
            (i - |prev.classes| < |b.classes| &&
             var j := i - |prev.classes|;
             r.classes[i] == b.classes[j] && r.scores[i] == b.scores[j] && r.boxes[i] == b.boxes[j]))
  {
    var n := |blocks| - 1;
    TaggedPrefix(blocks, maxOut, n);
    ConcatLength(blocks[..n], maxOut);
    ConcatLength(blocks, maxOut);
  }

  /** Every entry of the concatenation carries the index of a block. */
  lemma {:induction false} ConcatClassBound(blocks: seq<Detections>, maxOut: nat)
    requires Tagged(blocks, maxOut)
    ensures forall i :: 0 <= i < |Concat(blocks).classes| ==> Concat(blocks).classes[i] < |blocks|
  {
    if blocks != [] {
      var n := |blocks| - 1;
      TaggedPrefix(blocks, maxOut, n);
      ConcatClassBound(blocks[..n], maxOut);
      forall i | 0 <= i < |Concat(blocks).classes|
        ensures Concat(blocks).classes[i] < |blocks|
      {
        ConcatAt(blocks, maxOut, i);
      }
    }
  }

  /** The class tags of the concatenation never decrease. */
  lemma {:induction false} ConcatClassOrder(blocks: seq<Detections>, maxOut: nat)
    requires Tagged(blocks, maxOut)
    ensures var r := Concat(blocks);
      forall i, i' :: 0 <= i <= i' < |r.classes| ==> r.classes[i] <= r.classes[i']
  {
    if blocks != [] {
      var n := |blocks| - 1;
      TaggedPrefix(blocks, maxOut, n);
      ConcatClassOrder(blocks[..n], maxOut);
      ConcatClassBound(blocks[..n], maxOut);
      var r := Concat(blocks);
      forall i, i' | 0 <= i <= i' < |r.classes|
        ensures r.classes[i] <= r.classes[i']
      {
        ConcatAt(blocks, maxOut, i);
        ConcatAt(blocks, maxOut, i');
      }
    }
  }

  /** Tag c occurs in the concatenation exactly as often as block c has entries. */
  lemma {:induction false} ConcatCount(blocks: seq<Detections>, maxOut: nat, c: nat)
    requires Tagged(blocks, maxOut)
    ensures multiset(Concat(blocks).classes)[c] == if c < |blocks| then |blocks[c].classes| else 0
  {
    if blocks != [] {
      var n := |blocks| - 1;
      TaggedPrefix(blocks, maxOut, n);
      ConcatCount(blocks[..n], maxOut, c);
      CountOfAppend(Concat(blocks[..n]).classes, blocks[n].classes, n, c);
    }
  }

  lemma CountOfAppend(prev: seq<nat>, block: seq<nat>, v: nat, c: nat)
    requires forall i :: 0 <= i < |block| ==> block[i] == v
    ensures multiset(prev + block)[c] == multiset(prev)[c] + (if c == v then |block| else 0)
  {
    ConstantMultiset(block, v, c);
    assert multiset(prev + block) == multiset(prev) + multiset(block);
  }

  /** The concatenation of the first c blocks is a prefix of the concatenation of all of them. */
  lemma {:induction false} ConcatPrefix(blocks: seq<Detections>, c: nat)
    requires c <= |blocks|
    ensures var p, r := Concat(blocks[..c]), Concat(blocks);
      && |p.scores| <= |r.scores| && p.scores == r.scores[..|p.scores|]
      && |p.boxes| <= |r.boxes| && p.boxes == r.boxes[..|p.boxes|]
      && |p.classes| <= |r.classes| && p.classes == r.classes[..|p.classes|]
  {
    if c < |blocks| {
      var n := |blocks| - 1;
      ConcatPrefix(blocks[..n], c);
      assert blocks[..n][..c] == blocks[..c];
      var p, q, b := Concat(blocks[..c]), Concat(blocks[..n]), blocks[n];
      PrefixOfAppend(p.scores, q.scores, b.scores);
      PrefixOfAppend(p.boxes, q.boxes, b.boxes);
      PrefixOfAppend(p.classes, q.classes, b.classes);
    } else {
      assert blocks[..c] == blocks;
    }
  }

  lemma PrefixOfAppend<T>(p: seq<T>, q: seq<T>, b: seq<T>)
    requires |p| <= |q| && p == q[..|p|]
    ensures |p| <= |q + b| && p == (q + b)[..|p|]
  {
    assert (q + b)[..|p|] == q[..|p|];
  }

  /** When every block's entries come from candidates of the block's class, so does every entry of the concatenation. */
  lemma {:induction false} ConcatSound(blocks: seq<Detections>, maxOut: nat, scores: seq<seq<real>>, boxes: seq<Corners>, thr: real)
    requires Tagged(blocks, maxOut)
    requires forall c, i :: 0 <= c < |blocks| && 0 <= i < |blocks[c].classes| ==>
      i < |blocks[c].scores| && i < |blocks[c].boxes| &&
      FromCandidate(scores, boxes, thr, c, blocks[c].scores[i], blocks[c].boxes[i])
    ensures var r := Concat(blocks);
      forall i :: 0 <= i < |r.classes| ==>
        (i < |r.scores| && i < |r.boxes| && FromCandidate(scores, boxes, thr, r.classes[i], r.scores[i], r.boxes[i]))
  {
    ConcatLength(blocks, maxOut);
    if blocks != [] {
      var n := |blocks| - 1;
      TaggedPrefix(blocks, maxOut, n);
      assert forall c :: 0 <= c < n ==> blocks[..n][c] == blocks[c];
      ConcatSound(blocks[..n], maxOut, scores, boxes, thr);
      var r := Concat(blocks);
      forall i | 0 <= i < |r.classes|
        ensures i < |r.scores| && i < |r.boxes| && FromCandidate(scores, boxes, thr, r.classes[i], r.scores[i], r.boxes[i])
      {
        ConcatAt(blocks, maxOut, i);
      }
    }
  }

  /** Blocks without entries concatenate to no detections. */
  lemma {:induction false} ConcatEmpty(blocks: seq<Detections>)
    requires forall c :: 0 <= c < |blocks| ==> blocks[c] == Detections([], [], [])
    ensures Concat(blocks) == Detections([], [], [])
  {
    if blocks != [] {
      ConcatEmpty(blocks[..|blocks| - 1]);
    }
  }

  /** Every iteration of the class loop yields a block tagged with its own class. */
  lemma ClassBlocksTagged(scores: seq<seq<real>>, boxes: seq<Corners>, cfg: Config, nms: Suppressor, k: nat)
    requires Aligned(scores, boxes, cfg.nClass) && k <= cfg.nClass
    requires IsSuppressor(nms)
    ensures Tagged(ClassBlocks(scores, boxes, cfg, nms, k), cfg.maxBoxes)
  {
  }

  /** The detections of the first k classes are those of the first k - 1 classes followed by class k - 1's. */
  lemma DetectStep(scores: seq<seq<real>>, boxes: seq<Corners>, cfg: Config, nms: Suppressor, k: nat)
    requires Aligned(scores, boxes, cfg.nClass) && 0 < k <= cfg.nClass
    requires IsSuppressor(nms)
    ensures var r, prev, block := DetectUpTo(scores, boxes, cfg, nms, k), DetectUpTo(scores, boxes, cfg, nms, k - 1),
                                  ClassDetections(scores, boxes, cfg, nms, k - 1);
      r == Detections(prev.scores + block.scores, prev.boxes + block.boxes, prev.classes + block.classes)
  {
    assert ClassBlocks(scores, boxes, cfg, nms, k)[..k - 1] == ClassBlocks(scores, boxes, cfg, nms, k - 1);
  }

  /** Every entry of every class block comes from a candidate of the block's class. */
  lemma ClassBlocksSound(scores: seq<seq<real>>, boxes: seq<Corners>, cfg: Config, nms: Suppressor, k: nat)
    requires Aligned(scores, boxes, cfg.nClass) && k <= cfg.nClass
    requires IsSuppressor(nms)
    ensures var blocks := ClassBlocks(scores, boxes, cfg, nms, k);
      forall c, i :: 0 <= c < |blocks| && 0 <= i < |blocks[c].classes| ==>
        i < |blocks[c].scores| && i < |blocks[c].boxes| &&
        FromCandidate(scores, boxes, cfg.scoreThr, c, blocks[c].scores[i], blocks[c].boxes[i])
  {
    var blocks := ClassBlocks(scores, boxes, cfg, nms, k);
    forall c, i | 0 <= c < k && 0 <= i < |blocks[c].classes|
      ensures i < |blocks[c].scores| && i < |blocks[c].boxes| &&
        FromCandidate(scores, boxes, cfg.scoreThr, c, blocks[c].scores[i], blocks[c].boxes[i])
    {
      ClassCandidateAt(scores, boxes, cfg, nms, c, i);
    }
  }

  lemma ClassCandidateAt(scores: seq<seq<real>>, boxes: seq<Corners>, cfg: Config, nms: Suppressor, c: nat, i: nat)
    requires Aligned(scores, boxes, cfg.nClass) && c < cfg.nClass
    requires IsSuppressor(nms)
    requires i < |ClassDetections(scores, boxes, cfg, nms, c).classes|
    ensures var d := ClassDetections(scores, boxes, cfg, nms, c);
      i < |d.scores| && i < |d.boxes| && FromCandidate(scores, boxes, cfg.scoreThr, c, d.scores[i], d.boxes[i])
  {
    ClassDetectionsSound(scores, boxes, cfg, nms, c);
    var o := ClassOrigins(scores, boxes, cfg, nms, c);
    assert o[i] < |scores|;
  }

  /**
   * Every detection of the first k classes carries a class index below k
   * and is a box that reached the threshold for that class, with that class score.
   */
  lemma DetectSound(scores: seq<seq<real>>, boxes: seq<Corners>, cfg: Config, nms: Suppressor, k: nat)
    requires Aligned(scores, boxes, cfg.nClass) && k <= cfg.nClass
    requires IsSuppressor(nms)
    ensures var r := DetectUpTo(scores, boxes, cfg, nms, k);
      forall i :: 0 <= i < |r.classes| ==>
        r.classes[i] < k && FromCandidate(scores, boxes, cfg.scoreThr, r.classes[i], r.scores[i], r.boxes[i])
  {
    var blocks := ClassBlocks(scores, boxes, cfg, nms, k);
    ClassBlocksTagged(scores, boxes, cfg, nms, k);
    ClassBlocksSound(scores, boxes, cfg, nms, k);
    ConcatSound(blocks, cfg.maxBoxes, scores, boxes, cfg.scoreThr);
    ConcatClassBound(blocks, cfg.maxBoxes);
    assert DetectUpTo(scores, boxes, cfg, nms, k) == Concat(blocks);
  }

  /** Detections come grouped by class, in ascending class order. */
  lemma DetectClassOrder(scores: seq<seq<real>>, boxes: seq<Corners>, cfg: Config, nms: Suppressor, k: nat)
    requires Aligned(scores, boxes, cfg.nClass) && k <= cfg.nClass
    requires IsSuppressor(nms)
    ensures var r := DetectUpTo(scores, boxes, cfg, nms, k);
      forall i, i' :: 0 <= i <= i' < |r.classes| ==> r.classes[i] <= r.classes[i']
  {
    ClassBlocksTagged(scores, boxes, cfg, nms, k);
    ConcatClassOrder(ClassBlocks(scores, boxes, cfg, nms, k), cfg.maxBoxes);
    assert DetectUpTo(scores, boxes, cfg, nms, k) == Concat(ClassBlocks(scores, boxes, cfg, nms, k));
  }

  /** Each class c < k contributes exactly its own detections, at most max_boxes; classes from k on contribute none. */
  lemma DetectClassCount(scores: seq<seq<real>>, boxes: seq<Corners>, cfg: Config, nms: Suppressor, k: nat, c: nat)
    requires Aligned(scores, boxes, cfg.nClass) && k <= cfg.nClass
    requires IsSuppressor(nms)
    ensures c < k ==> multiset(DetectUpTo(scores, boxes, cfg, nms, k).classes)[c]
                      == |ClassDetections(scores, boxes, cfg, nms, c).classes| <= cfg.maxBoxes
    ensures k <= c ==> multiset(DetectUpTo(scores, boxes, cfg, nms, k).classes)[c] == 0
  {
    ClassBlocksTagged(scores, boxes, cfg, nms, k);
    ConcatCount(ClassBlocks(scores, boxes, cfg, nms, k), cfg.maxBoxes, c);
  }

  /** The detections of the first c classes are a prefix of those of the first k classes. */
  lemma DetectPrefix(scores: seq<seq<real>>, boxes: seq<Corners>, cfg: Config, nms: Suppressor, c: nat, k: nat)
    requires Aligned(scores, boxes, cfg.nClass) && c <= k <= cfg.nClass
    requires IsSuppressor(nms)
    ensures var p, r := DetectUpTo(scores, boxes, cfg, nms, c), DetectUpTo(scores, boxes, cfg, nms, k);
      && |p.classes| <= |r.classes|
      && p.scores == r.scores[..|p.scores|]
      && p.boxes == r.boxes[..|p.boxes|]
      && p.classes == r.classes[..|p.classes|]
  {
    var blocks := ClassBlocks(scores, boxes, cfg, nms, k);
    assert blocks[..c] == ClassBlocks(scores, boxes, cfg, nms, c);
    ConcatPrefix(blocks, c);
  }

  /** With every score below the threshold there are no detections at all. */
  lemma NoDetectionsBelowThreshold(scores: seq<seq<real>>, boxes: seq<Corners>, cfg: Config, nms: Suppressor, k: nat)
    requires Aligned(scores, boxes, cfg.nClass) && k <= cfg.nClass
    requires IsSuppressor(nms)
    requires forall j, c :: 0 <= j < |scores| && 0 <= c < |scores[j]| ==> scores[j][c] < cfg.scoreThr
    ensures DetectUpTo(scores, boxes, cfg, nms, k) == Detections([], [], [])
  {
    forall c | 0 <= c < k
      ensures ClassDetections(scores, boxes, cfg, nms, c) == Detections([], [], [])
    {
      EmptyClassContributesNothing(scores, boxes, cfg, nms, c);
    }
    ConcatEmpty(ClassBlocks(scores, boxes, cfg, nms, k));
  }

  /** A suppressor that keeps the first candidate whenever it may keep any. */
  function KeepFirst(boxes: seq<Corners>, scores: seq<real>, maxOut: nat, iou: real): (keep: seq<nat>)
    ensures |boxes| == |scores| ==> IsSelection(keep, |boxes|, maxOut)
  {
    if 0 < maxOut && 0 < |boxes| then [0] else []
  }

  /**
   * No suppression across classes: a single box whose scores reach the
   * threshold for both of two classes is reported twice, once under each class.
   */
  lemma MultiLabel(s0: real, s1: real, b: Corners, cfg: Config)
    requires cfg.nClass == 2 && cfg.scoreThr <= s0 && cfg.scoreThr <= s1 && 0 < cfg.maxBoxes
    ensures IsSuppressor(KeepFirst)
    ensures DetectUpTo([[s0, s1]], [b], cfg, KeepFirst, 2) == Detections([s0, s1], [b, b], [0, 1])
  {
    var scores, boxes := [[s0, s1]], [b];
    var blocks := ClassBlocks(scores, boxes, cfg, KeepFirst, 2);
    SingleBoxKept(scores, boxes, cfg, 0);
    SingleBoxKept(scores, boxes, cfg, 1);
    ConcatTwo(blocks, Detections([s0], [b], [0]), Detections([s1], [b], [1]));
    assert DetectUpTo(scores, boxes, cfg, KeepFirst, 2) == Concat(blocks);
  }

  lemma ConcatTwo(blocks: seq<Detections>, d0: Detections, d1: Detections)
    requires |blocks| == 2 && blocks[0] == d0 && blocks[1] == d1
    ensures Concat(blocks) == Detections(d0.scores + d1.scores, d0.boxes + d1.boxes, d0.classes + d1.classes)
  {
    assert blocks[..1][..0] == [];
    assert Concat(blocks[..1]) == d0;
  }

  /** A lone box whose class-c score reaches the threshold is the one class-c candidate, and KeepFirst keeps it. */
  lemma SingleBoxKept(scores: seq<seq<real>>, boxes: seq<Corners>, cfg: Config, c: nat)
    requires Aligned(scores, boxes, cfg.nClass) && c < cfg.nClass && |scores| == 1
    requires cfg.scoreThr <= scores[0][c] && 0 < cfg.maxBoxes
    ensures IsSuppressor(KeepFirst)
    ensures ClassDetections(scores, boxes, cfg, KeepFirst, c) == Detections([scores[0][c]], boxes, [c])
  {
    SingleCandidate(scores, boxes, cfg.scoreThr, c);
    assert ClassKeep(scores, boxes, cfg, KeepFirst, c) == [0];
  }

  lemma SingleCandidate(scores: seq<seq<real>>, boxes: seq<Corners>, thr: real, c: nat)
    requires |scores| == |boxes| == 1 && c < |scores[0]| && thr <= scores[0][c]
    ensures ClassIndices(scores, thr, c) == [0]
    ensures ClassCandidates(scores, boxes, thr, c) == ([scores[0][c]], boxes)
  {
    ClassCandidatesExact(scores, boxes, thr, c);
    var idx := ClassIndices(scores, thr, c);
    assert 0 in idx;
    assert idx == [0];
    var cand := ClassCandidates(scores, boxes, thr, c);
    assert cand.0 == [scores[0][c]];
    assert cand.1 == boxes;
  }

  /**
   * The guarantees of the whole extractor: aligned outputs, at most
   * n_class * max_boxes of them, every class index below n_class with a
   * score reaching the threshold, and classes in ascending order.
   */
  lemma DetectGuarantees(scores: seq<seq<real>>, bboxList: seq<Box>, cfg: Config, tools: BoxTools, nms: Suppressor)
    requires Aligned(scores, bboxList, cfg.nClass)
    requires KeepsCount(tools) && IsSuppressor(nms)
    ensures var d := Detect(scores, bboxList, cfg, tools, nms);
      && |d.scores| == |d.boxes| == |d.classes| <= cfg.nClass * cfg.maxBoxes
      && (forall i :: 0 <= i < |d.classes| ==> d.classes[i] < cfg.nClass && cfg.scoreThr <= d.scores[i])
      && (forall i, i' :: 0 <= i <= i' < |d.classes| ==> d.classes[i] <= d.classes[i'])
  {
    var boxes := PreparedBoxes(bboxList, cfg, tools);
    DetectSound(scores, boxes, cfg, nms, cfg.nClass);
    DetectClassOrder(scores, boxes, cfg, nms, cfg.nClass);
  }

  /**
   * get_detection for one image: the concatenation, in class order, of every
   * class's suppressed candidates. The three outputs are aligned, hold at
   * most n_class * max_boxes entries, every score reaches the threshold,
   * every class index is below n_class and the classes never decrease.
   */
  method GetDetection(bboxScore: seq<seq<real>>, bboxList: seq<Box>, cfg: Config, tools: BoxTools, nms: Suppressor)
    returns (detScore: seq<real>, detBox: seq<Corners>, detClass: seq<nat>)
    requires Aligned(bboxScore, bboxList, cfg.nClass)
    requires KeepsCount(tools) && IsSuppressor(nms)
    ensures Detections(detScore, detBox, detClass) == Detect(bboxScore, bboxList, cfg, tools, nms)
    ensures |detScore| == |detBox| == |detClass| <= cfg.nClass * cfg.maxBoxes
    ensures forall i :: 0 <= i < |detClass| ==> detClass[i] < cfg.nClass && cfg.scoreThr <= detScore[i]
    ensures forall i, i' :: 0 <= i <= i' < |detClass| ==> detClass[i] <= detClass[i']
  {
    var scoreBlocks: seq<seq<real>> := [];
    var boxBlocks: seq<seq<Corners>> := [];
    var classBlocks: seq<seq<nat>> := [];
    var boxes := bboxList;
    if cfg.rescaleShape.Some? && cfg.originalShape.Some? {
      boxes := tools.rescale(boxes, cfg.rescaleShape.value, cfg.originalShape.value);
    }
    var xyxy := tools.toCorners(boxes);
    assert xyxy == PreparedBoxes(bboxList, cfg, tools);
    var objMask := ScoreMask(bboxScore, cfg.scoreThr);
    for c := 0 to cfg.nClass
      invariant |scoreBlocks| == |boxBlocks| == |classBlocks| == c
      invariant Detections(Flatten(scoreBlocks), Flatten(boxBlocks), Flatten(classBlocks))
        == DetectUpTo(bboxScore, xyxy, cfg, nms, c)
    {
      var mask := Column(objMask, c);
      var cScore := BooleanMask(Column(bboxScore, c), mask);
      var cBox := BooleanMask(xyxy, mask);
      var keep := nms(cBox, cScore, cfg.maxBoxes, cfg.iouThr);
      assert keep == ClassKeep(bboxScore, xyxy, cfg, nms, c);
      cScore := Gather(cScore, keep);
      cBox := Gather(cBox, keep);
      assert Detections(cScore, cBox, seq(|cScore|, _ => c)) == ClassDetections(bboxScore, xyxy, cfg, nms, c);
      DetectStep(bboxScore, xyxy, cfg, nms, c + 1);
      FlattenAppend(scoreBlocks, cScore);
      FlattenAppend(boxBlocks, cBox);
      FlattenAppend(classBlocks, seq(|cScore|, _ => c));
      scoreBlocks := scoreBlocks + [cScore];
      boxBlocks := boxBlocks + [cBox];
      classBlocks := classBlocks + [seq(|cScore|, _ => c)];
    }
    detScore := Flatten(scoreBlocks);
    detBox := Flatten(boxBlocks);
    detClass := Flatten(classBlocks);
    DetectGuarantees(bboxScore, bboxList, cfg, tools, nms);
  }
}
