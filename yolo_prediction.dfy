/**
 * The prediction assembler of one detection scale, for one image: it splits
 * the raw head output per anchor, decodes each anchor's box against its grid
 * cell, forms objectness x class scores and lays every (anchor, cell) pair
 * out as one row of the output, anchor-major.
 *
 * The logistic sigmoid and the exponential are parameters of the model:
 * only the layout and the structure of the formulas are stated, not real
 * floating-point numerics.
 */
module YoloPrediction {
  import opened Tensors

  /** An anchor prior: width and height in input-image pixels. */
  datatype Anchor = Anchor(w: real, h: real)

  /** A decoded box in centre format (centre x, centre y, width, height), in input-image pixels. */
  datatype Box = Box(cx: real, cy: real, w: real, h: real)

  /** One scale's raw head output for one image: an h x w grid of cells holding c channels each. */
  datatype FeatureMap = FeatureMap(h: nat, w: nat, c: nat, cells: Grid<seq<real>>)

  predicate WellShaped(f: FeatureMap)
  {
    IsGrid(f.cells, f.h, f.w) &&
    forall y, x :: 0 <= y < f.h && 0 <= x < f.w ==> |f.cells[y][x]| == f.c
  }

  /**
   * The two ways the channel split fails: the channels do not split into one
   * equal chunk per anchor, or a chunk is not 4 + 1 + nClass channels wide.
   */
  datatype PredictionError = UnevenAnchorSplit | DetectionSizeMismatch

  datatype Result<T> = Ok(value: T) | Err(error: PredictionError)

  /** Box values, objectness logit and class logits of one anchor, per cell. */
  datatype DetectionParts = DetectionParts(box: Grid<seq<real>>, objectness: Grid<real>, classes: Grid<seq<real>>)

  /** The assembled output of one scale: one score row and one box per (anchor, cell). */
  datatype Prediction = Prediction(scores: seq<seq<real>>, boxes: seq<Box>)

  /**
   * The box codec: centre = (sigmoid(t_xy) + cell) * scale, size =
   * anchor * exp(t_wh). The size is neither scaled nor clamped.
   */
  function Decode(t: seq<real>, cell: (int, int), anchor: Anchor, scale: real,
                  sigmoid: real -> real, exp: real -> real): Box
    requires 4 <= |t|
  {
    Box((sigmoid(t[0]) + cell.0 as real) * scale,
        (sigmoid(t[1]) + cell.1 as real) * scale,
        anchor.w * exp(t[2]),
        anchor.h * exp(t[3]))
  }

  /**
   * The decoded centre moves by exactly one stride per grid cell, while the
   * decoded size depends on neither the cell nor the stride.
   */
  lemma DecodeStride(t: seq<real>, x: int, y: int, anchor: Anchor, scale: real, scale': real,
                     sigmoid: real -> real, exp: real -> real)
    requires 4 <= |t|
    ensures Decode(t, (x + 1, y), anchor, scale, sigmoid, exp).cx == Decode(t, (x, y), anchor, scale, sigmoid, exp).cx + scale
    ensures Decode(t, (x, y + 1), anchor, scale, sigmoid, exp).cy == Decode(t, (x, y), anchor, scale, sigmoid, exp).cy + scale
    ensures Decode(t, (x + 1, y + 1), anchor, scale', sigmoid, exp).w == Decode(t, (x, y), anchor, scale, sigmoid, exp).w
    ensures Decode(t, (x + 1, y + 1), anchor, scale', sigmoid, exp).h == Decode(t, (x, y), anchor, scale, sigmoid, exp).h
  {
    var s0, s1 := sigmoid(t[0]), sigmoid(t[1]);
    assert (s0 + (x + 1) as real) * scale == (s0 + x as real) * scale + scale;
    assert (s1 + (y + 1) as real) * scale == (s1 + y as real) * scale + scale;
  }

  /**
   * With a sigmoid valued strictly between 0 and 1 and a positive stride,
   * the decoded centre of cell (x, y) lies strictly inside that cell's
   * stride-sized square: first along x, then along y.
   */
  lemma DecodeCentreInCellX(t: seq<real>, x: int, y: int, anchor: Anchor, scale: real,
                            sigmoid: real -> real, exp: real -> real)
    requires 4 <= |t| && 0.0 < scale && 0.0 < sigmoid(t[0]) < 1.0
    ensures x as real * scale < Decode(t, (x, y), anchor, scale, sigmoid, exp).cx
    ensures Decode(t, (x, y), anchor, scale, sigmoid, exp).cx < x as real * scale + scale
  {
    OffsetInside(sigmoid(t[0]), x as real, scale, Decode(t, (x, y), anchor, scale, sigmoid, exp).cx);
  }

  lemma DecodeCentreInCellY(t: seq<real>, x: int, y: int, anchor: Anchor, scale: real,
                            sigmoid: real -> real, exp: real -> real)
    requires 4 <= |t| && 0.0 < scale && 0.0 < sigmoid(t[1]) < 1.0
    ensures y as real * scale < Decode(t, (x, y), anchor, scale, sigmoid, exp).cy
    ensures Decode(t, (x, y), anchor, scale, sigmoid, exp).cy < y as real * scale + scale
  {
    OffsetInside(sigmoid(t[1]), y as real, scale, Decode(t, (x, y), anchor, scale, sigmoid, exp).cy);
  }

  /** An offset strictly inside (0, 1), scaled by a positive stride, stays inside the stride. */
  lemma OffsetInside(s: real, c: real, scale: real, v: real)
    requires 0.0 < s < 1.0 && 0.0 < scale && v == (s + c) * scale
    ensures c * scale < v && v < c * scale + scale
  {
    var lo, off, rest := c * scale, s * scale, (1.0 - s) * scale;
    assert v == lo + off;
    assert off + rest == scale;
    PositiveProduct(s, scale);
    PositiveProduct(1.0 - s, scale);
    assert 0.0 < off && 0.0 < rest;
    assert v < lo + scale;
  }

  lemma PositiveProduct(a: real, b: real)
    requires 0.0 < a && 0.0 < b
    ensures 0.0 < a * b
  {
  }

  /**
   * The score row of one (anchor, cell): sigmoid(objectness) * sigmoid(class
   * logit c) for every class c, each class on its own (no softmax).
   */
  function ScoreRow(objectness: real, classLogits: seq<real>, sigmoid: real -> real): (r: seq<real>)
    ensures |r| == |classLogits|
  {
    seq(|classLogits|, c requires 0 <= c < |classLogits| => sigmoid(objectness) * sigmoid(classLogits[c]))
  }

  /**
   * Output row of anchor a at cell (y, x) when nAnchors anchors over an
   * h x w grid are stacked anchor-major and each grid is flattened row-major.
   */
  function Row(nAnchors: nat, a: nat, y: nat, x: nat, h: nat, w: nat): (k: nat)
    requires a < nAnchors && y < h && x < w
    ensures k < nAnchors * (h * w)
  {
    var hw := h * w;
    CellBound(y, x, h, w);
    MulLeq(a + 1, nAnchors, hw);
    assert (a + 1) * hw == a * hw + hw;
    a * hw + (y * w + x)
  }

  /**
   * The row layout is one-to-one: row k holds anchor k / (h * w), and within
   * that anchor's grid the cell at row-major offset k % (h * w), i.e. grid
   * row (k % (h * w)) / w and column k % (h * w) % w.
   */
  lemma RowInverse(nAnchors: nat, a: nat, y: nat, x: nat, h: nat, w: nat)
    requires a < nAnchors && y < h && x < w
    ensures Row(nAnchors, a, y, x, h, w) / (h * w) == a
    ensures Row(nAnchors, a, y, x, h, w) % (h * w) == y * w + x
    ensures (y * w + x) / w == y && (y * w + x) % w == x
  {
    var cell, hw := y * w + x, h * w;
    CellBound(y, x, h, w);
    DivModUnique(a * hw + cell, hw, a, cell);
    DivModUnique(cell, w, y, x);
  }

  /**
   * xy_grid_flatten: the (x, y) grid coordinate of every cell, flattened in
   * the same row-major order as the box tensor, so offset k is cell
   * (k % w, k / w).
   */
  function GridXY(h: nat, w: nat): (r: seq<(int, int)>)
    ensures |r| == h * w
    ensures forall k :: 0 <= k < h * w ==> r[k] == (k % w, k / w)
  {
    var (yGrid, xGrid) := MeshGridIJ(h, w);
    FlattenLength(xGrid, w);
    FlattenLength(yGrid, w);
    var xs, ys := Flatten(xGrid), Flatten(yGrid);
    MeshGridFlat(h, w);
    seq(h * w, k requires 0 <= k < h * w => (xs[k], ys[k]))
  }

  /** Flattened row-major, the meshgrid's column grid holds k % w and its row grid k / w at offset k. */
  lemma MeshGridFlat(h: nat, w: nat)
    ensures |Flatten(MeshGridIJ(h, w).1)| == h * w && |Flatten(MeshGridIJ(h, w).0)| == h * w
    ensures forall k :: 0 <= k < h * w ==>
      Flatten(MeshGridIJ(h, w).1)[k] == k % w && Flatten(MeshGridIJ(h, w).0)[k] == k / w
  {
    var (yGrid, xGrid) := MeshGridIJ(h, w);
    FlattenLength(xGrid, w);
    FlattenLength(yGrid, w);
    forall k | 0 <= k < h * w
      ensures Flatten(xGrid)[k] == k % w && Flatten(yGrid)[k] == k / w
    {
      MeshGridFlatAt(h, w, k);
    }
  }

  lemma MeshGridFlatAt(h: nat, w: nat, k: nat)
    requires k < h * w
    ensures k < |Flatten(MeshGridIJ(h, w).1)| && k < |Flatten(MeshGridIJ(h, w).0)|
    ensures Flatten(MeshGridIJ(h, w).1)[k] == k % w && Flatten(MeshGridIJ(h, w).0)[k] == k / w
  {
    var (yGrid, xGrid) := MeshGridIJ(h, w);
    FlattenLength(xGrid, w);
    FlattenLength(yGrid, w);
    FlattenIndex(xGrid, w, k);
    FlattenIndex(yGrid, w, k);
  }

  /** The grid entry for cell (y, x) sits at offset y * w + x and holds (x, y). */
  lemma GridXYAt(h: nat, w: nat, y: nat, x: nat)
    requires y < h && x < w
    ensures y * w + x < h * w && GridXY(h, w)[y * w + x] == (x, y)
  {
    CellBound(y, x, h, w);
    var (yGrid, xGrid) := MeshGridIJ(h, w);
    FlattenAt(xGrid, w, y, x);
    FlattenAt(yGrid, w, y, x);
  }

  /**
   * Splits the channels of every cell into one equal chunk per anchor; fails
   * when there are no anchors or the channel count is not a multiple of
   * their number.
   */
  function SplitAnchors(f: FeatureMap, nAnchors: nat): (r: Result<seq<Grid<seq<real>>>>)
    requires WellShaped(f)
    ensures r.Ok? <==> 0 < nAnchors && f.c % nAnchors == 0
    ensures r.Err? ==> r.error == UnevenAnchorSplit
    ensures r.Ok? ==>
      && |r.value| == nAnchors && f.c == nAnchors * (f.c / nAnchors)
      && (forall a :: 0 <= a < nAnchors ==> IsGrid(r.value[a], f.h, f.w))
      && (forall a, y, x :: 0 <= a < nAnchors && 0 <= y < f.h && 0 <= x < f.w ==>
            r.value[a][y][x] == Chunk(f.cells[y][x], nAnchors, f.c / nAnchors, a))
  {
    if nAnchors == 0 || f.c % nAnchors != 0 then Err(UnevenAnchorSplit)
    else
      var size := f.c / nAnchors;
      DivMod(f.c, nAnchors);
      Ok(seq(nAnchors, a requires 0 <= a < nAnchors =>
        seq(f.h, y requires 0 <= y < f.h =>
          seq(f.w, x requires 0 <= x < f.w => Chunk(f.cells[y][x], nAnchors, size, a)))))
  }

  /**
   * Splits one anchor's chunk of every cell into 4 box values, 1 objectness
   * logit and nClass class logits; fails when the chunk is not exactly that wide.
   */
  function SplitDetection(chunk: Grid<seq<real>>, h: nat, w: nat, width: nat, nClass: nat): (r: Result<DetectionParts>)
    requires IsGrid(chunk, h, w)
    requires forall y, x :: 0 <= y < h && 0 <= x < w ==> |chunk[y][x]| == width
    ensures r.Ok? <==> width == 4 + 1 + nClass
    ensures r.Err? ==> r.error == DetectionSizeMismatch
    ensures r.Ok? ==> IsGrid(r.value.box, h, w) && IsGrid(r.value.objectness, h, w) && IsGrid(r.value.classes, h, w)
    ensures r.Ok? ==> forall y, x :: 0 <= y < h && 0 <= x < w ==>
      r.value.box[y][x] == chunk[y][x][..4] &&
      r.value.objectness[y][x] == chunk[y][x][4] &&
      r.value.classes[y][x] == chunk[y][x][5..]
  {
    if width != 4 + 1 + nClass then Err(DetectionSizeMismatch)
    else
      Ok(DetectionParts(
        seq(h, y requires 0 <= y < h => seq(w, x requires 0 <= x < w => chunk[y][x][..4])),
        seq(h, y requires 0 <= y < h => seq(w, x requires 0 <= x < w => chunk[y][x][4])),
        seq(h, y requires 0 <= y < h => seq(w, x requires 0 <= x < w => chunk[y][x][5..]))))
  }

  /**
   * Splitting by anchor loses and repeats nothing: whenever the split
   * succeeds, the anchors' chunks of a cell, put back in anchor order, are
   * exactly that cell's channels.
   */
  lemma SplitAnchorsRoundTrip(f: FeatureMap, nAnchors: nat, y: nat, x: nat)
    requires WellShaped(f) && y < f.h && x < f.w
    ensures var r := SplitAnchors(f, nAnchors);
      r.Ok? ==> Flatten(seq(nAnchors, a requires 0 <= a < nAnchors => r.value[a][y][x])) == f.cells[y][x]
  {
    var r := SplitAnchors(f, nAnchors);
    if r.Ok? {
      var size := f.c / nAnchors;
      ChunksFlatten(f.cells[y][x], nAnchors, size);
      assert seq(nAnchors, a requires 0 <= a < nAnchors => r.value[a][y][x])
        == seq(nAnchors, a requires 0 <= a < nAnchors => Chunk(f.cells[y][x], nAnchors, size, a));
    }
  }

  /**
   * Splitting a chunk loses and repeats nothing: whenever the split
   * succeeds, box, objectness and class logits of a cell, put back in that
   * order, are exactly the cell's chunk.
   */
  lemma SplitDetectionRoundTrip(chunk: Grid<seq<real>>, h: nat, w: nat, width: nat, nClass: nat, y: nat, x: nat)
    requires IsGrid(chunk, h, w)
    requires forall y, x :: 0 <= y < h && 0 <= x < w ==> |chunk[y][x]| == width
    requires y < h && x < w
    ensures var r := SplitDetection(chunk, h, w, width, nClass);
      r.Ok? ==> r.value.box[y][x] + [r.value.objectness[y][x]] + r.value.classes[y][x] == chunk[y][x]
  {
    var r := SplitDetection(chunk, h, w, width, nClass);
    if r.Ok? {
      assert chunk[y][x] == chunk[y][x][..4] + [chunk[y][x][4]] + chunk[y][x][5..];
    }
  }

  /**
   * The decode step of correct_yolo_boxes on the flattened boxes: sigmoid of
   * the xy offsets plus the grid coordinate at the same offset, times the
   * scale; anchor times exp of the wh values; concatenated back to one box.
   */
  function DecodeFlat(flat: seq<seq<real>>, xyGrid: seq<(int, int)>, anchor: Anchor, scale: real,
                      sigmoid: real -> real, exp: real -> real): (r: seq<Box>)
    requires |flat| == |xyGrid|
    requires forall k :: 0 <= k < |flat| ==> |flat[k]| == 4
    ensures |r| == |flat|
    ensures forall k :: 0 <= k < |flat| ==> r[k] == Decode(flat[k], xyGrid[k], anchor, scale, sigmoid, exp)
  {
    var n := |flat|;
    var xy := seq(n, k requires 0 <= k < n =>
      (sigmoid(flat[k][0]) + xyGrid[k].0 as real, sigmoid(flat[k][1]) + xyGrid[k].1 as real));
    var wh := seq(n, k requires 0 <= k < n =>
      (anchor.w * exp(flat[k][2]), anchor.h * exp(flat[k][3])));
    seq(n, k requires 0 <= k < n => Box(xy[k].0 * scale, xy[k].1 * scale, wh[k].0, wh[k].1))
  }

  /** Cell (y, x) of `r` is the box of cell (y, x) of `bbox`, decoded with grid entry y * w + x. */
  ghost predicate CellDecoded(r: Grid<Box>, bbox: Grid<seq<real>>, xyGrid: seq<(int, int)>, w: nat, y: int, x: int,
                              anchor: Anchor, scale: real, sigmoid: real -> real, exp: real -> real)
  {
    && 0 <= y < |r| && 0 <= y < |bbox| && 0 <= x < |r[y]| && 0 <= x < |bbox[y]|
    && 4 <= |bbox[y][x]| && y * w + x < |xyGrid|
    && r[y][x] == Decode(bbox[y][x], xyGrid[y * w + x], anchor, scale, sigmoid, exp)
  }

  /** Every cell of the [h, w] grid `r` is decoded from the same cell of `bbox`. */
  ghost predicate DecodedAt(r: Grid<Box>, bbox: Grid<seq<real>>, xyGrid: seq<(int, int)>, h: nat, w: nat,
                            anchor: Anchor, scale: real, sigmoid: real -> real, exp: real -> real)
  {
    forall y, x :: 0 <= y < h && 0 <= x < w ==> CellDecoded(r, bbox, xyGrid, w, y, x, anchor, scale, sigmoid, exp)
  }

  /**
   * correct_yolo_boxes: flattens the [h, w] box grid, decodes every box
   * against the grid coordinate at the same offset and reshapes back, so
   * cell (y, x) is decoded with grid entry y * w + x.
   */
  function CorrectYoloBoxes(xyGrid: seq<(int, int)>, bbox: Grid<seq<real>>, h: nat, w: nat,
                            anchor: Anchor, scale: real, sigmoid: real -> real, exp: real -> real): (r: Grid<Box>)
    requires |xyGrid| == h * w && IsGrid(bbox, h, w)
    requires forall y, x :: 0 <= y < h && 0 <= x < w ==> |bbox[y][x]| == 4
    ensures IsGrid(r, h, w)
    ensures DecodedAt(r, bbox, xyGrid, h, w, anchor, scale, sigmoid, exp)
  {
    FlatBoxes(bbox, h, w);
    var r := Unflatten(DecodeFlat(Flatten(bbox), xyGrid, anchor, scale, sigmoid, exp), h, w);
    CorrectYoloBoxesDecoded(xyGrid, bbox, h, w, anchor, scale, sigmoid, exp);
    r
  }

  lemma FlatBoxes(bbox: Grid<seq<real>>, h: nat, w: nat)
    requires IsGrid(bbox, h, w)
    requires forall y, x :: 0 <= y < h && 0 <= x < w ==> |bbox[y][x]| == 4
    ensures |Flatten(bbox)| == h * w
    ensures forall k :: 0 <= k < h * w ==> |Flatten(bbox)[k]| == 4
  {
    FlattenLength(bbox, w);
    forall k | 0 <= k < h * w
      ensures |Flatten(bbox)[k]| == 4
    {
      FlattenIndex(bbox, w, k);
    }
  }

  lemma CorrectYoloBoxesDecoded(xyGrid: seq<(int, int)>, bbox: Grid<seq<real>>, h: nat, w: nat,
                                anchor: Anchor, scale: real, sigmoid: real -> real, exp: real -> real)
    requires |xyGrid| == h * w && IsGrid(bbox, h, w)
    requires forall y, x :: 0 <= y < h && 0 <= x < w ==> |bbox[y][x]| == 4
    ensures |Flatten(bbox)| == h * w && forall k :: 0 <= k < h * w ==> |Flatten(bbox)[k]| == 4
    ensures DecodedAt(Unflatten(DecodeFlat(Flatten(bbox), xyGrid, anchor, scale, sigmoid, exp), h, w),
                      bbox, xyGrid, h, w, anchor, scale, sigmoid, exp)
  {
    FlatBoxes(bbox, h, w);
    var r := Unflatten(DecodeFlat(Flatten(bbox), xyGrid, anchor, scale, sigmoid, exp), h, w);
    DecodedAllCells(r, xyGrid, bbox, h, w, anchor, scale, sigmoid, exp);
  }

  lemma DecodedAllCells(r: Grid<Box>, xyGrid: seq<(int, int)>, bbox: Grid<seq<real>>, h: nat, w: nat,
                        anchor: Anchor, scale: real, sigmoid: real -> real, exp: real -> real)
    requires |xyGrid| == h * w && IsGrid(bbox, h, w)
    requires forall y, x :: 0 <= y < h && 0 <= x < w ==> |bbox[y][x]| == 4
    requires |Flatten(bbox)| == h * w && forall k :: 0 <= k < h * w ==> |Flatten(bbox)[k]| == 4
    requires r == Unflatten(DecodeFlat(Flatten(bbox), xyGrid, anchor, scale, sigmoid, exp), h, w)
    ensures IsGrid(r, h, w)
    ensures DecodedAt(r, bbox, xyGrid, h, w, anchor, scale, sigmoid, exp)
  {
    forall y, x | 0 <= y < h && 0 <= x < w
      ensures CellDecoded(r, bbox, xyGrid, w, y, x, anchor, scale, sigmoid, exp)
    {
      DecodedCellOf(r, xyGrid, bbox, h, w, anchor, scale, sigmoid, exp, y, x);
    }
  }

  lemma DecodedCellOf(r: Grid<Box>, xyGrid: seq<(int, int)>, bbox: Grid<seq<real>>, h: nat, w: nat,
                      anchor: Anchor, scale: real, sigmoid: real -> real, exp: real -> real, y: nat, x: nat)
    requires |xyGrid| == h * w && IsGrid(bbox, h, w)
    requires forall y, x :: 0 <= y < h && 0 <= x < w ==> |bbox[y][x]| == 4
    requires |Flatten(bbox)| == h * w && forall k :: 0 <= k < h * w ==> |Flatten(bbox)[k]| == 4
    requires r == Unflatten(DecodeFlat(Flatten(bbox), xyGrid, anchor, scale, sigmoid, exp), h, w)
    requires y < h && x < w
    ensures CellDecoded(r, bbox, xyGrid, w, y, x, anchor, scale, sigmoid, exp)
  {
    var flat := Flatten(bbox);
    var decoded := DecodeFlat(flat, xyGrid, anchor, scale, sigmoid, exp);
    var k := y * w + x;
    FlattenAt(bbox, w, y, x);
    assert flat[k] == bbox[y][x];
    assert decoded[k] == Decode(flat[k], xyGrid[k], anchor, scale, sigmoid, exp);
    UnflattenAt(decoded, h, w, y, x);
  }

  /** objectness * classes after the sigmoid, broadcast over the class axis. */
  function ObjectnessTimesClasses(objectness: Grid<real>, classes: Grid<seq<real>>, h: nat, w: nat,
                                  nClass: nat, sigmoid: real -> real): Grid<seq<real>>
    requires IsGrid(objectness, h, w) && IsGrid(classes, h, w)
    requires forall y, x :: 0 <= y < h && 0 <= x < w ==> |classes[y][x]| == nClass
  {
    seq(h, y requires 0 <= y < h => seq(w, x requires 0 <= x < w =>
      ScoreRow(objectness[y][x], classes[y][x], sigmoid)))
  }

  /**
   * Stacks the per-anchor grids on a new leading axis and reshapes to one
   * row per (anchor, cell): anchor-major, then row-major over the grid.
   */
  function StackAnchors<T>(perAnchor: seq<Grid<T>>): seq<T>
  {
    Flatten(FlattenEach(perAnchor))
  }

  /** Each anchor's grid flattened row-major: shape [nAnchors, h * w]. */
  function FlattenEach<T>(perAnchor: seq<Grid<T>>): (r: seq<seq<T>>)
    ensures |r| == |perAnchor|
  {
    seq(|perAnchor|, a requires 0 <= a < |perAnchor| => Flatten(perAnchor[a]))
  }

  /** Anchor a at cell (y, x) ends up at row a * h * w + y * w + x of the stacked output. */
  lemma StackAnchorsAt<T>(perAnchor: seq<Grid<T>>, h: nat, w: nat, a: nat, y: nat, x: nat)
    requires forall b :: 0 <= b < |perAnchor| ==> IsGrid(perAnchor[b], h, w)
    requires a < |perAnchor| && y < h && x < w
    ensures |StackAnchors(perAnchor)| == |perAnchor| * (h * w)
    ensures |perAnchor[a]| == h && |perAnchor[a][y]| == w
    ensures StackAnchors(perAnchor)[Row(|perAnchor|, a, y, x, h, w)] == perAnchor[a][y][x]
  {
    var hw := h * w;
    CellBound(y, x, h, w);
    var cell := y * w + x;
    FlattenEachAt(perAnchor, h, w, a, y, x);
    StackAnchorsAtOffset(perAnchor, hw, a, cell);
  }

  /** Anchor a's flattened grid holds cell (y, x) at offset y * w + x. */
  lemma FlattenEachAt<T>(perAnchor: seq<Grid<T>>, h: nat, w: nat, a: nat, y: nat, x: nat)
    requires forall b :: 0 <= b < |perAnchor| ==> IsGrid(perAnchor[b], h, w)
    requires a < |perAnchor| && y < h && x < w
    ensures forall b :: 0 <= b < |perAnchor| ==> |FlattenEach(perAnchor)[b]| == h * w
    ensures |perAnchor[a]| == h && |perAnchor[a][y]| == w
    ensures y * w + x < h * w && FlattenEach(perAnchor)[a][y * w + x] == perAnchor[a][y][x]
  {
    forall b | 0 <= b < |perAnchor|
      ensures |FlattenEach(perAnchor)[b]| == h * w
    {
      FlattenLength(perAnchor[b], w);
    }
    CellBound(y, x, h, w);
    FlattenAt(perAnchor[a], w, y, x);
  }

  /** Offset c of anchor a's flattened grid lands at row a * hw + c of the stacked output. */
  lemma StackAnchorsAtOffset<T>(perAnchor: seq<Grid<T>>, hw: nat, a: nat, c: nat)
    requires forall b :: 0 <= b < |perAnchor| ==> |FlattenEach(perAnchor)[b]| == hw
    requires a < |perAnchor| && c < hw
    ensures |StackAnchors(perAnchor)| == |perAnchor| * hw
    ensures a * hw + c < |StackAnchors(perAnchor)| && StackAnchors(perAnchor)[a * hw + c] == FlattenEach(perAnchor)[a][c]
  {
    var inner := FlattenEach(perAnchor);
    CellBound(a, c, |perAnchor|, hw);
    FlattenLength(inner, hw);
    FlattenAt(inner, hw, a, c);
  }

  /** The stacked output has one row per (anchor, cell). */
  lemma StackAnchorsLength<T>(perAnchor: seq<Grid<T>>, h: nat, w: nat)
    requires forall b :: 0 <= b < |perAnchor| ==> IsGrid(perAnchor[b], h, w)
    ensures |StackAnchors(perAnchor)| == |perAnchor| * (h * w)
  {
    var inner := FlattenEach(perAnchor);
    forall b | 0 <= b < |perAnchor|
      ensures |inner[b]| == h * w
    {
      FlattenLength(perAnchor[b], w);
    }
    FlattenLength(inner, h * w);
  }

  /** Every row of the stacked output is the row of exactly one (anchor, cell) pair. */
  lemma StackAnchorsRowOf<T>(perAnchor: seq<Grid<T>>, h: nat, w: nat, k: nat) returns (a: nat, y: nat, x: nat)
    requires forall b :: 0 <= b < |perAnchor| ==> IsGrid(perAnchor[b], h, w)
    requires k < |perAnchor| * (h * w)
    ensures a < |perAnchor| && y < h && x < w
    ensures k == Row(|perAnchor|, a, y, x, h, w)
    ensures |StackAnchors(perAnchor)| == |perAnchor| * (h * w)
    ensures |perAnchor[a]| == h && |perAnchor[a][y]| == w
    ensures StackAnchors(perAnchor)[k] == perAnchor[a][y][x]
  {
    var hw := h * w;
    DivBound(k, hw, |perAnchor|);
    DivMod(k, hw);
    a := k / hw;
    var r := k % hw;
    DivBound(r, w, h);
    DivMod(r, w);
    y, x := r / w, r % w;
    StackAnchorsAt(perAnchor, h, w, a, y, x);
  }

  /** Splitting c channels evenly into n chunks of width `width` succeeds exactly when c == n * width. */
  lemma ChannelCount(c: nat, n: nat, width: nat)
    requires 0 < n
    ensures (c % n == 0 && c / n == width) <==> c == n * width
  {
    DivMod(c, n);
    if c == n * width {
      DivModUnique(c, n, width, 0);
    }
  }

  /** Reference layout of anchor a's decoded boxes: cell (y, x) decodes that anchor's channel block of the cell. */
  function AnchorBoxGrid(f: FeatureMap, nAnchors: nat, nClass: nat, a: nat, anchor: Anchor, scale: real,
                         sigmoid: real -> real, exp: real -> real): (g: Grid<Box>)
    requires WellShaped(f) && a < nAnchors && f.c == nAnchors * (5 + nClass)
    ensures IsGrid(g, f.h, f.w)
  {
    seq(f.h, y requires 0 <= y < f.h => seq(f.w, x requires 0 <= x < f.w =>
      Decode(Chunk(f.cells[y][x], nAnchors, 5 + nClass, a)[..4], (x, y), anchor, scale, sigmoid, exp)))
  }

  /** Reference layout of anchor a's score rows, by channel offset. */
  function AnchorScoreGrid(f: FeatureMap, nAnchors: nat, nClass: nat, a: nat, sigmoid: real -> real): (g: Grid<seq<real>>)
    requires WellShaped(f) && a < nAnchors && f.c == nAnchors * (5 + nClass)
    ensures IsGrid(g, f.h, f.w)
  {
    seq(f.h, y requires 0 <= y < f.h => seq(f.w, x requires 0 <= x < f.w =>
      var raw := Chunk(f.cells[y][x], nAnchors, 5 + nClass, a);
      ScoreRow(raw[4], raw[5..], sigmoid)))
  }

  /**
   * One iteration of the anchor loop: splitting anchor a's chunk, decoding
   * its boxes and forming its scores gives exactly the reference grids.
   */
  lemma AnchorStep(f: FeatureMap, nAnchors: nat, nClass: nat, a: nat, chunk: Grid<seq<real>>, parts: DetectionParts,
                   anchor: Anchor, scale: real, sigmoid: real -> real, exp: real -> real)
    requires WellShaped(f) && a < nAnchors && f.c == nAnchors * (5 + nClass)
    requires IsGrid(chunk, f.h, f.w)
    requires forall y, x :: 0 <= y < f.h && 0 <= x < f.w ==> |chunk[y][x]| == 5 + nClass
    requires forall y, x :: 0 <= y < f.h && 0 <= x < f.w ==> chunk[y][x] == Chunk(f.cells[y][x], nAnchors, 5 + nClass, a)
    requires SplitDetection(chunk, f.h, f.w, 5 + nClass, nClass) == Ok(parts)
    ensures IsGrid(parts.box, f.h, f.w) && IsGrid(parts.objectness, f.h, f.w) && IsGrid(parts.classes, f.h, f.w)
    ensures forall y, x :: 0 <= y < f.h && 0 <= x < f.w ==> |parts.box[y][x]| == 4 && |parts.classes[y][x]| == nClass
    ensures CorrectYoloBoxes(GridXY(f.h, f.w), parts.box, f.h, f.w, anchor, scale, sigmoid, exp)
      == AnchorBoxGrid(f, nAnchors, nClass, a, anchor, scale, sigmoid, exp)
    ensures ObjectnessTimesClasses(parts.objectness, parts.classes, f.h, f.w, nClass, sigmoid)
      == AnchorScoreGrid(f, nAnchors, nClass, a, sigmoid)
  {
    AnchorStepBoxes(f, nAnchors, nClass, a, chunk, parts, anchor, scale, sigmoid, exp);
    AnchorStepScores(f, nAnchors, nClass, a, chunk, parts, sigmoid);
  }

  lemma AnchorStepBoxes(f: FeatureMap, nAnchors: nat, nClass: nat, a: nat, chunk: Grid<seq<real>>, parts: DetectionParts,
                        anchor: Anchor, scale: real, sigmoid: real -> real, exp: real -> real)
    requires WellShaped(f) && a < nAnchors && f.c == nAnchors * (5 + nClass)
    requires IsGrid(chunk, f.h, f.w)
    requires forall y, x :: 0 <= y < f.h && 0 <= x < f.w ==> |chunk[y][x]| == 5 + nClass
    requires forall y, x :: 0 <= y < f.h && 0 <= x < f.w ==> chunk[y][x] == Chunk(f.cells[y][x], nAnchors, 5 + nClass, a)
    requires SplitDetection(chunk, f.h, f.w, 5 + nClass, nClass) == Ok(parts)
    ensures IsGrid(parts.box, f.h, f.w)
    ensures forall y, x :: 0 <= y < f.h && 0 <= x < f.w ==> |parts.box[y][x]| == 4
    ensures CorrectYoloBoxes(GridXY(f.h, f.w), parts.box, f.h, f.w, anchor, scale, sigmoid, exp)
      == AnchorBoxGrid(f, nAnchors, nClass, a, anchor, scale, sigmoid, exp)
  {
    var h, w := f.h, f.w;
    var boxes := CorrectYoloBoxes(GridXY(h, w), parts.box, h, w, anchor, scale, sigmoid, exp);
    var expected := AnchorBoxGrid(f, nAnchors, nClass, a, anchor, scale, sigmoid, exp);
    forall y | 0 <= y < h
      ensures boxes[y] == expected[y]
    {
      forall x | 0 <= x < w
        ensures boxes[y][x] == expected[y][x]
      {
        GridXYAt(h, w, y, x);
        DecodedCell(boxes, parts.box, GridXY(h, w), h, w, y, x, anchor, scale, sigmoid, exp);
      }
    }
  }

  lemma DecodedCell(r: Grid<Box>, bbox: Grid<seq<real>>, xyGrid: seq<(int, int)>, h: nat, w: nat, y: nat, x: nat,
                    anchor: Anchor, scale: real, sigmoid: real -> real, exp: real -> real)
    requires IsGrid(r, h, w) && IsGrid(bbox, h, w) && |xyGrid| == h * w
    requires forall y, x :: 0 <= y < h && 0 <= x < w ==> |bbox[y][x]| == 4
    requires DecodedAt(r, bbox, xyGrid, h, w, anchor, scale, sigmoid, exp)
    requires y < h && x < w && y * w + x < h * w
    ensures r[y][x] == Decode(bbox[y][x], xyGrid[y * w + x], anchor, scale, sigmoid, exp)
  {
    assert CellDecoded(r, bbox, xyGrid, w, y, x, anchor, scale, sigmoid, exp);
  }

  lemma AnchorStepScores(f: FeatureMap, nAnchors: nat, nClass: nat, a: nat, chunk: Grid<seq<real>>, parts: DetectionParts,
                         sigmoid: real -> real)
    requires WellShaped(f) && a < nAnchors && f.c == nAnchors * (5 + nClass)
    requires IsGrid(chunk, f.h, f.w)
    requires forall y, x :: 0 <= y < f.h && 0 <= x < f.w ==> |chunk[y][x]| == 5 + nClass
    requires forall y, x :: 0 <= y < f.h && 0 <= x < f.w ==> chunk[y][x] == Chunk(f.cells[y][x], nAnchors, 5 + nClass, a)
    requires SplitDetection(chunk, f.h, f.w, 5 + nClass, nClass) == Ok(parts)
    ensures IsGrid(parts.objectness, f.h, f.w) && IsGrid(parts.classes, f.h, f.w)
    ensures forall y, x :: 0 <= y < f.h && 0 <= x < f.w ==> |parts.classes[y][x]| == nClass
    ensures ObjectnessTimesClasses(parts.objectness, parts.classes, f.h, f.w, nClass, sigmoid)
      == AnchorScoreGrid(f, nAnchors, nClass, a, sigmoid)
  {
    var h, w := f.h, f.w;
    var scores := ObjectnessTimesClasses(parts.objectness, parts.classes, h, w, nClass, sigmoid);
    var expected := AnchorScoreGrid(f, nAnchors, nClass, a, sigmoid);
    forall y | 0 <= y < h
      ensures scores[y] == expected[y]
    {
      forall x | 0 <= x < w
        ensures scores[y][x] == expected[y][x]
      {
        assert scores[y][x] == ScoreRow(parts.objectness[y][x], parts.classes[y][x], sigmoid);
      }
    }
  }

  /** The first |bboxList| anchors' grids are their reference grids. */
  ghost predicate StackedUpTo(bboxScore: seq<Grid<seq<real>>>, bboxList: seq<Grid<Box>>, f: FeatureMap,
                              anchors: seq<Anchor>, nClass: nat, scale: real, sigmoid: real -> real, exp: real -> real)
    requires WellShaped(f) && f.c == |anchors| * (5 + nClass)
  {
    && |bboxScore| == |bboxList| <= |anchors|
    && forall a :: 0 <= a < |bboxList| ==>
         bboxList[a] == AnchorBoxGrid(f, |anchors|, nClass, a, anchors[a], scale, sigmoid, exp) &&
         bboxScore[a] == AnchorScoreGrid(f, |anchors|, nClass, a, sigmoid)
  }

  /** Appending anchor a's reference grids extends StackedUpTo by one anchor. */
  lemma StackedUpToStep(bboxScore: seq<Grid<seq<real>>>, bboxList: seq<Grid<Box>>, f: FeatureMap,
                        anchors: seq<Anchor>, nClass: nat, scale: real, sigmoid: real -> real, exp: real -> real,
                        scores: Grid<seq<real>>, boxes: Grid<Box>)
    requires WellShaped(f) && f.c == |anchors| * (5 + nClass)
    requires |bboxList| == 0 || StackedUpTo(bboxScore, bboxList, f, anchors, nClass, scale, sigmoid, exp)
    requires |bboxScore| == |bboxList| < |anchors|
    requires boxes == AnchorBoxGrid(f, |anchors|, nClass, |bboxList|, anchors[|bboxList|], scale, sigmoid, exp)
    requires scores == AnchorScoreGrid(f, |anchors|, nClass, |bboxList|, sigmoid)
    ensures StackedUpTo(bboxScore + [scores], bboxList + [boxes], f, anchors, nClass, scale, sigmoid, exp)
  {
  }

  /**
   * After the anchor loop: stacking the reference grids puts anchor a at
   * cell (y, x) in row a * h * w + y * w + x.
   */
  lemma StackedLayout(f: FeatureMap, anchors: seq<Anchor>, nClass: nat, scale: real, sigmoid: real -> real, exp: real -> real,
                      bboxScore: seq<Grid<seq<real>>>, bboxList: seq<Grid<Box>>)
    requires WellShaped(f) && 0 < |anchors| && f.c == |anchors| * (5 + nClass)
    requires |bboxList| == |anchors| && StackedUpTo(bboxScore, bboxList, f, anchors, nClass, scale, sigmoid, exp)
    ensures Assembled(Prediction(StackAnchors(bboxScore), StackAnchors(bboxList)), f, anchors, nClass, scale, sigmoid, exp)
  {
    StackAnchorsLength(bboxScore, f.h, f.w);
    StackAnchorsLength(bboxList, f.h, f.w);
    StackedScoreWidths(f, anchors, nClass, scale, sigmoid, exp, bboxScore, bboxList);
    StackedBoxes(f, anchors, nClass, scale, sigmoid, exp, bboxScore, bboxList);
    StackedScores(f, anchors, nClass, scale, sigmoid, exp, bboxScore, bboxList);
  }

  lemma StackedScoreWidths(f: FeatureMap, anchors: seq<Anchor>, nClass: nat, scale: real, sigmoid: real -> real, exp: real -> real,
                           bboxScore: seq<Grid<seq<real>>>, bboxList: seq<Grid<Box>>)
    requires WellShaped(f) && 0 < |anchors| && f.c == |anchors| * (5 + nClass)
    requires |bboxList| == |anchors| && StackedUpTo(bboxScore, bboxList, f, anchors, nClass, scale, sigmoid, exp)
    ensures forall k :: 0 <= k < |StackAnchors(bboxScore)| ==> |StackAnchors(bboxScore)[k]| == nClass
  {
    forall k | 0 <= k < |StackAnchors(bboxScore)|
      ensures |StackAnchors(bboxScore)[k]| == nClass
    {
      StackAnchorsLength(bboxScore, f.h, f.w);
      var a, y, x := StackAnchorsRowOf(bboxScore, f.h, f.w, k);
    }
  }

  lemma StackedBoxes(f: FeatureMap, anchors: seq<Anchor>, nClass: nat, scale: real, sigmoid: real -> real, exp: real -> real,
                     bboxScore: seq<Grid<seq<real>>>, bboxList: seq<Grid<Box>>)
    requires WellShaped(f) && 0 < |anchors| && f.c == |anchors| * (5 + nClass)
    requires |bboxList| == |anchors| && StackedUpTo(bboxScore, bboxList, f, anchors, nClass, scale, sigmoid, exp)
    ensures |StackAnchors(bboxList)| == |anchors| * (f.h * f.w)
    ensures forall a, y, x :: 0 <= a < |anchors| && 0 <= y < f.h && 0 <= x < f.w ==>
      StackAnchors(bboxList)[Row(|anchors|, a, y, x, f.h, f.w)] ==
        Decode(Chunk(f.cells[y][x], |anchors|, 5 + nClass, a)[..4], (x, y), anchors[a], scale, sigmoid, exp)
  {
    StackAnchorsLength(bboxList, f.h, f.w);
    forall a, y, x | 0 <= a < |anchors| && 0 <= y < f.h && 0 <= x < f.w
      ensures StackAnchors(bboxList)[Row(|anchors|, a, y, x, f.h, f.w)] ==
        Decode(Chunk(f.cells[y][x], |anchors|, 5 + nClass, a)[..4], (x, y), anchors[a], scale, sigmoid, exp)
    {
      StackAnchorsAt(bboxList, f.h, f.w, a, y, x);
      AnchorBoxAt(f, |anchors|, nClass, a, anchors[a], scale, sigmoid, exp, y, x);
    }
  }

  lemma AnchorBoxAt(f: FeatureMap, nAnchors: nat, nClass: nat, a: nat, anchor: Anchor, scale: real,
                    sigmoid: real -> real, exp: real -> real, y: nat, x: nat)
    requires WellShaped(f) && a < nAnchors && f.c == nAnchors * (5 + nClass)
    requires y < f.h && x < f.w
    ensures AnchorBoxGrid(f, nAnchors, nClass, a, anchor, scale, sigmoid, exp)[y][x]
      == Decode(Chunk(f.cells[y][x], nAnchors, 5 + nClass, a)[..4], (x, y), anchor, scale, sigmoid, exp)
  {
  }

  lemma AnchorScoreAt(f: FeatureMap, nAnchors: nat, nClass: nat, a: nat, sigmoid: real -> real, y: nat, x: nat)
    requires WellShaped(f) && a < nAnchors && f.c == nAnchors * (5 + nClass)
    requires y < f.h && x < f.w
    ensures var raw := Chunk(f.cells[y][x], nAnchors, 5 + nClass, a);
      AnchorScoreGrid(f, nAnchors, nClass, a, sigmoid)[y][x] == ScoreRow(raw[4], raw[5..], sigmoid)
  {
  }

  lemma StackedScores(f: FeatureMap, anchors: seq<Anchor>, nClass: nat, scale: real, sigmoid: real -> real, exp: real -> real,
                      bboxScore: seq<Grid<seq<real>>>, bboxList: seq<Grid<Box>>)
    requires WellShaped(f) && 0 < |anchors| && f.c == |anchors| * (5 + nClass)
    requires |bboxList| == |anchors| && StackedUpTo(bboxScore, bboxList, f, anchors, nClass, scale, sigmoid, exp)
    ensures |StackAnchors(bboxScore)| == |anchors| * (f.h * f.w)
    ensures forall a, y, x :: 0 <= a < |anchors| && 0 <= y < f.h && 0 <= x < f.w ==>
      var raw := Chunk(f.cells[y][x], |anchors|, 5 + nClass, a);
      StackAnchors(bboxScore)[Row(|anchors|, a, y, x, f.h, f.w)] == ScoreRow(raw[4], raw[5..], sigmoid)
  {
    StackAnchorsLength(bboxScore, f.h, f.w);
    forall a, y, x | 0 <= a < |anchors| && 0 <= y < f.h && 0 <= x < f.w
      ensures var raw := Chunk(f.cells[y][x], |anchors|, 5 + nClass, a);
        StackAnchors(bboxScore)[Row(|anchors|, a, y, x, f.h, f.w)] == ScoreRow(raw[4], raw[5..], sigmoid)
    {
      StackAnchorsAt(bboxScore, f.h, f.w, a, y, x);
      AnchorScoreAt(f, |anchors|, nClass, a, sigmoid, y, x);
    }
  }

  /**
   * The assembled layout of one scale: one box and one score row of nClass
   * entries per (anchor, cell), and row a * h * w + y * w + x holds anchor a
   * at cell (y, x), decoded from that anchor's channel block of the cell.
   */
  ghost predicate Assembled(p: Prediction, f: FeatureMap, anchors: seq<Anchor>, nClass: nat, scale: real,
                            sigmoid: real -> real, exp: real -> real)
    requires WellShaped(f) && f.c == |anchors| * (5 + nClass)
  {
    && |p.boxes| == |anchors| * (f.h * f.w) && |p.scores| == |anchors| * (f.h * f.w)
    && (forall k :: 0 <= k < |p.scores| ==> |p.scores[k]| == nClass)
    && (forall a, y, x :: 0 <= a < |anchors| && 0 <= y < f.h && 0 <= x < f.w ==>
          p.boxes[Row(|anchors|, a, y, x, f.h, f.w)] ==
            Decode(Chunk(f.cells[y][x], |anchors|, 5 + nClass, a)[..4], (x, y), anchors[a], scale, sigmoid, exp))
    && (forall a, y, x :: 0 <= a < |anchors| && 0 <= y < f.h && 0 <= x < f.w ==>
          var raw := Chunk(f.cells[y][x], |anchors|, 5 + nClass, a);
          p.scores[Row(|anchors|, a, y, x, f.h, f.w)] == ScoreRow(raw[4], raw[5..], sigmoid))
  }

  /**
   * yolo_prediction for one image: fails exactly when the channels do not
   * hold nAnchors blocks of 4 + 1 + nClass values; otherwise row
   * a * h * w + y * w + x holds anchor a at cell (y, x), decoded from that
   * anchor's channel block of the cell, and its score row.
   */
  method YoloPredictionLayer(f: FeatureMap, anchors: seq<Anchor>, nClass: nat, scale: real,
                             sigmoid: real -> real, exp: real -> real)
    returns (res: Result<Prediction>)
    requires WellShaped(f)
    ensures res == Err(UnevenAnchorSplit) <==> |anchors| == 0 || f.c % |anchors| != 0
    ensures res == Err(DetectionSizeMismatch) <==>
      0 < |anchors| && f.c % |anchors| == 0 && f.c / |anchors| != 5 + nClass
    ensures res.Ok? <==> 0 < |anchors| && f.c == |anchors| * (5 + nClass)
    ensures res.Ok? ==> Assembled(res.value, f, anchors, nClass, scale, sigmoid, exp)
  {
    var h, w := f.h, f.w;
    var xyGrid := GridXY(h, w);
    var nAnchors := |anchors|;
    var split := SplitAnchors(f, nAnchors);
    if split.Err? {
      if nAnchors > 0 {
        ChannelCount(f.c, nAnchors, 5 + nClass);
      }
      return Err(split.error);
    }
    var detectionList := split.value;
    var size := f.c / nAnchors;
    ChannelCount(f.c, nAnchors, 5 + nClass);
    var bboxScore: seq<Grid<seq<real>>> := [];
    var bboxList: seq<Grid<Box>> := [];
    for anchorId := 0 to nAnchors
      invariant |bboxScore| == anchorId && |bboxList| == anchorId
      invariant 0 < anchorId ==> size == 5 + nClass
      invariant 0 < anchorId ==> StackedUpTo(bboxScore, bboxList, f, anchors, nClass, scale, sigmoid, exp)
    {
      var curBbox := detectionList[anchorId];
      var parts := SplitDetection(curBbox, h, w, size, nClass);
      if parts.Err? {
        return Err(parts.error);
      }
      AnchorStep(f, nAnchors, nClass, anchorId, curBbox, parts.value, anchors[anchorId], scale, sigmoid, exp);
      var DetectionParts(bbox, objectness, classes) := parts.value;
      var boxes := CorrectYoloBoxes(xyGrid, bbox, h, w, anchors[anchorId], scale, sigmoid, exp);
      var scores := ObjectnessTimesClasses(objectness, classes, h, w, nClass, sigmoid);
      StackedUpToStep(bboxScore, bboxList, f, anchors, nClass, scale, sigmoid, exp, scores, boxes);
      bboxScore := bboxScore + [scores];
      bboxList := bboxList + [boxes];
    }
    StackedLayout(f, anchors, nClass, scale, sigmoid, exp, bboxScore, bboxList);
    res := Ok(Prediction(StackAnchors(bboxScore), StackAnchors(bboxList)));
  }
}
