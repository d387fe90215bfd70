/**
 * Tensor layout operations used by the detection head, stated over nested
 * sequences. A rank-2 tensor of shape [h, w] is a sequence of h rows of w
 * entries; the reshapes, splits, masks and gathers of the head become the
 * functions below, and the index arithmetic they hide is proved once here.
 */
module Tensors {

  /** A row-major grid: `g[y][x]` is the entry at row y, column x. */
  type Grid<T> = seq<seq<T>>

  /** `g` has shape [h, w]. */
  predicate IsGrid<T>(g: Grid<T>, h: nat, w: nat)
  {
    |g| == h && forall y :: 0 <= y < h ==> |g[y]| == w
  }

  lemma MulLeq(a: nat, b: nat, w: nat)
    requires a <= b
    ensures a * w <= b * w
  {
  }

  /** Cell (y, x) of an h x w grid has a row-major offset below h * w. */
  lemma CellBound(y: nat, x: nat, h: nat, w: nat)
    requires y < h && x < w
    ensures y * w + x < h * w
  {
    MulLeq(y + 1, h, w);
    assert (y + 1) * w == y * w + w;
  }

  lemma MulSucc(a: nat, w: nat)
    ensures a * w + w == (a + 1) * w
  {
  }

  /** Row y of an h x w grid ends at or before offset h * w. */
  lemma RowEnd(y: nat, h: nat, w: nat)
    requires y < h
    ensures y * w + w <= h * w
  {
    MulLeq(y + 1, h, w);
    MulSucc(y, w);
  }

  lemma DivMod(k: nat, w: nat)
    requires 0 < w
    ensures k == (k / w) * w + k % w && 0 <= k % w < w
  {
  }

  lemma MulStep(a: nat, b: nat, w: nat)
    ensures a < b ==> a * w + w <= b * w
  {
    if a < b {
      MulLeq(a + 1, b, w);
      assert (a + 1) * w == a * w + w;
    }
  }

  lemma DivModUnique(n: nat, d: nat, q: nat, r: nat)
    requires 0 <= r < d && n == q * d + r
    ensures n / d == q && n % d == r
  {
    DivMod(n, d);
    MulStep(n / d, q, d);
    MulStep(q, n / d, d);
  }

  lemma DivBound(k: nat, w: nat, n: nat)
    requires k < n * w
    ensures 0 < w && k / w < n
  {
    DivMod(k, w);
    if n <= k / w {
      MulLeq(n, k / w, w);
    }
  }

  /**
   * Row-major reshape that merges the two leading axes (reshape to
   * (-1, ...)): the rows of `rows` are laid end to end.
   */
  function Flatten<T>(rows: seq<seq<T>>): seq<T>
  {
    if rows == [] then [] else Flatten(rows[..|rows| - 1]) + rows[|rows| - 1]
  }

  lemma {:induction false} FlattenLength<T>(rows: seq<seq<T>>, w: nat)
    requires forall y :: 0 <= y < |rows| ==> |rows[y]| == w
    ensures |Flatten(rows)| == |rows| * w
  {
    if rows != [] {
      var n := |rows| - 1;
      FlattenLength(rows[..n], w);
      MulSucc(n, w);
    }
  }

  /** Appending a row appends its entries to the flattened rows. */
  lemma FlattenAppend<T>(rows: seq<seq<T>>, r: seq<T>)
    ensures Flatten(rows + [r]) == Flatten(rows) + r
  {
    assert (rows + [r])[..|rows|] == rows;
  }

  /** Entry (y, x) of rows of width w lands at offset y * w + x once flattened. */
  lemma {:induction false} FlattenAt<T>(rows: seq<seq<T>>, w: nat, y: nat, x: nat)
    requires forall i :: 0 <= i < |rows| ==> |rows[i]| == w
    requires y < |rows| && x < w
    ensures y * w + x < |Flatten(rows)|
    ensures Flatten(rows)[y * w + x] == rows[y][x]
  {
    var n := |rows|;
    var init := rows[..n - 1];
    FlattenLength(init, w);
    assert Flatten(rows) == Flatten(init) + rows[n - 1];
    if y < n - 1 {
      FlattenAt(init, w, y, x);
    } else {
      assert y * w == (n - 1) * w;
    }
  }

  /** Offset k of the flattened rows holds row k / w, column k % w. */
  lemma FlattenIndex<T>(rows: seq<seq<T>>, w: nat, k: nat)
    requires forall i :: 0 <= i < |rows| ==> |rows[i]| == w
    requires k < |Flatten(rows)|
    ensures 0 < w && k / w < |rows| && k % w < w
    ensures Flatten(rows)[k] == rows[k / w][k % w]
  {
    FlattenLength(rows, w);
    DivBound(k, w, |rows|);
    DivMod(k, w);
    FlattenAt(rows, w, k / w, k % w);
  }

  /** Reshape of a flat sequence of h * w entries into an [h, w] grid. */
  function Unflatten<T>(s: seq<T>, h: nat, w: nat): (g: Grid<T>)
    requires |s| == h * w
    ensures IsGrid(g, h, w)
  {
    var g := seq(h, y requires 0 <= y < h => RowEnd(y, h, w); s[y * w .. y * w + w]);
    assert forall y :: 0 <= y < h ==> |g[y]| == w by {
      forall y | 0 <= y < h
        ensures |g[y]| == w
      {
        RowEnd(y, h, w);
      }
    }
    g
  }

  /** Cell (y, x) of the reshaped grid is entry y * w + x of the flat sequence. */
  lemma UnflattenAt<T>(s: seq<T>, h: nat, w: nat, y: nat, x: nat)
    requires |s| == h * w && y < h && x < w
    ensures y * w + x < |s| && Unflatten(s, h, w)[y][x] == s[y * w + x]
  {
    RowEnd(y, h, w);
  }

  /** Flattening a grid and reshaping it back to [h, w] gives the grid again. */
  lemma UnflattenFlatten<T>(g: Grid<T>, h: nat, w: nat)
    requires IsGrid(g, h, w)
    ensures |Flatten(g)| == h * w
    ensures Unflatten(Flatten(g), h, w) == g
  {
    FlattenLength(g, w);
    var g' := Unflatten(Flatten(g), h, w);
    forall y | 0 <= y < h
      ensures g'[y] == g[y]
    {
      forall x | 0 <= x < w
        ensures g'[y][x] == g[y][x]
      {
        FlattenAt(g, w, y, x);
        UnflattenAt(Flatten(g), h, w, y, x);
      }
    }
  }

  /** Reshaping a flat sequence to [h, w] and flattening it again gives the sequence back. */
  lemma FlattenUnflatten<T>(s: seq<T>, h: nat, w: nat)
    requires |s| == h * w
    ensures Flatten(Unflatten(s, h, w)) == s
  {
    var g := Unflatten(s, h, w);
    FlattenLength(g, w);
    forall k | 0 <= k < |s|
      ensures Flatten(g)[k] == s[k]
    {
      FlattenUnflattenAt(s, h, w, k);
    }
  }

  lemma FlattenUnflattenAt<T>(s: seq<T>, h: nat, w: nat, k: nat)
    requires |s| == h * w && k < |s|
    ensures k < |Flatten(Unflatten(s, h, w))| && Flatten(Unflatten(s, h, w))[k] == s[k]
  {
    var g := Unflatten(s, h, w);
    DivBound(k, w, h);
    DivMod(k, w);
    var y, x := k / w, k % w;
    assert k == y * w + x;
    FlattenAt(g, w, y, x);
    UnflattenAt(s, h, w, y, x);
  }

  /**
   * Piece i of `v` split evenly into n pieces of length `size` (an even
   * split along the last axis).
   */
  function Chunk<T>(v: seq<T>, n: nat, size: nat, i: nat): (r: seq<T>)
    requires i < n && |v| == n * size
    ensures |r| == size
  {
    MulLeq(i + 1, n, size);
    v[i * size .. i * size + size]
  }

  /** The n chunks of v, put back one after another, give v again: the split neither loses nor repeats an entry. */
  lemma ChunksFlatten<T>(v: seq<T>, n: nat, size: nat)
    requires |v| == n * size
    ensures Flatten(seq(n, i requires 0 <= i < n => Chunk(v, n, size, i))) == v
  {
    var chunks := seq(n, i requires 0 <= i < n => Chunk(v, n, size, i));
    var u := Unflatten(v, n, size);
    forall i | 0 <= i < n
      ensures chunks[i] == u[i]
    {
      RowEnd(i, n, size);
    }
    assert chunks == u;
    FlattenUnflatten(v, n, size);
  }

  /** Mesh grid with 'ij' indexing over range(h) x range(w): (row index, column index) of every cell. */
  function MeshGridIJ(h: nat, w: nat): (Grid<int>, Grid<int>)
  {
    (seq(h, y => seq(w, x => y)), seq(h, y => seq(w, x => x)))
  }

  /** Column c of a matrix whose rows are long enough. */
  function Column<T>(m: seq<seq<T>>, c: nat): seq<T>
    requires forall j :: 0 <= j < |m| ==> c < |m[j]|
  {
    seq(|m|, j requires 0 <= j < |m| => m[j][c])
  }

  /** The positions of the true entries of `mask`, in increasing order. */
  function TrueIndices(mask: seq<bool>): (r: seq<nat>)
    ensures forall i :: 0 <= i < |r| ==> r[i] < |mask| && mask[r[i]]
    ensures forall i, i' :: 0 <= i < i' < |r| ==> r[i] < r[i']
    ensures forall k :: 0 <= k < |mask| && mask[k] ==> k in r
  {
    if mask == [] then []
    else
      var n := |mask| - 1;
      TrueIndices(mask[..n]) + (if mask[n] then [n] else [])
  }

  /** Boolean masking along the first axis: the entries of `xs` whose mask entry is true, in order. */
  function BooleanMask<T>(xs: seq<T>, mask: seq<bool>): (r: seq<T>)
    requires |xs| == |mask|
    ensures |r| == |TrueIndices(mask)|
    ensures forall i :: 0 <= i < |r| ==> r[i] == xs[TrueIndices(mask)[i]]
  {
    if mask == [] then []
    else
      var n := |mask| - 1;
      BooleanMask(xs[..n], mask[..n]) + (if mask[n] then [xs[n]] else [])
  }

  /** Gathering along the first axis: entry i of the result is xs[idx[i]]. */
  function Gather<T>(xs: seq<T>, idx: seq<nat>): (r: seq<T>)
    requires forall i :: 0 <= i < |idx| ==> idx[i] < |xs|
    ensures |r| == |idx| && forall i :: 0 <= i < |idx| ==> r[i] == xs[idx[i]]
  {
    seq(|idx|, i requires 0 <= i < |idx| => xs[idx[i]])
  }

  /** A sequence whose entries all equal v holds v as often as it is long, and nothing else. */
  lemma {:induction false} ConstantMultiset<T>(s: seq<T>, v: T, u: T)
    requires forall i :: 0 <= i < |s| ==> s[i] == v
    ensures multiset(s)[u] == if u == v then |s| else 0
  {
    if s != [] {
      var n := |s| - 1;
      ConstantMultiset(s[..n], v, u);
      assert s == s[..n] + [s[n]];
      assert multiset(s) == multiset(s[..n]) + multiset{s[n]};
    }
  }
}
