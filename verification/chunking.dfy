/** The chunk schedule of the inference path: chunk starts produced by `range`,
    channel slices truncated at the hidden width, and the matching column slices
    of the output weight. */
module Chunking {
  import opened Tensors

  /** The values of `range(start, stop, step)` for a positive step: empty when
      start >= stop, otherwise starting at `start` and staying in [start, stop). */
  function PyRange(start: nat, stop: nat, step: nat): (r: seq<nat>)
    requires step > 0
    ensures |r| == 0 <==> start >= stop
    ensures |r| > 0 ==> r[0] == start
    ensures forall k :: 0 <= k < |r| ==> start <= r[k] < stop
    decreases stop - start
  {
    if start >= stop then [] else [start] + PyRange(start + step, stop, step)
  }

  /** `range` yields the arithmetic progression start, start+step, ... that stays
      below `stop` and stops at the first value that does not. */
  lemma {:induction false} PyRangeClosedForm(start: nat, stop: nat, step: nat)
    requires step > 0
    ensures var r := PyRange(start, stop, step);
      && (|r| == 0 <==> start >= stop)
      && (forall k :: 0 <= k < |r| ==> r[k] == start + k * step)
      && (forall k :: 0 <= k < |r| ==> start <= r[k] < stop)
      && (|r| > 0 ==> start + (|r| - 1) * step < stop <= start + |r| * step)
    decreases stop - start
  {
    var r := PyRange(start, stop, step);
    if start < stop {
      var rest := PyRange(start + step, stop, step);
      PyRangeClosedForm(start + step, stop, step);
      assert r == [start] + rest;
      forall k | 0 < k < |r|
        ensures r[k] == start + k * step
      {
        MulSucc(k - 1, step);
        assert r[k] == rest[k - 1];
      }
      if |rest| > 0 {
        MulSucc(|rest| - 1, step);
        MulSucc(|rest|, step);
      }
    }
  }

  /** A half-open channel range [lo, hi). */
  datatype Chunk = Chunk(lo: nat, hi: nat)
  {
    predicate Contains(c: int)
    {
      lo <= c < hi
    }
  }

  function Min(x: nat, y: nat): nat
  {
    if x <= y then x else y
  }

  /** The channels `a[..., i : i + cs]` selects on an axis of length `h`: they
      start at i and end within h; a start inside the axis gets exactly
      min(cs, h - i) channels, and a start past its end gets none. */
  function ChunkAt(i: nat, h: nat, cs: nat): (r: Chunk)
    ensures r.lo == i && r.hi <= i + cs && r.hi <= h
    ensures i <= h ==> r.hi - r.lo == Min(cs, h - i)
    ensures i < h && cs > 0 ==> r.lo < r.hi
    ensures h <= i ==> r.hi <= r.lo
  {
    Chunk(i, Min(i + cs, h))
  }

  /** The channel ranges visited by the chunked loop, in loop order. */
  function Chunks(h: nat, cs: nat): (r: seq<Chunk>)
    requires cs > 0
    ensures |r| == |PyRange(0, h, cs)|
    ensures forall k :: 0 <= k < |r| ==> r[k].lo < r[k].hi <= h && r[k].hi - r[k].lo <= cs
  {
    var starts := PyRange(0, h, cs);
    seq(|starts|, k requires 0 <= k < |starts| => ChunkAt(starts[k], h, cs))
  }

  /** Chunk k of the schedule starts at k*cs and is cut at the hidden width. */
  lemma ChunkClosedForm(h: nat, cs: nat, k: nat)
    requires cs > 0 && k < |Chunks(h, cs)|
    ensures k * cs < h
    ensures Chunks(h, cs)[k] == Chunk(k * cs, Min(k * cs + cs, h))
  {
    var n := |Chunks(h, cs)|;
    PyRangeClosedForm(0, h, cs);
    MulMonotone(k, n - 1, cs);
  }

  /** Consecutive chunks meet, and every chunk but the last has `cs` channels. */
  lemma ChunksContiguous(h: nat, cs: nat, k: nat)
    requires cs > 0 && k + 1 < |Chunks(h, cs)|
    ensures Chunks(h, cs)[k].hi == Chunks(h, cs)[k + 1].lo
    ensures Chunks(h, cs)[k].hi - Chunks(h, cs)[k].lo == cs
  {
    ChunkClosedForm(h, cs, k);
    ChunkClosedForm(h, cs, k + 1);
    assert (k + 1) * cs == k * cs + cs;
  }

  /** The last chunk ends at h and is shorter than `cs` exactly when `cs` does not divide h. */
  lemma LastChunk(h: nat, cs: nat)
    requires cs > 0 && |Chunks(h, cs)| > 0
    ensures var ch := Chunks(h, cs);
      && ch[|ch| - 1].hi == h
      && ch[|ch| - 1].hi - ch[|ch| - 1].lo == (if h % cs == 0 then cs else h % cs)
  {
    var n := |Chunks(h, cs)|;
    PyRangeClosedForm(0, h, cs);
    ChunkClosedForm(h, cs, n - 1);
    var last := (n - 1) * cs;
    assert last < h <= last + cs;
    assert n * cs == last + cs;
    if h - last < cs {
      FlatIndexUnique(n - 1, h - last, cs);
      assert h == FlatIndex(n - 1, h - last, cs);
    } else {
      FlatIndexUnique(n, 0, cs);
      assert h == FlatIndex(n, 0, cs);
    }
  }

  /** Channel c < h lies in chunk k exactly when k == c / cs. */
  lemma ChunkMembership(h: nat, cs: nat, k: nat, c: nat)
    requires cs > 0 && k < |Chunks(h, cs)| && c < h
    ensures Chunks(h, cs)[k].Contains(c) <==> k == c / cs
  {
    ChunkClosedForm(h, cs, k);
    RowBlock(c, k, cs);
  }

  /** The chunks partition the hidden channels [0, h): they start at 0, end at h,
      are non-empty and contiguous, every chunk but the last has exactly `cs`
      channels, the last is shorter exactly when `cs` does not divide `h`, and
      channel `c` lies in chunk `k` if and only if k == c / cs. */
  lemma ChunksPartition(h: nat, cs: nat)
    requires cs > 0
    ensures var ch := Chunks(h, cs);
      && (|ch| == 0 <==> h == 0)
      && (|ch| > 0 ==> ch[0].lo == 0 && ch[|ch| - 1].hi == h)
      && (forall k :: 0 <= k < |ch| ==> ch[k].lo < ch[k].hi <= h)
      && (forall k :: 0 <= k < |ch| - 1 ==> ch[k].hi == ch[k + 1].lo)
      && (forall k :: 0 <= k < |ch| - 1 ==> ch[k].hi - ch[k].lo == cs)
      && (|ch| > 0 ==> ch[|ch| - 1].hi - ch[|ch| - 1].lo == (if h % cs == 0 then cs else h % cs))
      && (forall k, c :: 0 <= k < |ch| && 0 <= c < h ==> (ch[k].Contains(c) <==> k == c / cs))
  {
    var ch := Chunks(h, cs);
    PyRangeClosedForm(0, h, cs);
    forall k | 0 <= k < |ch|
      ensures ch[k].lo < ch[k].hi <= h
    {
      ChunkClosedForm(h, cs, k);
    }
    forall k | 0 <= k < |ch| - 1
      ensures ch[k].hi == ch[k + 1].lo && ch[k].hi - ch[k].lo == cs
    {
      ChunksContiguous(h, cs, k);
    }
    if |ch| > 0 {
      LastChunk(h, cs);
    }
    forall k, c | 0 <= k < |ch| && 0 <= c < h
      ensures ch[k].Contains(c) <==> k == c / cs
    {
      ChunkMembership(h, cs, k, c);
    }
  }

  /** `row[from:to]` for non-negative bounds: both ends are clipped to the length. */
  function PySlice(row: seq<real>, from: nat, to: nat): (r: seq<real>)
    ensures from <= to <= |row| ==> r == row[from..to]
    ensures from <= |row| <= to ==> r == row[from..]
    ensures |row| <= from || to <= from ==> r == []
  {
    var lo := Min(from, |row|);
    var hi := Min(to, |row|);
    if hi <= lo then [] else row[lo..hi]
  }

  /** The flattened block [lo*h, hi*h) of a chunk starting at channel `i < h`
      lies within [0, h*h). */
  lemma ChunkBlockFits(h: nat, cs: nat, i: nat)
    requires cs > 0 && i < h
    ensures ChunkAt(i, h, cs).lo * h <= ChunkAt(i, h, cs).hi * h <= h * h
  {
    var ch := ChunkAt(i, h, cs);
    MulMonotone(i, ch.hi, h);
    MulMonotone(ch.hi, h, h);
  }

  /** The flattened block of a chunk starting at channel `i < h` fits in a
      weight row of width h*h, and the column slice `[i*h : (i+cs)*h]`,
      clipped at the row's end, is exactly that block. */
  lemma WeightSliceBounds(row: seq<real>, h: nat, cs: nat, i: nat)
    requires cs > 0 && i < h && |row| == h * h
    ensures var ch := ChunkAt(i, h, cs);
      && ch.lo * h <= ch.hi * h <= |row|
      && PySlice(row, i * h, (i + cs) * h) == row[ch.lo * h..ch.hi * h]
      && |PySlice(row, i * h, (i + cs) * h)| == (ch.hi - ch.lo) * h
  {
    var ch := ChunkAt(i, h, cs);
    ChunkBlockFits(h, cs, i);
    SliceEndClipped(h, cs, i);
    MulSubDistrib(ch.lo, ch.hi, h);
    assert Min(i * h, |row|) == ch.lo * h;
  }

  /** The slice end (i+cs)*h, clipped at h*h, is the chunk's end times h. */
  lemma SliceEndClipped(h: nat, cs: nat, i: nat)
    requires cs > 0 && i < h
    ensures Min((i + cs) * h, h * h) == ChunkAt(i, h, cs).hi * h
  {
    if i + cs >= h {
      MulMonotone(h, i + cs, h);
    }
  }

  /** Every c*h + d with c in the chunk and d < h lies in the chunk's block. */
  lemma BlockHoldsChunkEntries(h: nat, cs: nat, i: nat, c: nat, d: nat)
    requires cs > 0 && ChunkAt(i, h, cs).Contains(c) && d < h
    ensures ChunkAt(i, h, cs).lo * h <= FlatIndex(c, d, h) < ChunkAt(i, h, cs).hi * h
  {
    var ch := ChunkAt(i, h, cs);
    MulMonotone(ch.lo, c, h);
    MulMonotone(c + 1, ch.hi, h);
    assert (c + 1) * h == c * h + h;
  }

  /** Every position of the chunk's block is c*h + d for some c in the chunk. */
  lemma BlockEntriesInChunk(h: nat, cs: nat, i: nat, k: nat)
    requires cs > 0 && ChunkAt(i, h, cs).lo * h <= k < ChunkAt(i, h, cs).hi * h
    ensures h > 0
    ensures ChunkAt(i, h, cs).Contains(RowOf(k, h))
    ensures FlatIndex(RowOf(k, h), ColOf(k, h), h) == k
  {
    var lo, hi := ChunkAt(i, h, cs).lo, ChunkAt(i, h, cs).hi;
    FlatIndexInverse(k, hi, h);
    var c := RowOf(k, h);
    RowBlock(k, c, h);
    assert k < (c + 1) * h by {
      assert (c + 1) * h == c * h + h;
    }
    MulLessCancel(lo, c + 1, h);
  }

  /** For a chunk starting at channel `i < h`, the column slice
      `[i*h : (i+cs)*h]` of a weight row of width h*h is the block
      [lo*h, hi*h) of the chunk's bounds, and that block holds exactly the
      flattened positions c*h + d with c in the chunk and d in [0, h). */
  lemma WeightSliceAligned(row: seq<real>, h: nat, cs: nat, i: nat)
    requires cs > 0 && i < h && |row| == h * h
    ensures var ch := ChunkAt(i, h, cs);
      && ch.lo * h <= ch.hi * h <= |row|
      && PySlice(row, i * h, (i + cs) * h) == row[ch.lo * h..ch.hi * h]
      && (forall c, d :: ch.Contains(c) && 0 <= d < h ==>
            ch.lo * h <= FlatIndex(c, d, h) < ch.hi * h)
      && (forall k: nat :: ch.lo * h <= k < ch.hi * h ==>
            ch.Contains(RowOf(k, h)) && FlatIndex(RowOf(k, h), ColOf(k, h), h) == k)
  {
    WeightSliceBounds(row, h, cs, i);
    forall c, d | ChunkAt(i, h, cs).Contains(c) && 0 <= d < h
      ensures ChunkAt(i, h, cs).lo * h <= FlatIndex(c, d, h) < ChunkAt(i, h, cs).hi * h
    {
      BlockHoldsChunkEntries(h, cs, i, c, d);
    }
    forall k: nat | ChunkAt(i, h, cs).lo * h <= k < ChunkAt(i, h, cs).hi * h
      ensures ChunkAt(i, h, cs).Contains(RowOf(k, h))
      ensures FlatIndex(RowOf(k, h), ColOf(k, h), h) == k
    {
      BlockEntriesInChunk(h, cs, i, k);
    }
  }
}
