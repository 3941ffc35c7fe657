// The tables that a writer makes of a list of chunks, and that they lead back to
// each sample.

module M4aLayout {
  import opened M4aTables
  import opened M4aStream

  /** Samples stored one after the other from an offset on. */
  datatype Chunk = Chunk(offset: int, sizes: seq<int>)

  /** Samples in each chunk. */
  function Counts(chunks: seq<Chunk>): (n: seq<int>)
    ensures |n| == |chunks| && forall i :: 0 <= i < |n| ==> n[i] == |chunks[i].sizes|
  {
    seq(|chunks|, i requires 0 <= i < |chunks| => |chunks[i].sizes|)
  }

  function OffsetsOf(chunks: seq<Chunk>): (n: seq<int>)
    ensures |n| == |chunks| && forall i :: 0 <= i < |n| ==> n[i] == chunks[i].offset
  {
    seq(|chunks|, i requires 0 <= i < |chunks| => chunks[i].offset)
  }

  /** Where the samples of one chunk start. */
  function ChunkStarts(offset: int, sizes: seq<int>): (s: seq<int>)
    ensures |s| == |sizes|
  {
    if sizes == [] then [] else
    var init := sizes[..|sizes| - 1];
    ChunkStarts(offset, init) + [offset + Sum(init)]
  }

  function Sum(s: seq<int>): int {
    if s == [] then 0 else Sum(s[..|s| - 1]) + s[|s| - 1]
  }

  /** Sizes and starts of all samples, chunk after chunk. */
  function AllSizes(chunks: seq<Chunk>): seq<int> {
    if chunks == [] then [] else AllSizes(chunks[..|chunks| - 1]) + chunks[|chunks| - 1].sizes
  }

  function AllStarts(chunks: seq<Chunk>): (s: seq<int>)
    ensures |s| == |AllSizes(chunks)|
  {
    if chunks == [] then []
    else
      var last := chunks[|chunks| - 1];
      AllStarts(chunks[..|chunks| - 1]) + ChunkStarts(last.offset, last.sizes)
  }

  function LayoutOf(chunks: seq<Chunk>): Layout {
    Layout(AllStarts(chunks), AllSizes(chunks))
  }

  // The sample-to-chunk table: a new run wherever the count changes.

  function RunStarts(counts: seq<int>): (f: seq<int>)
    ensures |f| == |RunCounts(counts)| && (counts != [] ==> f != [])
  {
    if counts == [] then []
    else if Same(counts) then RunStarts(counts[..|counts| - 1])
    else RunStarts(counts[..|counts| - 1]) + [|counts|]
  }

  function RunCounts(counts: seq<int>): seq<int> {
    if counts == [] then []
    else if Same(counts) then RunCounts(counts[..|counts| - 1])
    else RunCounts(counts[..|counts| - 1]) + [counts[|counts| - 1]]
  }

  /** The last chunk has as many samples as the one before it. */
  predicate Same(counts: seq<int>)
    requires counts != []
  {
    |counts| > 1 && counts[|counts| - 1] == counts[|counts| - 2]
  }

  /** Sizes as they are listed: not at all when all are the common size. */
  predicate Listed(common: int, sizes: seq<int>) {
    common == 0 || (common > 0 && forall i :: 0 <= i < |sizes| ==> sizes[i] == common)
  }

  /** The tables of a list of chunks. */
  function TablesOf(chunks: seq<Chunk>, common: int): Tables {
    var counts := Counts(chunks);
    Tables(RunStarts(counts), RunCounts(counts), OffsetsOf(chunks), common,
           if common == 0 then AllSizes(chunks) else [], |AllSizes(chunks)|)
  }

  /** Chunks as they can be written: each holds a sample, no size is negative. */
  predicate Writable(chunks: seq<Chunk>) {
    && chunks != []
    && (forall c :: 0 <= c < |chunks| ==> chunks[c].sizes != [])
    && (forall c, k :: 0 <= c < |chunks| && 0 <= k < |chunks[c].sizes| ==> 0 <= chunks[c].sizes[k])
  }

  lemma {:induction false} RunsOfCounts(counts: seq<int>)
    requires counts != [] && forall i :: 0 <= i < |counts| ==> counts[i] > 0
    ensures var f, n := RunStarts(counts), RunCounts(counts);
      && |f| == |n| > 0 && f[0] == 1 && f[|f| - 1] <= |counts| && n[|n| - 1] == counts[|counts| - 1]
      && (forall i, j :: 0 <= i < j < |f| ==> f[i] < f[j])
      && (forall i :: 0 <= i < |n| ==> n[i] > 0)
    decreases |counts|
  {
    if |counts| > 1 { RunsOfCounts(counts[..|counts| - 1]); }
  }

  /** There are no more runs than chunks, and no number in them is larger than
      the numbers of chunks and of samples. */
  lemma {:induction false} RunsBounded(counts: seq<int>, most: int)
    requires forall i :: 0 <= i < |counts| ==> 0 < counts[i] <= most
    ensures var f, n := RunStarts(counts), RunCounts(counts);
      && |f| == |n| <= |counts|
      && (forall i :: 0 <= i < |f| ==> 0 < f[i] <= |counts| && 0 < n[i] <= most)
    decreases |counts|
  {
    if counts != [] { RunsBounded(counts[..|counts| - 1], most); }
  }

  lemma {:induction false} CountsBounded(chunks: seq<Chunk>, c: nat)
    requires c < |chunks|
    ensures |chunks[c].sizes| <= |AllSizes(chunks)|
    decreases |chunks|
  {
    if c < |chunks| - 1 {
      assert chunks[..|chunks| - 1][c] == chunks[c];
      CountsBounded(chunks[..|chunks| - 1], c);
    }
  }

  /** The run a chunk belongs to carries its count. */
  lemma {:induction false} RunOfChunk(counts: seq<int>, c: int) returns (e: nat)
    requires 1 <= c <= |counts| && forall i :: 0 <= i < |counts| ==> counts[i] > 0
    ensures var f, n := RunStarts(counts), RunCounts(counts);
      && e < |f| == |n| && f[e] <= c && (e + 1 < |f| ==> c < f[e + 1]) && n[e] == counts[c - 1]
    decreases |counts|
  {
    RunsOfCounts(counts);
    if c == |counts| {
      e := |RunStarts(counts)| - 1;
    } else {
      var init := counts[..|counts| - 1];
      e := RunOfChunk(init, c);
      assert init[c - 1] == counts[c - 1];
    }
  }
  // Reading them back.

  lemma RunsFit(chunks: seq<Chunk>, common: int)
    requires Writable(chunks)
    ensures RunsOk(TablesOf(chunks, common))
  {
    hide RunStarts, RunCounts;
    RunsOfCounts(Counts(chunks));
  }

  /** The expanded table gives each chunk its number of samples. */
  lemma PerChunkIs(chunks: seq<Chunk>, common: int, c: int)
    requires Writable(chunks) && 1 <= c <= |chunks|
    ensures RunsOk(TablesOf(chunks, common)) && PerChunk(TablesOf(chunks, common), c) == |chunks[c - 1].sizes|
  {
    RunsFit(chunks, common);
    var e := RunOfChunk(Counts(chunks), c);
    hide RunStarts, RunCounts;
    var t := TablesOf(chunks, common);
    assert RunsOk(t);
    RunIs(t, e, c);
  }

  lemma NoChunks(chunks: seq<Chunk>)
    ensures chunks == [] ==> AllSizes(chunks) == []
  {
  }

  lemma OneMoreChunk(chunks: seq<Chunk>, c: int)
    requires 1 <= c <= |chunks|
    ensures |AllSizes(chunks[..c])| == |AllSizes(chunks[..c - 1])| + |chunks[c - 1].sizes|
  {
    assert chunks[..c][..c - 1] == chunks[..c - 1];
  }

  /** Samples before chunk c. */
  lemma {:induction false} FirstSampleIs(chunks: seq<Chunk>, common: int, c: int)
    requires Writable(chunks) && 1 <= c <= |chunks| + 1
    ensures RunsOk(TablesOf(chunks, common))
    ensures FirstSample(TablesOf(chunks, common), c) == |AllSizes(chunks[..c - 1])|
    decreases c
  {
    hide TablesOf, PerChunk, RunsOk, AllSizes, Writable;
    RunsFit(chunks, common);
    if c == 1 {
      NoChunks(chunks[..0]);
    } else {
      FirstSampleIs(chunks, common, c - 1);
      PerChunkIs(chunks, common, c - 1);
      OneMoreChunk(chunks, c - 1);
    }
  }

  lemma {:induction false} SizesNotNegative(chunks: seq<Chunk>)
    requires forall c, k :: 0 <= c < |chunks| && 0 <= k < |chunks[c].sizes| ==> 0 <= chunks[c].sizes[k]
    ensures forall i :: 0 <= i < |AllSizes(chunks)| ==> 0 <= AllSizes(chunks)[i]
    decreases |chunks|
  {
    if chunks != [] {
      var init := chunks[..|chunks| - 1];
      forall c, k | 0 <= c < |init| && 0 <= k < |init[c].sizes| ensures 0 <= init[c].sizes[k] {
        assert init[c] == chunks[c];
      }
      SizesNotNegative(init);
    }
  }

  lemma TablesConsistent(chunks: seq<Chunk>, common: int)
    requires Writable(chunks) && Listed(common, AllSizes(chunks))
    ensures Consistent(TablesOf(chunks, common))
  {
    RunsFit(chunks, common);
    SizesNotNegative(chunks);
    FirstSampleIs(chunks, common, |chunks| + 1);
    assert chunks[..|chunks|] == chunks;
    hide RunStarts, RunCounts, RunsOk, FirstSample;
  }

  /** Sample k of chunk c, among all samples. */
  lemma {:induction false} InAll(chunks: seq<Chunk>, c: nat, k: nat)
    requires c < |chunks| && k < |chunks[c].sizes|
    ensures var i := |AllSizes(chunks[..c])| + k;
      && i < |AllSizes(chunks)| && AllSizes(chunks)[i] == chunks[c].sizes[k]
      && AllStarts(chunks)[i] == ChunkStarts(chunks[c].offset, chunks[c].sizes)[k]
    decreases |chunks|
  {
    var init := chunks[..|chunks| - 1];
    if c == |chunks| - 1 {
      assert chunks[..c] == init;
    } else {
      assert init[c] == chunks[c] && init[..c] == chunks[..c];
      InAll(init, c, k);
    }
  }

  /** Every sample is one of a chunk. */
  lemma {:induction false} Find(chunks: seq<Chunk>, i: nat) returns (c: nat, k: nat)
    requires i < |AllSizes(chunks)|
    ensures c < |chunks| && k < |chunks[c].sizes| && i == |AllSizes(chunks[..c])| + k
    decreases |chunks|
  {
    var init := chunks[..|chunks| - 1];
    if i < |AllSizes(init)| {
      c, k := Find(init, i);
      assert init[c] == chunks[c] && init[..c] == chunks[..c];
    } else {
      c, k := |chunks| - 1, i - |AllSizes(init)|;
      assert chunks[..c] == init;
    }
  }

  lemma {:induction false} StartsAt(offset: int, sizes: seq<int>, k: nat)
    requires k < |sizes|
    ensures ChunkStarts(offset, sizes)[k] == offset + Sum(sizes[..k])
    decreases |sizes|
  {
    if k < |sizes| - 1 {
      var init := sizes[..|sizes| - 1];
      StartsAt(offset, init, k);
      assert init[..k] == sizes[..k];
    }
  }

  lemma SampleSizeIs(chunks: seq<Chunk>, common: int, i: nat)
    requires Writable(chunks) && Listed(common, AllSizes(chunks)) && i < |AllSizes(chunks)|
    ensures SizesOk(TablesOf(chunks, common))
    ensures SampleSize(TablesOf(chunks, common), i) == AllSizes(chunks)[i]
  {
    SizesNotNegative(chunks);
    hide RunStarts, RunCounts;
  }

  lemma {:induction false} SizeSumIs(t: Tables, a: nat, sizes: seq<int>, k: nat)
    requires SizesOk(t) && a + |sizes| <= t.sampleCount && k <= |sizes|
    requires forall j :: 0 <= j < |sizes| ==> SampleSize(t, a + j) == sizes[j]
    ensures SizeSum(t, a, a + k) == Sum(sizes[..k])
    decreases k
  {
    if k > 0 {
      SizeSumIs(t, a, sizes, k - 1);
      hide SizesOk, SampleSize;
      assert sizes[..k][..k - 1] == sizes[..k - 1];
      assert SampleSize(t, a + (k - 1)) == sizes[k - 1];
    }
  }

  lemma SampleInChunk(chunks: seq<Chunk>, common: int, c: nat, k: nat)
    requires Writable(chunks) && Listed(common, AllSizes(chunks)) && c < |chunks| && k < |chunks[c].sizes|
    ensures var t, i := TablesOf(chunks, common), |AllSizes(chunks[..c])| + k;
      SizesOk(t) && i < t.sampleCount == |AllSizes(chunks)| && SampleSize(t, i) == chunks[c].sizes[k]
  {
    hide *;
    InAll(chunks, c, k);
    SampleSizeIs(chunks, common, |AllSizes(chunks[..c])| + k);
    OffsetIs(chunks, common, c);
  }

  lemma OffsetIs(chunks: seq<Chunk>, common: int, c: nat)
    requires c < |chunks|
    ensures var t := TablesOf(chunks, common);
      |t.chunkOffset| == |chunks| && t.chunkOffset[c] == chunks[c].offset && t.sampleCount == |AllSizes(chunks)|
  {
  }

  /** The samples of one chunk, in the tables of all. */
  lemma ChunkSizes(chunks: seq<Chunk>, common: int, c: nat)
    requires Writable(chunks) && Listed(common, AllSizes(chunks)) && c < |chunks|
    ensures var t, a := TablesOf(chunks, common), |AllSizes(chunks[..c])|;
      && SizesOk(t) && a + |chunks[c].sizes| <= t.sampleCount
      && forall j :: 0 <= j < |chunks[c].sizes| ==> SampleSize(t, a + j) == chunks[c].sizes[j]
  {
    hide AllSizes, AllStarts, TablesOf, SampleSize, SizesOk, Listed;
    var t, a := TablesOf(chunks, common), |AllSizes(chunks[..c])|;
    SampleInChunk(chunks, common, c, |chunks[c].sizes| - 1);
    forall j | 0 <= j < |chunks[c].sizes| ensures SampleSize(t, a + j) == chunks[c].sizes[j] {
      SampleInChunk(chunks, common, c, j);
    }
  }

  lemma PositionInChunk(t: Tables, c: int, k: nat)
    requires Consistent(t) && 1 <= c <= |t.chunkOffset| && k < PerChunk(t, c)
    requires FirstSample(t, c) + k < t.sampleCount
    ensures Position(t, FirstSample(t, c) + k)
         == t.chunkOffset[c - 1] + SizeSum(t, FirstSample(t, c), FirstSample(t, c) + k)
  {
    hide FirstSample, PerChunk, SizeSum, RunsOk, SizesOk;
    var i := FirstSample(t, c) + k;
    assert InChunk(t, c, i);
    ChunkUnique(t, i, ChunkOf(t, i), c);
  }

  /** A sample is found where its chunk put it. */
  lemma PositionIs(chunks: seq<Chunk>, common: int, c: nat, k: nat)
    requires Writable(chunks) && Listed(common, AllSizes(chunks)) && c < |chunks| && k < |chunks[c].sizes|
    ensures var t, i := TablesOf(chunks, common), |AllSizes(chunks[..c])| + k;
      Consistent(t) && i < t.sampleCount && Position(t, i) == chunks[c].offset + Sum(chunks[c].sizes[..k])
  {
    hide *;
    var t, a := TablesOf(chunks, common), |AllSizes(chunks[..c])|;
    TablesConsistent(chunks, common);
    FirstSampleIs(chunks, common, c + 1);
    assert chunks[..c + 1 - 1] == chunks[..c];
    PerChunkIs(chunks, common, c + 1);
    ChunkSizes(chunks, common, c);
    SizeSumIs(t, a, chunks[c].sizes, k);
    OffsetIs(chunks, common, c);
    PositionInChunk(t, c + 1, k);
  }

  lemma SampleLaidOut(chunks: seq<Chunk>, common: int, i: nat)
    requires Writable(chunks) && Listed(common, AllSizes(chunks)) && i < |AllSizes(chunks)|
    ensures var t := TablesOf(chunks, common);
      && Consistent(t) && i < t.sampleCount && |AllStarts(chunks)| == |AllSizes(chunks)|
      && AllStarts(chunks)[i] == Position(t, i) && AllSizes(chunks)[i] == SampleSize(t, i)
  {
    hide *;
    var c, k := Find(chunks, i);
    PositionIs(chunks, common, c, k);
    InAll(chunks, c, k);
    StartsAt(chunks[c].offset, chunks[c].sizes, k);
    SampleSizeIs(chunks, common, i);
  }

  /** The tables of any chunks lay the samples out where the chunks have them. */
  lemma ChunksLaidOut(chunks: seq<Chunk>, common: int)
    requires Writable(chunks) && Listed(common, AllSizes(chunks))
    ensures Consistent(TablesOf(chunks, common)) && LaysOut(TablesOf(chunks, common), LayoutOf(chunks))
  {
    hide AllSizes, AllStarts, Position, SampleSize, RunsOk, SizesOk, FirstSample, RunStarts, RunCounts, Listed;
    hide Writable;
    TablesConsistent(chunks, common);
    forall i | 0 <= i < |AllSizes(chunks)|
      ensures AllStarts(chunks)[i] == Position(TablesOf(chunks, common), i)
      ensures AllSizes(chunks)[i] == SampleSize(TablesOf(chunks, common), i)
    {
      SampleLaidOut(chunks, common, i);
    }
  }
}
