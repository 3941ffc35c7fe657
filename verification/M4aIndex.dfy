// The sample index of the M4A unpacker: where the flat tables of a track put each
// sample.

module M4aTables {
  // The flat tables of sections 8.7.3, 8.7.4 and 8.7.5 of ISO/IEC 14496-12
  // and the meaning they give to "the position of a sample".

  /** One track's sample tables, unfolded into memory. */
  datatype Tables = Tables(
    firstChunk: seq<int>,     // stsc: first chunk of each run, 1-based
    perChunk: seq<int>,       // stsc: samples per chunk of each run
    chunkOffset: seq<int>,    // stco: file offset of each chunk
    sampleSize: int,          // stsz: the common size, or 0
    sizes: seq<int>,          // stsz: one size per sample when sampleSize is 0
    sampleCount: int          // stsz: number of samples
  )

  predicate RunsOk(t: Tables) {
    && 0 < |t.firstChunk| == |t.perChunk|
    && t.firstChunk[0] == 1
    && (forall i, j :: 0 <= i < j < |t.firstChunk| ==> t.firstChunk[i] < t.firstChunk[j])
    && (forall i :: 0 <= i < |t.perChunk| ==> t.perChunk[i] > 0)
    && t.firstChunk[|t.firstChunk| - 1] <= |t.chunkOffset|
  }

  /** The run of the sample-to-chunk table that chunk c belongs to: the last
      one, among the first n, that starts no later than c. */
  function RunOf(t: Tables, c: int, n: nat): (e: nat)
    requires RunsOk(t) && 1 <= c && 1 <= n <= |t.firstChunk|
    ensures e < n && t.firstChunk[e] <= c
    ensures forall k :: e < k < n ==> c < t.firstChunk[k]
  {
    if t.firstChunk[n - 1] <= c then n - 1 else RunOf(t, c, n - 1)
  }

  /** The sample-to-chunk table expanded to one entry per chunk. */
  function PerChunk(t: Tables, c: int): (n: int)
    requires RunsOk(t) && 1 <= c
    ensures n > 0
  {
    t.perChunk[RunOf(t, c, |t.firstChunk|)]
  }

  /** Number of the first sample of chunk c. */
  function FirstSample(t: Tables, c: int): (s: int)
    requires RunsOk(t) && 1 <= c
    ensures s >= 0
    decreases c
  {
    if c == 1 then 0 else FirstSample(t, c - 1) + PerChunk(t, c - 1)
  }

  predicate SizesOk(t: Tables) {
    && 0 <= t.sampleSize
    && (t.sampleSize == 0 ==> |t.sizes| == t.sampleCount)
    && (forall i :: 0 <= i < |t.sizes| ==> 0 <= t.sizes[i])
  }

  function SampleSize(t: Tables, s: int): int
    requires 0 <= s < t.sampleCount && SizesOk(t)
  {
    if t.sampleSize > 0 then t.sampleSize else t.sizes[s]
  }

  /** Total size of samples a, a+1, ..., b-1. */
  function SizeSum(t: Tables, a: int, b: int): (n: int)
    requires SizesOk(t) && 0 <= a <= b <= t.sampleCount
    ensures n >= 0
    decreases b
  {
    if a == b then 0 else SizeSum(t, a, b - 1) + SampleSize(t, b - 1)
  }

  /** Tables that agree with each other. */
  predicate Consistent(t: Tables) {
    && RunsOk(t)
    && SizesOk(t)
    && FirstSample(t, |t.chunkOffset| + 1) == t.sampleCount
  }

  /** Chunk c holds sample s. */
  predicate InChunk(t: Tables, c: int, s: int)
    requires RunsOk(t)
  {
    1 <= c <= |t.chunkOffset| && FirstSample(t, c) <= s < FirstSample(t, c) + PerChunk(t, c)
  }

  /** The chunk, counted from c, that holds sample s. */
  function ChunkFrom(t: Tables, s: int, c: int): (r: int)
    requires Consistent(t) && 1 <= c <= |t.chunkOffset|
    requires FirstSample(t, c) <= s < t.sampleCount
    ensures InChunk(t, r, s)
    decreases |t.chunkOffset| - c
  {
    if s < FirstSample(t, c) + PerChunk(t, c) then c
    else
      assert FirstSample(t, c + 1) == FirstSample(t, c) + PerChunk(t, c);
      ChunkFrom(t, s, c + 1)
  }

  function ChunkOf(t: Tables, s: int): (c: int)
    requires Consistent(t) && 0 <= s < t.sampleCount
    ensures InChunk(t, c, s)
  {
    ChunkFrom(t, s, 1)
  }

  /** File position of sample s: its chunk's offset plus the sizes of the
      samples before it in that chunk. */
  function Position(t: Tables, s: int): int
    requires Consistent(t) && 0 <= s < t.sampleCount
  {
    var c := ChunkOf(t, s);
    FirstSampleMono(t, c + 1, |t.chunkOffset| + 1);
    t.chunkOffset[c - 1] + SizeSum(t, FirstSample(t, c), s)
  }

  lemma {:induction false} FirstSampleMono(t: Tables, c: int, d: int)
    requires RunsOk(t) && 1 <= c <= d
    ensures FirstSample(t, c) <= FirstSample(t, d)
    ensures c < d ==> FirstSample(t, c) + PerChunk(t, c) <= FirstSample(t, d)
    decreases d - c
  {
    if c < d { FirstSampleMono(t, c, d - 1); }
  }

  /** A sample lies in one chunk only. */
  lemma ChunkUnique(t: Tables, s: int, c: int, d: int)
    requires RunsOk(t) && InChunk(t, c, s) && InChunk(t, d, s)
    ensures c == d
  {
    if c < d { FirstSampleMono(t, c, d); }
    if d < c { FirstSampleMono(t, d, c); }
  }

  lemma {:induction false} SizeSumSplit(t: Tables, a: int, b: int, c: int)
    requires SizesOk(t) && 0 <= a <= b <= c <= t.sampleCount
    ensures SizeSum(t, a, c) == SizeSum(t, a, b) + SizeSum(t, b, c)
    decreases c
  {
    if b < c { SizeSumSplit(t, a, b, c - 1); }
  }

  /** A chunk of run e takes its sample count from run e. */
  lemma RunIs(t: Tables, e: nat, c: int)
    requires RunsOk(t) && e < |t.firstChunk|
    requires 1 <= c && t.firstChunk[e] <= c && (e + 1 < |t.firstChunk| ==> c < t.firstChunk[e + 1])
    ensures PerChunk(t, c) == t.perChunk[e]
  {
    var f := RunOf(t, c, |t.firstChunk|);
    assert f <= e;
    assert f == e;
  }

  /** k steps of n from start. */
  function Steps(start: int, k: nat, n: int): int {
    if k == 0 then start else Steps(start, k - 1, n) + n
  }

  lemma {:induction false} StepsIsProduct(start: int, k: nat, n: int)
    ensures Steps(start, k, n) == start + k * n
  {
    if k > 0 {
      StepsIsProduct(start, k - 1, n);
      assert k * n == (k - 1) * n + n;
    }
  }

  lemma {:induction false} RunStepsFrom(t: Tables, e: nat, k: nat)
    requires RunsOk(t) && e < |t.firstChunk| && 1 <= t.firstChunk[e]
    requires e + 1 < |t.firstChunk| ==> t.firstChunk[e] + k <= t.firstChunk[e + 1]
    ensures FirstSample(t, t.firstChunk[e] + k) == Steps(FirstSample(t, t.firstChunk[e]), k, t.perChunk[e])
  {
    if k > 0 {
      RunStepsFrom(t, e, k - 1);
      RunIs(t, e, t.firstChunk[e] + (k - 1));
      hide RunsOk, PerChunk;
    }
  }

  /** Inside one run of the sample-to-chunk table, chunks start at equal steps. */
  lemma RunSteps(t: Tables, e: nat, c: int)
    requires RunsOk(t) && e < |t.firstChunk| && 1 <= t.firstChunk[e] <= c
    requires e + 1 < |t.firstChunk| ==> c <= t.firstChunk[e + 1]
    ensures FirstSample(t, c) == FirstSample(t, t.firstChunk[e]) + (c - t.firstChunk[e]) * t.perChunk[e]
  {
    var k := c - t.firstChunk[e];
    hide PerChunk, FirstSample;
    RunStepsFrom(t, e, k);
    assert t.firstChunk[e] + k == c;
    hide RunsOk;
    StepsIsProduct(FirstSample(t, t.firstChunk[e]), k, t.perChunk[e]);
  }

  lemma {:induction false} UniformSizeSum(t: Tables, a: int, b: int)
    requires SizesOk(t) && t.sampleSize > 0 && 0 <= a <= b <= t.sampleCount
    ensures SizeSum(t, a, b) == (b - a) * t.sampleSize
    decreases b
  {
    if a < b {
      UniformSizeSum(t, a, b - 1);
      assert (b - a) * t.sampleSize == (b - 1 - a) * t.sampleSize + t.sampleSize;
    }
  }
}
