// The windowed sample index of lightduer_m4a_unpacker.c: 100 sizes and 128 chunk
// offsets at a time, reloaded from the stream on demand, so that every look-up
// answers as the flat tables would.

module M4aUnpacker {
  import opened Bytes
  import opened M4aTables

  const MAX_TRACKS: int := 5
  const MAX_SUBCHUNK_SAMPLES: int := 100
  const MAX_NUM_STCO_LOAD: int := 128

  const M4A_ERROR_OK: int := 0
  const M4A_ERROR_UNSPECIFIELD: int := -1

  /** The byte swap applied to size-table entries on a little-endian machine. */
  function Big2Little(x: int): int
    requires 0 <= x < TWO_32
  {
    x % 0x100 * 0x100_0000 + x / 0x100 % 0x100 * 0x1_0000 + x / 0x1_0000 % 0x100 * 0x100 + x / 0x100_0000
  }

  /** Reading four bytes in the machine's order and swapping them when that
      order is little-endian gives the big-endian value. */
  lemma SwapIsBigEndian(s: seq<byte>, p: nat)
    requires p + 4 <= |s|
    ensures Big2Little(Le32(s, p)) == Be32(s, p)
  {
    var a, b, c, d := s[p] as int, s[p + 1] as int, s[p + 2] as int, s[p + 3] as int;
    var x := Le32(s, p);
    LowByte(a, b + c * 0x100 + d * 0x1_0000, x);
    LowByte(b, c + d * 0x100, x / 0x100);
    LowByte(c, d, x / 0x1_0000);
    assert x / 0x100_0000 == x / 0x1_0000 / 0x100;
  }

  lemma LowByte(a: int, y: int, x: int)
    requires 0 <= a < 0x100 && 0 <= y && x == a + y * 0x100
    ensures x % 0x100 == a && x / 0x100 == y
    ensures x / 0x1_0000 == y / 0x100
  {
  }

  /** What the header boxes say about a track. */
  datatype TrackView = TrackView(
    isAudio: bool,
    sampleSize: int,
    sampleCount: int,
    sizesAt: int,             // stream position of the size table
    sttsCounts: seq<int>,
    firstChunk: seq<int>,
    perChunk: seq<int>,
    chunkCount: int,
    offsetsAt: int,           // stream position of the chunk-offset table
    offsets: seq<int>         // its first 128 entries
  )

  const EMPTY_TRACK := TrackView(false, 0, 0, 0, [], [], [], 0, 0, [])

  /** A track: its sample tables and the windows onto the two long ones. */
  class Track {
    var isAudio: bool
    var stszSampleSize: int
    var stszSampleCount: int
    var stszTable: array<int>           // sizes of the current subchunk; empty until first needed
    var stszTableOffset: int
    var sttsSampleCount: seq<int>
    var stscFirstChunk: seq<int>
    var stscSamplesPerChunk: seq<int>
    var stcoEntryCount: int
    var stcoChunkOffset: array<int>   // offsets of up to 128 chunks
    var stcoTableOffset: int
    var stcoFirstChunkLoaded: int

    var currentChunk: int
    var currentChunkFirstSample: int
    var currentChunkSamples: int
    var currentChunkOffset: int
    var currentSubchunkFirstSample: int
    var currentSubchunkSamples: int
    var currentSubchunkOffset: int

    /** A track with the tables the header described, before any look-up. */
    constructor (v: TrackView)
      ensures fresh(stszTable) && fresh(stcoChunkOffset) && stszTable != stcoChunkOffset
      ensures View() == v && NothingCurrent() && stcoFirstChunkLoaded == 0 && stszTable.Length == 0
    {
      isAudio := v.isAudio;
      stszSampleSize, stszSampleCount, stszTableOffset := v.sampleSize, v.sampleCount, v.sizesAt;
      stszTable := new int[0];
      sttsSampleCount, stscFirstChunk, stscSamplesPerChunk := v.sttsCounts, v.firstChunk, v.perChunk;
      stcoEntryCount, stcoTableOffset, stcoFirstChunkLoaded := v.chunkCount, v.offsetsAt, 0;
      stcoChunkOffset := new int[|v.offsets|](i requires 0 <= i < |v.offsets| => v.offsets[i]);
      currentChunk, currentChunkFirstSample, currentChunkSamples, currentChunkOffset := 0, 0, 0, 0;
      currentSubchunkFirstSample, currentSubchunkSamples, currentSubchunkOffset := 0, 0, 0;
      new;
      assert stcoChunkOffset[..] == v.offsets;
    }

    function View(): TrackView
      reads this, stcoChunkOffset
    {
      TrackView(isAudio, stszSampleSize, stszSampleCount, stszTableOffset, sttsSampleCount, stscFirstChunk,
                stscSamplesPerChunk, stcoEntryCount, stcoTableOffset, stcoChunkOffset[..])
    }

    /** No chunk was looked up yet. */
    predicate NothingCurrent()
      reads this
    {
      && currentChunk == currentChunkFirstSample == currentChunkSamples == currentChunkOffset == 0
      && currentSubchunkFirstSample == currentSubchunkSamples == currentSubchunkOffset == 0
    }

    /** The track fields stand for the flat tables t, whose two long tables
        are in the stream. */
    ghost predicate Describes(stream: seq<byte>, t: Tables)
      reads `stscFirstChunk, `stscSamplesPerChunk, `stszSampleSize, `stszSampleCount
      reads `stcoEntryCount, `stcoTableOffset, `stszTableOffset, `sttsSampleCount
    {
      && Consistent(t)
      && stscFirstChunk == t.firstChunk
      && stscSamplesPerChunk == t.perChunk
      && stszSampleSize == t.sampleSize
      && stszSampleCount == t.sampleCount
      && stcoEntryCount == |t.chunkOffset|
      && InStream(stream, stcoTableOffset, t.chunkOffset)
      && (t.sampleSize == 0 ==> InStream(stream, stszTableOffset, t.sizes))
      && Total(sttsSampleCount) == t.sampleCount
    }

    /** The chunk-offset window holds the entries it claims to hold. */
    ghost predicate OffsetWindow(t: Tables)
      reads `stcoFirstChunkLoaded, `stcoChunkOffset, stcoChunkOffset
    {
      && 0 <= stcoFirstChunkLoaded <= |t.chunkOffset|
      && stcoChunkOffset.Length == Min(|t.chunkOffset|, MAX_NUM_STCO_LOAD)
      && (forall i :: 0 <= i < MAX_NUM_STCO_LOAD && stcoFirstChunkLoaded + i < |t.chunkOffset| ==>
            i < stcoChunkOffset.Length && stcoChunkOffset[i] == t.chunkOffset[stcoFirstChunkLoaded + i])
    }

    /** The current chunk, or nothing at all when no sample was asked for yet. */
    ghost predicate CurrentChunk(t: Tables)
      requires Consistent(t)
      reads `currentChunk, `currentChunkFirstSample, `currentChunkSamples, `currentChunkOffset
    {
      if currentChunkSamples == 0 then currentChunkFirstSample == 0
      else
        && 1 <= currentChunk <= |t.chunkOffset|
        && currentChunkFirstSample == FirstSample(t, currentChunk)
        && currentChunkSamples == PerChunk(t, currentChunk)
        && currentChunkOffset == t.chunkOffset[currentChunk - 1]
    }

    function ChunkEnd(): int
      reads `currentChunkFirstSample, `currentChunkSamples
    {
      currentChunkFirstSample + currentChunkSamples
    }

    /** The size window lies in the current chunk and holds those samples' sizes. */
    ghost predicate SizesLoaded(t: Tables)
      requires SizesOk(t)
      reads `currentChunkFirstSample, `currentChunkSamples, `currentChunkOffset, `stszTable, stszTable
      reads `currentSubchunkFirstSample, `currentSubchunkSamples, `currentSubchunkOffset
    {
      && 0 <= currentChunkFirstSample <= currentSubchunkFirstSample
      && 0 <= currentSubchunkSamples
      && currentSubchunkFirstSample + currentSubchunkSamples <= ChunkEnd() <= t.sampleCount
      && (currentChunkSamples > 0 ==>
            currentSubchunkOffset == currentChunkOffset
                + SizeSum(t, currentChunkFirstSample, currentSubchunkFirstSample))
      && (t.sampleSize == 0 ==>
            && (stszTable.Length == MAX_SUBCHUNK_SAMPLES || (stszTable.Length == 0 && currentSubchunkSamples == 0))
            && currentSubchunkSamples <= MAX_SUBCHUNK_SAMPLES
            && (forall i :: 0 <= i < currentSubchunkSamples ==>
                  stszTable[i] == t.sizes[currentSubchunkFirstSample + i]))
    }

    /** The size window is as long as it can be: 100 samples, or up to the
        chunk's end (where it may be empty); or the whole chunk when all
        samples have one size. */
    ghost predicate FullWindow(t: Tables)
      reads `currentChunkFirstSample, `currentChunkSamples
      reads `currentSubchunkFirstSample, `currentSubchunkSamples
    {
      if t.sampleSize == 0 then
        && currentSubchunkSamples == Min(MAX_SUBCHUNK_SAMPLES, ChunkEnd() - currentSubchunkFirstSample)
      else
        && currentSubchunkFirstSample == currentChunkFirstSample
        && currentSubchunkSamples == currentChunkSamples
    }

    /** Everything but the size window. */
    ghost predicate Located(stream: seq<byte>, t: Tables)
      reads this, stcoChunkOffset
    {
      && stcoChunkOffset != stszTable
      && Describes(stream, t)
      && OffsetWindow(t)
      && CurrentChunk(t)
    }

    ghost predicate Valid(stream: seq<byte>, t: Tables)
      reads this, stcoChunkOffset, stszTable
    {
      && Located(stream, t)
      && SizesLoaded(t)
      && FullWindow(t)
    }

    /** Sample s can be answered from the window. */
    predicate Covers(s: int)
      reads this
    {
      currentSubchunkFirstSample <= s < currentSubchunkFirstSample + currentSubchunkSamples
    }
  }

  /** A count from the window's start up to the sample stays inside the size
      table, be its entries current or left over. */
  predicate Readable(track: Track, sample: int)
    reads track
  {
    sample >= track.stszSampleCount || track.stszSampleSize > 0
    || sample - track.currentSubchunkFirstSample <= track.stszTable.Length
  }

  lemma CoveredReadable(stream: seq<byte>, track: Track, sample: int, t: Tables)
    requires track.Valid(stream, t) && track.Covers(sample)
    ensures Readable(track, sample)
  {
    hide Track.OffsetWindow, Track.CurrentChunk, Track.FullWindow;
  }

  function Min(a: int, b: int): int { if a < b then a else b }

  function Total(s: seq<int>): int {
    if s == [] then 0 else Total(s[..|s| - 1]) + s[|s| - 1]
  }

  /** The stream holds the given values as consecutive big-endian words, each
      of them representable as a non-negative 32-bit integer. */
  ghost predicate InStream(stream: seq<byte>, at: int, values: seq<int>) {
    && 0 <= at && at + 4 * |values| <= |stream|
    && (forall i :: 0 <= i < |values| ==> 0 <= values[i] < TWO_31 && Be32(stream, at + 4 * i) == values[i])
  }

  /** The unpacker: a seekable stream, a position in it, and its tracks. */
  class Unpacker {
    const stream: seq<byte>
    const littleEndian: bool
    var currentPosition: int
    var tracks: seq<TrackView>          // what the header boxes said

    constructor (stream: seq<byte>, littleEndian: bool)
      ensures this.stream == stream && this.littleEndian == littleEndian
      ensures currentPosition == 0 && tracks == []
    {
      this.stream, this.littleEndian := stream, littleEndian;
      currentPosition, tracks := 0, [];
    }

    method SetPosition(position: int)
      modifies `currentPosition
      ensures currentPosition == position
    {
      currentPosition := position;
    }

    /** Reads size bytes, or nothing when the stream cannot supply them all;
        the position moves on either way. */
    method ReadData(size: nat) returns (data: seq<byte>, result: nat)
      requires 0 <= currentPosition
      modifies `currentPosition
      ensures currentPosition == old(currentPosition) + size
      ensures old(currentPosition) + size <= |stream| ==>
                result == size && data == stream[old(currentPosition)..old(currentPosition) + size]
      ensures old(currentPosition) + size > |stream| ==> result == 0 && data == []
    {
      if currentPosition + size <= |stream| {
        data, result := stream[currentPosition..currentPosition + size], size;
      } else {
        data, result := [], 0;
      }
      currentPosition := currentPosition + size;
    }

    /** A big-endian word; its value is left open when the stream ends first. */
    method ReadInt32() returns (v: int)
      requires 0 <= currentPosition
      modifies `currentPosition
      ensures currentPosition == old(currentPosition) + 4
      ensures old(currentPosition) + 4 <= |stream| ==> v == Be32(stream, old(currentPosition))
    {
      var data, result := ReadData(4);
      if result != 4 { return *; }
      v := (data[0] as int) * 0x100_0000 + (data[1] as int) * 0x1_0000 + (data[2] as int) * 0x100 + (data[3] as int);
    }

    /** Total of the time-to-sample counts. */
    method GetSamplesNumber(track: Track) returns (total: int)
      ensures total == Total(track.sttsSampleCount)
    {
      var i := 0;
      total := 0;
      var counts := track.sttsSampleCount;
      while i < |counts|
        invariant 0 <= i <= |counts| && total == Total(counts[..i])
      {
        assert counts[..i + 1][..i] == counts[..i];
        total := total + counts[i];
        i := i + 1;
      }
      assert counts[..i] == counts;
    }

    /** Walks the sample-to-chunk runs to the one that holds a sample. */
    static method RunOfSample(stscFirstChunk: seq<int>, stscSamplesPerChunk: seq<int>, sample: int,
                              ghost t: Tables)
      returns (chunk: int, totalSamples: int, samplesPerChunk: int, ghost e: nat)
      requires Consistent(t) && 0 <= sample < t.sampleCount
      requires stscFirstChunk == t.firstChunk && stscSamplesPerChunk == t.perChunk
      ensures e < |t.firstChunk| && chunk == t.firstChunk[e] && samplesPerChunk == t.perChunk[e]
      ensures totalSamples == FirstSampleOfRun(t, e) <= sample
      ensures 1 <= chunk && totalSamples == FirstSample(t, chunk) && samplesPerChunk == PerChunk(t, chunk)
      ensures e + 1 < |t.firstChunk| ==> sample < FirstSampleOfRun(t, e + 1)
    {
      var i := 0;
      chunk, totalSamples, samplesPerChunk := 1, 0, 0;
      while i < |stscFirstChunk|
        invariant 0 <= i <= |t.firstChunk|
        invariant i == 0 ==> chunk == 1 && totalSamples == 0 && samplesPerChunk == 0
        invariant i > 0 ==> chunk == t.firstChunk[i - 1] && samplesPerChunk == t.perChunk[i - 1]
        invariant i > 0 ==> totalSamples == FirstSampleOfRun(t, i - 1) <= sample
      {
        var nextChunk := stscFirstChunk[i];
        var rangeSamples := (nextChunk - chunk) * samplesPerChunk;
        NextRun(t, i, totalSamples, rangeSamples);
        if sample < totalSamples + rangeSamples {
          break;
        }
        samplesPerChunk := stscSamplesPerChunk[i];
        chunk := nextChunk;
        totalSamples := totalSamples + rangeSamples;
        i := i + 1;
      }
      e := i - 1;
      RunIs(t, e, chunk);
    }

    /** Finds the chunk of a sample. */
    method ChunkOfSample(track: Track, sample: int, ghost t: Tables)
      requires Consistent(t) && 0 <= sample < t.sampleCount
      requires track.stscFirstChunk == t.firstChunk && track.stscSamplesPerChunk == t.perChunk
      modifies track`currentChunk, track`currentChunkFirstSample, track`currentChunkSamples
      ensures track.currentChunk == ChunkOf(t, sample)
      ensures track.currentChunkFirstSample == FirstSample(t, track.currentChunk)
      ensures track.currentChunkFirstSample <= sample < track.ChunkEnd() <= t.sampleCount
      ensures track.currentChunkSamples == PerChunk(t, track.currentChunk)
    {
      var chunk, totalSamples, samplesPerChunk, e :=
        RunOfSample(track.stscFirstChunk, track.stscSamplesPerChunk, sample, t);
      assert samplesPerChunk > 0;
      hide Consistent, RunsOk, SizesOk, FirstSample, PerChunk, ChunkOf, FirstSampleOfRun;
      var destChunk := 1;
      if samplesPerChunk > 0 {
        destChunk := (sample - totalSamples) / samplesPerChunk + chunk;
      }
      DestChunkEnds(t, e, sample, destChunk);
      track.currentChunk := destChunk;
      track.currentChunkFirstSample := totalSamples + (destChunk - chunk) * samplesPerChunk;
      track.currentChunkSamples := samplesPerChunk;
    }

    /** Loads num chunk offsets, starting with the window's first one. */
    method LoadOffsets(track: Track, num: int, ghost t: Tables)
      requires InStream(stream, track.stcoTableOffset, t.chunkOffset)
      requires 0 <= track.stcoFirstChunkLoaded && 0 <= num <= track.stcoChunkOffset.Length
      requires track.stcoFirstChunkLoaded + num <= |t.chunkOffset|
      modifies `currentPosition, track.stcoChunkOffset
      ensures forall k :: 0 <= k < num ==>
                track.stcoChunkOffset[k] == t.chunkOffset[track.stcoFirstChunkLoaded + k]
    {
      ghost var first := track.stcoFirstChunkLoaded;
      SetPosition(track.stcoTableOffset + track.stcoFirstChunkLoaded * 4);
      var i := 0;
      while i < num
        invariant 0 <= i <= num
        invariant currentPosition == track.stcoTableOffset + (first + i) * 4
        invariant forall k :: 0 <= k < i ==> track.stcoChunkOffset[k] == t.chunkOffset[first + k]
      {
        assert Be32(stream, track.stcoTableOffset + 4 * (first + i)) == t.chunkOffset[first + i];
        var v := ReadInt32();
        track.stcoChunkOffset[i] := AsInt32(v);
        i := i + 1;
      }
    }

    /** Moves the 128-entry window to a chunk (counted from 0) outside it. */
    method MoveOffsetWindow(track: Track, chunk: int, ghost t: Tables)
      requires track.stcoEntryCount == |t.chunkOffset| && 0 <= chunk < |t.chunkOffset|
      requires InStream(stream, track.stcoTableOffset, t.chunkOffset)
      requires track.stcoChunkOffset.Length == Min(|t.chunkOffset|, MAX_NUM_STCO_LOAD)
      modifies `currentPosition, track`stcoFirstChunkLoaded, track.stcoChunkOffset
      ensures track.OffsetWindow(t) && currentPosition == old(currentPosition)
      ensures track.stcoFirstChunkLoaded <= chunk < track.stcoFirstChunkLoaded + MAX_NUM_STCO_LOAD
    {
      hide InStream;
      var lastPosition := currentPosition;
      track.stcoFirstChunkLoaded := chunk - chunk % MAX_NUM_STCO_LOAD;
      var num := track.stcoEntryCount - track.stcoFirstChunkLoaded;
      num := if num < MAX_NUM_STCO_LOAD then num else MAX_NUM_STCO_LOAD;
      LoadOffsets(track, num, t);
      SetPosition(lastPosition);
    }

    /** Offset of a chunk, through the 128-entry window. */
    method ChunkToOffset(track: Track, chunkId: int, ghost t: Tables) returns (offset: int)
      requires track.stcoEntryCount == |t.chunkOffset|
      requires InStream(stream, track.stcoTableOffset, t.chunkOffset)
      requires track.OffsetWindow(t)
      modifies `currentPosition, track`stcoFirstChunkLoaded, track.stcoChunkOffset
      ensures track.OffsetWindow(t)
      ensures currentPosition == old(currentPosition)
      ensures 1 <= chunkId <= |t.chunkOffset| ==> offset == t.chunkOffset[chunkId - 1]
      ensures chunkId > |t.chunkOffset| > 0 ==> offset == t.chunkOffset[|t.chunkOffset| - 1]
      ensures chunkId < 1 || t.chunkOffset == [] ==> offset == 0
    {
      hide InStream;
      if track.stcoEntryCount == 0 { return 0; }
      var chunk := chunkId - 1;
      if chunk < 0 { return 0; }
      if chunk >= track.stcoEntryCount {
        chunk := track.stcoEntryCount - 1;
      }
      if chunk < track.stcoFirstChunkLoaded || chunk >= track.stcoFirstChunkLoaded + MAX_NUM_STCO_LOAD {
        MoveOffsetWindow(track, chunk, t);
      }
      var k := chunk - track.stcoFirstChunkLoaded;
      assert t.chunkOffset[track.stcoFirstChunkLoaded + k] == t.chunkOffset[chunk];
      offset := track.stcoChunkOffset[k];
    }

    /** Reads num size-table entries in the machine's byte order and swaps them. */
    method LoadSizes(track: Track, num: int, ghost t: Tables) returns (ret: int)
      requires InStream(stream, track.stszTableOffset, t.sizes)
      requires 0 <= num <= track.stszTable.Length
      requires 0 <= track.currentSubchunkFirstSample
      requires track.currentSubchunkFirstSample + num <= |t.sizes|
      modifies `currentPosition, track.stszTable
      ensures ret == M4A_ERROR_OK
      ensures forall i :: 0 <= i < num ==>
                track.stszTable[i] == t.sizes[track.currentSubchunkFirstSample + i]
    {
      ghost var first := track.currentSubchunkFirstSample;
      ghost var at := track.stszTableOffset;
      SetPosition(track.stszTableOffset + track.currentSubchunkFirstSample * 4);
      var data, result := ReadData(num * 4);
      if result != num * 4 { return M4A_ERROR_UNSPECIFIELD; }
      var i := 0;
      while i < num
        invariant 0 <= i <= num
        invariant forall k :: 0 <= k < i ==> track.stszTable[k] == t.sizes[first + k]
      {
        assert Be32(stream, at + 4 * (first + i)) == t.sizes[first + i];
        assert Be32(data, 4 * i) == t.sizes[first + i];
        if littleEndian {
          SwapIsBigEndian(data, 4 * i);
          track.stszTable[i] := AsInt32(Big2Little(Le32(data, 4 * i)));
        } else {
          track.stszTable[i] := AsInt32(Be32(data, 4 * i));
        }
        i := i + 1;
      }
      return M4A_ERROR_OK;
    }

    /** Moves the window's start past the samples it holds. */
    method PassSubchunk(track: Track, ghost t: Tables)
      requires SizesOk(t) && t.sampleSize == 0 && track.SizesLoaded(t) && track.currentChunkSamples > 0
      modifies track`currentSubchunkFirstSample, track`currentSubchunkOffset
      ensures track.currentSubchunkFirstSample
           == old(track.currentSubchunkFirstSample) + track.currentSubchunkSamples
      ensures track.currentSubchunkOffset == track.currentChunkOffset
                + SizeSum(t, track.currentChunkFirstSample, track.currentSubchunkFirstSample)
    {
      ghost var c, f := track.currentChunkFirstSample, track.currentSubchunkFirstSample;
      var i := 0;
      while i < track.currentSubchunkSamples
        invariant 0 <= i <= track.currentSubchunkSamples
        invariant track.currentSubchunkOffset == track.currentChunkOffset + SizeSum(t, c, f + i)
        modifies track`currentSubchunkOffset
      {
        assert SizeSum(t, c, f + i + 1) == SizeSum(t, c, f + i) + t.sizes[f + i];
        track.currentSubchunkOffset := track.currentSubchunkOffset + track.stszTable[i];
        i := i + 1;
      }
      track.currentSubchunkFirstSample :=
        track.currentSubchunkFirstSample + track.currentSubchunkSamples;
    }

    /** Moves the size window to the samples that follow it in its chunk. */
    method NextSubchunk(track: Track, ghost t: Tables) returns (ret: int)
      requires SizesOk(t) && t.sampleSize == 0 && track.SizesLoaded(t) && track.currentChunkSamples > 0
      requires track.stszTable.Length == MAX_SUBCHUNK_SAMPLES && InStream(stream, track.stszTableOffset, t.sizes)
      modifies `currentPosition, track.stszTable, track`currentSubchunkFirstSample
      modifies track`currentSubchunkSamples, track`currentSubchunkOffset
      ensures ret == M4A_ERROR_OK && track.SizesLoaded(t)
      ensures track.currentSubchunkFirstSample
           == old(track.currentSubchunkFirstSample + track.currentSubchunkSamples)
      ensures track.currentSubchunkFirstSample + track.currentSubchunkSamples <= track.ChunkEnd()
      ensures track.FullWindow(t)
    {
      assert |t.sizes| == t.sampleCount;
      hide InStream, SizesOk, SizeSum;
      if track.currentSubchunkSamples > 0 {
        PassSubchunk(track, t);
      }
      var num := track.currentChunkFirstSample + track.currentChunkSamples
               - track.currentSubchunkFirstSample;
      if num > MAX_SUBCHUNK_SAMPLES {
        num := MAX_SUBCHUNK_SAMPLES;
      }
      ret := LoadSizes(track, num, t);
      if ret < 0 { return; }
      track.currentSubchunkSamples := num;
    }

    /** A call that would step past the sample it is asked for: the sample is
        the first of a window that is shorter than 100 samples. */
    static ghost predicate StepsPast(track: Track, sample: int)
      reads track
    {
      && track.stszSampleSize == 0
      && track.currentSubchunkFirstSample == sample
      && 0 < track.currentSubchunkSamples < MAX_SUBCHUNK_SAMPLES
    }

    /** Goes to the chunk of a sample, with an empty size window. */
    method EnterChunk(track: Track, sample: int, ghost t: Tables)
      requires track.Describes(stream, t) && track.OffsetWindow(t) && 0 <= sample < t.sampleCount
      modifies `currentPosition, track`stcoFirstChunkLoaded, track.stcoChunkOffset
      modifies track`currentChunk, track`currentChunkFirstSample, track`currentChunkSamples
      modifies track`currentChunkOffset, track`currentSubchunkFirstSample
      modifies track`currentSubchunkSamples, track`currentSubchunkOffset
      ensures track.OffsetWindow(t) && track.CurrentChunk(t) && currentPosition == old(currentPosition)
      ensures 0 <= track.currentChunkFirstSample <= sample < track.ChunkEnd() <= t.sampleCount
      ensures track.currentSubchunkFirstSample == track.currentChunkFirstSample
      ensures track.currentSubchunkSamples == 0
      ensures track.currentSubchunkOffset == track.currentChunkOffset
    {
      assert Consistent(t) && track.stscFirstChunk == t.firstChunk && track.stscSamplesPerChunk == t.perChunk;
      assert InStream(stream, track.stcoTableOffset, t.chunkOffset) && track.stcoEntryCount == |t.chunkOffset|;
      hide Track.Describes, Track.OffsetWindow, InStream, Consistent, SizesOk, RunsOk, FirstSample, PerChunk, ChunkOf,
          InChunk;
      ChunkOfSample(track, sample, t);
      track.currentChunkOffset := ChunkToOffset(track, track.currentChunk, t);
      StartWindow(track);
    }

    /** An empty size window at the start of the chunk. */
    method StartWindow(track: Track)
      modifies track`currentSubchunkFirstSample, track`currentSubchunkSamples, track`currentSubchunkOffset
      ensures track.currentSubchunkFirstSample == track.currentChunkFirstSample && track.currentSubchunkSamples == 0
      ensures track.currentSubchunkOffset == track.currentChunkOffset
    {
      track.currentSubchunkFirstSample := track.currentChunkFirstSample;
      track.currentSubchunkSamples := 0;
      track.currentSubchunkOffset := track.currentChunkOffset;
    }

    /** Goes to the chunk of a sample outside the current one, or back to the
        start of the current chunk for a sample before the window. */
    method Reposition(track: Track, sample: int, ghost t: Tables)
      requires track.Valid(stream, t) && 0 <= sample < t.sampleCount
      requires track.currentSubchunkFirstSample < sample ==> !track.Covers(sample)
      modifies `currentPosition, track, track.stcoChunkOffset
      ensures track.stcoChunkOffset == old(track.stcoChunkOffset) && track.stszTable == old(track.stszTable)
      ensures track.Located(stream, t) && track.SizesLoaded(t)
      ensures track.currentSubchunkFirstSample <= sample < track.ChunkEnd() && track.currentChunkSamples > 0
      ensures track.currentSubchunkSamples == 0 || track.FullWindow(t)
      ensures t.sampleSize > 0 ==> track.currentSubchunkFirstSample == track.currentChunkFirstSample
      ensures StepsPast(track, sample) <==> old(StepsPast(track, sample))
      ensures track.currentSubchunkFirstSample < sample ==> !track.Covers(sample)
      ensures currentPosition == old(currentPosition)
      ensures var moved := old(sample < track.currentSubchunkFirstSample || sample >= track.ChunkEnd());
        && (moved ==> track.currentSubchunkFirstSample == track.currentChunkFirstSample
                      && track.currentSubchunkSamples == 0)
        && (!moved ==> track.currentSubchunkFirstSample == old(track.currentSubchunkFirstSample)
                       && track.currentSubchunkSamples == old(track.currentSubchunkSamples))
    {
      assert Consistent(t) && track.stszSampleSize == t.sampleSize && SizesOk(t);
      hide Track.Describes, Track.OffsetWindow, Track.CurrentChunk, Consistent, SizesOk;
      if sample < track.currentChunkFirstSample
        || sample >= track.currentChunkFirstSample + track.currentChunkSamples {
        EnterChunk(track, sample, t);
      } else if sample < track.currentSubchunkFirstSample {
        RewindSubchunk(track, t);
      }
    }

    /** Empties the window and moves it back to the start of its chunk. */
    method RewindSubchunk(track: Track, ghost t: Tables)
      requires SizesOk(t) && track.SizesLoaded(t)
      modifies track`currentSubchunkFirstSample, track`currentSubchunkSamples, track`currentSubchunkOffset
      ensures track.SizesLoaded(t)
      ensures track.currentSubchunkFirstSample == track.currentChunkFirstSample && track.currentSubchunkSamples == 0
    {
      StartWindow(track);
    }

    /** With one size for all samples the window is the whole chunk. */
    method WholeChunk(track: Track, ghost t: Tables)
      requires track.Located(stream, t) && t.sampleSize > 0 && track.SizesLoaded(t)
      requires track.currentSubchunkFirstSample == track.currentChunkFirstSample
      modifies track`currentSubchunkSamples
      ensures track.currentChunkSamples > 0 ==> track.Valid(stream, t)
      ensures track.currentSubchunkSamples == track.currentChunkSamples
    {
      track.currentSubchunkSamples := track.currentChunkSamples;
    }

    /** Moves the size window forward, a subchunk at a time, to a sample. */
    method StepTo(track: Track, sample: int, ghost t: Tables) returns (ret: int)
      requires SizesOk(t) && t.sampleSize == 0 && track.SizesLoaded(t) && track.currentChunkSamples > 0
      requires track.stszTable.Length == MAX_SUBCHUNK_SAMPLES && InStream(stream, track.stszTableOffset, t.sizes)
      requires track.stszSampleSize == 0
      requires track.currentSubchunkFirstSample <= sample < track.ChunkEnd()
      requires track.currentSubchunkSamples == 0 || track.FullWindow(t)
      requires track.currentSubchunkFirstSample < sample ==> !track.Covers(sample)
      modifies `currentPosition, track.stszTable, track`currentSubchunkFirstSample
      modifies track`currentSubchunkSamples, track`currentSubchunkOffset
      ensures ret == M4A_ERROR_OK && track.SizesLoaded(t) && track.FullWindow(t)
      ensures track.Covers(sample) <==> !old(StepsPast(track, sample))
    {
      assert 0 <= track.currentSubchunkSamples <= track.ChunkEnd() - track.currentSubchunkFirstSample;
      hide Track.SizesLoaded, InStream, SizesOk;
      ret := M4A_ERROR_OK;
      ghost var past := StepsPast(track, sample);
      var ahead := sample - track.currentSubchunkFirstSample - track.currentSubchunkSamples;
      var step := CDiv(ahead, MAX_SUBCHUNK_SAMPLES) + 1;
      while step > 0
        invariant 0 <= step && ret == M4A_ERROR_OK && track.SizesLoaded(t)
        invariant 0 <= track.currentSubchunkSamples <= track.ChunkEnd() - track.currentSubchunkFirstSample
        invariant past && step > 0 ==> step == 1 && track.FullWindow(t) && track.currentSubchunkFirstSample == sample
        invariant past && step == 0 ==> !track.Covers(sample) && track.FullWindow(t)
        invariant !past && step == 0 ==> track.Covers(sample) && track.FullWindow(t)
        invariant !past && step > 0 ==>
          && MAX_SUBCHUNK_SAMPLES * (step - 1)
             <= sample - track.currentSubchunkFirstSample - track.currentSubchunkSamples
             < MAX_SUBCHUNK_SAMPLES * step
        invariant !past && step > 0 && track.currentSubchunkSamples > 0 ==> track.FullWindow(t)
      {
        ret := NextSubchunk(track, t);
        if ret < 0 { break; }
        step := step - 1;
      }
    }

    /** Allocates the size table when it is first needed, and steps to a sample. */
    method LoadSteps(track: Track, sample: int, ghost t: Tables) returns (ret: int)
      requires SizesOk(t) && t.sampleSize == 0 && track.SizesLoaded(t) && track.currentChunkSamples > 0
      requires InStream(stream, track.stszTableOffset, t.sizes)
      requires track.stszSampleSize == 0
      requires track.currentSubchunkFirstSample <= sample < track.ChunkEnd()
      requires track.currentSubchunkSamples == 0 || track.FullWindow(t)
      requires track.currentSubchunkFirstSample < sample ==> !track.Covers(sample)
      modifies `currentPosition, track`stszTable, track.stszTable, track`currentSubchunkFirstSample
      modifies track`currentSubchunkSamples, track`currentSubchunkOffset
      ensures track.stszTable == old(track.stszTable) || fresh(track.stszTable)
      ensures ret == M4A_ERROR_OK && track.SizesLoaded(t) && track.FullWindow(t)
      ensures track.Covers(sample) <==> !old(StepsPast(track, sample))
    {
      hide InStream, SizesOk;
      if track.stszTable.Length == 0 {
        track.stszTable := new int[MAX_SUBCHUNK_SAMPLES];
      }
      ret := StepTo(track, sample, t);
    }

    /** Loads the window a sample needs, from a position at or before it. */
    method LoadWindow(track: Track, sample: int, ghost t: Tables) returns (ret: int)
      requires track.Located(stream, t) && track.SizesLoaded(t) && 0 <= currentPosition
      requires track.currentSubchunkFirstSample <= sample < track.ChunkEnd() && track.currentChunkSamples > 0
      requires track.currentSubchunkSamples == 0 || track.FullWindow(t)
      requires t.sampleSize > 0 ==> track.currentSubchunkFirstSample == track.currentChunkFirstSample
      requires track.currentSubchunkFirstSample < sample ==> !track.Covers(sample)
      modifies `currentPosition, track`stszTable, track.stszTable, track`currentSubchunkFirstSample
      modifies track`currentSubchunkSamples, track`currentSubchunkOffset
      ensures track.stszTable == old(track.stszTable) || fresh(track.stszTable)
      ensures ret == M4A_ERROR_OK && track.Valid(stream, t)
      ensures currentPosition == old(currentPosition) || currentPosition == old(currentPosition) % TWO_32
      ensures track.Covers(sample) <==> !old(StepsPast(track, sample))
    {
      assert Consistent(t) && track.stszSampleSize == t.sampleSize;
      assert t.sampleSize == 0 ==> InStream(stream, track.stszTableOffset, t.sizes);
      hide Track.Describes, Track.OffsetWindow, Track.CurrentChunk, Consistent, InStream;
      if track.stszSampleSize == 0 {
        var lastPosition := currentPosition % TWO_32;
        ret := LoadSteps(track, sample, t);
        if ret < 0 { return; }
        SetPosition(lastPosition);
      } else {
        WholeChunk(track, t);
      }
      return M4A_ERROR_OK;
    }

    /** Makes the window hold the given sample. */
    method FillStszTable(track: Track, sample: int, ghost t: Tables) returns (ret: int)
      requires track.Valid(stream, t) && 0 <= sample < t.sampleCount && 0 <= currentPosition
      modifies `currentPosition, track, track.stszTable, track.stcoChunkOffset
      ensures track.stcoChunkOffset == old(track.stcoChunkOffset)
          && (track.stszTable == old(track.stszTable) || fresh(track.stszTable))
      ensures ret == M4A_ERROR_OK && track.Valid(stream, t)
      ensures currentPosition == old(currentPosition) || currentPosition == old(currentPosition) % TWO_32
      ensures track.Covers(sample) <==> !old(StepsPast(track, sample))
    {
      if sample > track.currentSubchunkFirstSample
        && sample < track.currentSubchunkFirstSample + track.currentSubchunkSamples {
        return M4A_ERROR_OK;
      }
      Reposition(track, sample, t);
      ret := LoadWindow(track, sample, t);
    }

    /** A run that fails: filled twice for the first sample of a track of fewer
        than 100 samples, the window no longer holds that sample. */
    method FillTwice(track: Track, ghost t: Tables)
      requires track.Valid(stream, t) && track.NothingCurrent() && 0 <= currentPosition
      requires t.sampleSize == 0 && 0 < t.sampleCount < MAX_SUBCHUNK_SAMPLES
      modifies `currentPosition, track, track.stszTable, track.stcoChunkOffset
      ensures track.Valid(stream, t) && !track.Covers(0)
    {
      var _ := FillStszTable(track, 0, t);
      assert track.ChunkEnd() <= t.sampleCount;
      var _ := FillStszTable(track, 0, t);
    }

    /** Refills the window when a sample has left it. */
    method RefillStszTable(track: Track, sample: int, ghost t: Tables) returns (ret: int)
      requires track.Valid(stream, t) && 0 <= currentPosition
      modifies `currentPosition, track, track.stszTable, track.stcoChunkOffset
      ensures track.stcoChunkOffset == old(track.stcoChunkOffset)
          && (track.stszTable == old(track.stszTable) || fresh(track.stszTable))
      ensures track.Valid(stream, t)
      ensures currentPosition == old(currentPosition) || currentPosition == old(currentPosition) % TWO_32
      ensures 0 <= sample < t.sampleCount ==> ret == M4A_ERROR_OK && track.Covers(sample)
      ensures sample < 0 ==> ret == M4A_ERROR_UNSPECIFIELD
      ensures sample >= t.sampleCount ==> ret == M4A_ERROR_OK
      ensures !(0 <= sample < t.sampleCount) || old(track.Covers(sample)) ==>
                && unchanged(this) && unchanged(track) && track.stszTable[..] == old(track.stszTable[..])
                && track.stcoChunkOffset[..] == old(track.stcoChunkOffset[..])
    {
      if sample < 0 { return M4A_ERROR_UNSPECIFIELD; }
      ret := M4A_ERROR_OK;
      var numSamples := GetSamplesNumber(track);
      if (sample < track.currentSubchunkFirstSample
          || sample >= track.currentSubchunkFirstSample + track.currentSubchunkSamples)
        && sample < numSamples {
        ret := FillStszTable(track, sample, t);
      }
    }

    /** Total size of the samples from chunkSample up to sample. Behind the
        window it adds up what the table was last filled with. */
    method SampleRangeSize(track: Track, chunkSample: int, sample: int, ghost t: Tables) returns (total: int)
      requires track.Valid(stream, t) && chunkSample == track.currentSubchunkFirstSample && Readable(track, sample)
      ensures track.Covers(sample) ==> total == SizeSum(t, chunkSample, sample)
      ensures sample >= t.sampleCount || sample < chunkSample ==> total == 0
      ensures chunkSample <= sample < t.sampleCount ==>
                total == if t.sampleSize > 0 then (sample - chunkSample) * t.sampleSize
                         else Total(track.stszTable[..sample - chunkSample])
    {
      assert SizesOk(t) && track.stszSampleSize == t.sampleSize && track.stszSampleCount == t.sampleCount;
      hide Track.Located, Track.FullWindow, Consistent, SizesOk;
      total := 0;
      if sample >= track.stszSampleCount || sample < chunkSample { return; }
      var num := sample - chunkSample;
      if track.stszSampleSize > 0 {
        UniformSizeSum(t, chunkSample, sample);
        total := num * track.stszSampleSize;
      } else {
        var i := 0;
        while i < num
          invariant 0 <= i <= num && total == Total(track.stszTable[..i])
          invariant track.Covers(sample) ==> total == SizeSum(t, chunkSample, chunkSample + i)
        {
          if track.Covers(sample) {
            assert SizeSum(t, chunkSample, chunkSample + i + 1)
                == SizeSum(t, chunkSample, chunkSample + i) + t.sizes[chunkSample + i];
          }
          assert track.stszTable[..i + 1][..i] == track.stszTable[..i];
          total := total + track.stszTable[i];
          i := i + 1;
        }
      }
    }

    /** Size of a sample in the window, and 0 for any other. */
    method AudioFrameSize(track: Track, sample: int, ghost t: Tables) returns (size: int)
      requires track.Valid(stream, t)
      ensures track.Covers(sample) ==> size == SampleSize(t, sample)
      ensures !track.Covers(sample) ==> size == 0
    {
      if sample < track.currentSubchunkFirstSample
        || sample - track.currentSubchunkFirstSample >= track.currentSubchunkSamples {
        return 0;
      }
      if track.stszSampleSize > 0 {
        size := track.stszSampleSize;
      } else {
        size := track.stszTable[sample - track.currentSubchunkFirstSample];
      }
    }

    /** Position and size of a sample, from the window alone. */
    method GetSamplePositionAndSize(track: Track, sample: int, ghost t: Tables) returns (position: int, size: int)
      requires track.Valid(stream, t) && Readable(track, sample)
      ensures track.Covers(sample) ==> position == Position(t, sample) && size == SampleSize(t, sample)
      ensures !track.Covers(sample) ==> size == 0
      ensures sample < track.currentSubchunkFirstSample || sample >= t.sampleCount ==>
                position == track.currentSubchunkOffset
    {
      hide SizeSum, Total;
      var range := SampleRangeSize(track, track.currentSubchunkFirstSample, sample, t);
      position := track.currentSubchunkOffset + range;
      size := AudioFrameSize(track, sample, t);
      if track.Covers(sample) { CoveredPosition(track, sample, t); }
    }
  }

  /** Counting sizes from a sample of a chunk instead of from the chunk's first
      sample gives the same position. */
  lemma WindowPosition(t: Tables, c: int, from: int, sample: int)
    requires Consistent(t) && 0 <= from <= sample < t.sampleCount
    requires 1 <= c <= |t.chunkOffset| && FirstSample(t, c) <= from
    requires sample < FirstSample(t, c) + PerChunk(t, c)
    ensures Position(t, sample) == t.chunkOffset[c - 1] + SizeSum(t, FirstSample(t, c), from) + SizeSum(t, from, sample)
  {
    PositionIn(t, c, sample);
    hide RunsOk, FirstSample, PerChunk, SizeSum, Position;
    SizeSumSplit(t, FirstSample(t, c), from, sample);
  }

  lemma PositionIn(t: Tables, c: int, sample: int)
    requires Consistent(t) && 0 <= sample < t.sampleCount && InChunk(t, c, sample)
    ensures Position(t, sample) == t.chunkOffset[c - 1] + SizeSum(t, FirstSample(t, c), sample)
  {
    ChunkUnique(t, sample, c, ChunkOf(t, sample));
    hide RunsOk, FirstSample, PerChunk, SizeSum, SizesOk, ChunkOf;
  }

  /** The window's offset and sizes give the flat position of a covered sample. */
  lemma CoveredPosition(track: Track, sample: int, t: Tables)
    requires Consistent(t) && track.CurrentChunk(t) && track.SizesLoaded(t) && track.Covers(sample)
    ensures Position(t, sample)
         == track.currentSubchunkOffset + SizeSum(t, track.currentSubchunkFirstSample, sample)
  {
    WindowPosition(t, track.currentChunk, track.currentSubchunkFirstSample, sample);
  }

  /** Number of the first sample of run i of the sample-to-chunk table. */
  function FirstSampleOfRun(t: Tables, i: nat): int
    requires RunsOk(t) && i < |t.firstChunk|
  {
    assert 1 <= t.firstChunk[i];
    FirstSample(t, t.firstChunk[i])
  }

  /** One step along the sample-to-chunk runs. */
  lemma NextRun(t: Tables, i: nat, total: int, range: int)
    requires RunsOk(t) && i < |t.firstChunk|
    requires if i == 0 then total == 0 && range == 0 else
        total == FirstSampleOfRun(t, i - 1) && range == (t.firstChunk[i] - t.firstChunk[i - 1]) * t.perChunk[i - 1]
    ensures total + range == FirstSampleOfRun(t, i)
  {
    if i > 0 { RunSteps(t, i - 1, t.firstChunk[i]); }
  }

  /** Division of r by n > 0 within m whole steps. */
  lemma StepOf(r: int, n: int, m: int, q: int)
    requires n > 0 && 0 <= r && q == r / n
    ensures 0 <= q && q * n <= r < q * n + n
    ensures r < m * n ==> q < m
  {
    assert r < m * n ==> (q - m) * n < 0;
  }

  /** Dividing within the run that holds a sample finds the sample's chunk. */
  lemma DestChunk(t: Tables, e: nat, sample: int, d: int)
    requires Consistent(t) && 0 <= sample < t.sampleCount && e < |t.firstChunk|
    requires FirstSampleOfRun(t, e) <= sample
    requires e + 1 < |t.firstChunk| ==> sample < FirstSampleOfRun(t, e + 1)
    requires d == (sample - FirstSampleOfRun(t, e)) / t.perChunk[e] + t.firstChunk[e]
    ensures d == ChunkOf(t, sample)
    ensures FirstSample(t, d) == FirstSampleOfRun(t, e) + (d - t.firstChunk[e]) * t.perChunk[e]
    ensures PerChunk(t, d) == t.perChunk[e]
  {
    var f, n, first := t.firstChunk[e], t.perChunk[e], FirstSampleOfRun(t, e);
    var last := if e + 1 < |t.firstChunk| then t.firstChunk[e + 1] else |t.chunkOffset| + 1;
    assert f < last;
    RunSteps(t, e, last);
    StepOf(sample - first, n, last - f, d - f);
    RunSteps(t, e, d);
    RunIs(t, e, d);
    assert InChunk(t, d, sample);
    ChunkUnique(t, sample, d, ChunkOf(t, sample));
  }

  /** And that chunk holds the sample. */
  lemma DestChunkEnds(t: Tables, e: nat, sample: int, d: int)
    requires Consistent(t) && 0 <= sample < t.sampleCount && e < |t.firstChunk|
    requires FirstSampleOfRun(t, e) <= sample
    requires e + 1 < |t.firstChunk| ==> sample < FirstSampleOfRun(t, e + 1)
    requires d == (sample - FirstSampleOfRun(t, e)) / t.perChunk[e] + t.firstChunk[e]
    ensures d == ChunkOf(t, sample) && PerChunk(t, d) == t.perChunk[e]
    ensures FirstSample(t, d) == FirstSampleOfRun(t, e) + (d - t.firstChunk[e]) * t.perChunk[e]
    ensures FirstSample(t, d) <= sample < FirstSample(t, d) + PerChunk(t, d) <= t.sampleCount
  {
    DestChunk(t, e, sample, d);
    FirstSampleMono(t, d, |t.chunkOffset| + 1);
  }
}
