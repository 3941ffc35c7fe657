// The streaming demuxer of baidu_media_play_m4a.cpp: it cuts the pieces of a file
// into whole AAC frames, carrying the start of an unfinished frame over to the
// next piece.

module M4aPlayer {
  import opened Bytes
  import opened M4aTables
  import opened M4aUnpacker
  import opened M4aBoxes
  import opened M4aBoxParser
  import opened M4aOpen
  import opened M4aSeek
  import opened M4aStream

  const M4AERR_OK: int := 0
  const M4AERR_ARG: int := -2
  const M4AERR_VAL: int := -3
  const CODEC_WRITE_SIZE: int := 2048
  const MIN_START_SIZE: int := 128
  const MIN_LENGTH: int := 1024
  const MAX_M4A_HEADER_SIZE: int := 512 * 1024
  const FRAME_SIZE: int := 1024

  /** A header piece as it is stored: short ones are filled up with zeros. */
  function Padded(b: seq<byte>): (s: seq<byte>)
    ensures |s| == if |b| < MIN_LENGTH then MIN_LENGTH else |b|
  {
    b + Zeros(if |b| < MIN_LENGTH then MIN_LENGTH - |b| else 0)
  }

  /** Behind so many stored bytes there is room for so many more header bytes,
      filled up like a piece. */
  predicate HasRoom(stored: int, rest: int) {
    stored + (if rest < MIN_LENGTH then MIN_LENGTH else rest) <= MAX_M4A_HEADER_SIZE
  }

  function Zeros(k: nat): seq<byte> {
    seq(k, _ => 0)
  }

  /** The part of a file header that tells the player how long the header is. */
  ghost predicate IsHeader(bs: Boxes) {
    && bs.Boxes? && bs.others.Boxes? && bs.others.others.NoBox?
    && bs.first.Leaf? && FromBytes(bs.first.name) == "ftyp"
    && bs.others.first.Node? && FromBytes(bs.others.first.name) == "moov"
    && WellFormedAll(bs) && RootPlaced(bs)
  }

  /** The first audio track among those of the header. */
  ghost predicate IsAudio(vs: seq<TrackView>, r: int) {
    0 <= r < |vs| && vs[r].isAudio && forall i :: 0 <= i < r ==> !vs[i].isAudio
  }

  /** The header opens and one of its tracks is an audio one. */
  ghost predicate HasTrack(bs: Boxes) {
    RootPlaced(bs) && Opens(bs) && exists i :: 0 <= i < |RootTracks(bs, 0)| && RootTracks(bs, 0)[i].isAudio
  }

  /** Its first audio track. */
  ghost function FirstAudio(vs: seq<TrackView>): (r: nat)
    requires exists i :: 0 <= i < |vs| && vs[i].isAudio
    ensures IsAudio(vs, r)
  {
    if vs[0].isAudio then 0
    else
      assert exists i :: 0 <= i < |vs[1..]| && vs[1..][i].isAudio by {
        var i :| 0 <= i < |vs| && vs[i].isAudio;
        assert vs[1..][i - 1].isAudio;
      }
      FirstAudio(vs[1..]) + 1
  }

  /** The track a player chooses. */
  ghost function TrackOf(bs: Boxes): TrackView
    requires HasTrack(bs)
  {
    RootTracks(bs, 0)[FirstAudio(RootTracks(bs, 0))]
  }

  /** The stored header, with the tail behind it, and what it describes: when it
      has an audio track, the first is playable and its samples lie in the file,
      after the header. */
  ghost predicate Describes(stored: seq<byte>, bs: Boxes, tail: seq<byte>, l: Layout, fileSize: nat) {
    && IsHeader(bs) && Remaining(stored, 0, bs, tail)
    && (HasTrack(bs) ==>
          && Playable(stored, TrackOf(bs)) && LaysOut(FlatTables(stored, TrackOf(bs)), l)
          && l.Ascending(fileSize)
          && forall i :: 0 <= i < |l.start| ==> SizeAll(bs) <= l.start[i])
  }

  lemma EncodedHeader(b: Box)
    requires WellFormed(b)
    ensures Be32(Encode(b), 0) == Size(b) && Encode(b)[4..8] == b.name
  {
    var w := Be32Bytes(Size(b));
    assert Encode(b) == w + b.name + Contents(b);
    assert forall k :: 0 <= k < 4 ==> Encode(b)[k] == w[k];
  }

  /** Two boxes one after the other show both their headers. */
  lemma TwoBoxes(h: seq<byte>, a: Box, b: Box)
    requires WellFormed(a) && WellFormed(b) && h == Encode(a) + Encode(b)
    ensures |h| == Size(a) + Size(b)
    ensures Be32(h, 0) == Size(a) && Be32(h, Size(a)) == Size(b) && h[Size(a) + 4..Size(a) + 8] == b.name
  {
    EncodedHeader(a);
    EncodedHeader(b);
    hide Encode;
    assert forall k :: 0 <= k < 4 ==> h[k] == Encode(a)[k];
    assert forall k :: 0 <= k < 8 ==> h[Size(a) + k] == Encode(b)[k];
    assert h[Size(a) + 4..Size(a) + 8] == Encode(b)[4..8];
  }

  lemma SamePrefix(s: seq<byte>, s': seq<byte>, n: nat, p: nat)
    requires n <= |s| && n <= |s'| && s[..n] == s'[..n] && p + 8 <= n
    ensures Be32(s, p) == Be32(s', p) && s[p + 4..p + 8] == s'[p + 4..p + 8]
  {
    assert forall k :: 0 <= k < n ==> s[k] == s[..n][k] == s'[k];
  }

  /** What is stored after one more piece, of which n bytes belong to the header. */
  lemma StoredNow(file: seq<byte>, saved: nat, p: seq<byte>, n: nat) returns (k: nat)
    requires saved + |p| <= |file| && p == file[saved..saved + |p|] && n <= |p|
    ensures file[..saved] + Padded(p[..n]) == file[..saved + n] + Zeros(k)
    ensures n >= MIN_LENGTH ==> file[..saved] + Padded(p[..n]) == file[..saved + n]
    ensures p[n..] == file[saved + n..saved + |p|]
  {
    k := if n < MIN_LENGTH then MIN_LENGTH - n else 0;
    assert file[..saved] + p[..n] == file[..saved + n];
    Assoc(file[..saved], p[..n], Zeros(k));
  }

  /** A header stored with zeros behind it describes what it describes alone. */
  lemma DescribesPadded(header: seq<byte>, k: nat, bs: Boxes, l: Layout, fileSize: nat)
    requires Describes(header, bs, [], l, fileSize)
    ensures Describes(header + Zeros(k), bs, Zeros(k), l, fileSize)
  {
    hide Playable, LaysOut, RootTracks, RootPlaced, HasTrack, WellFormedAll, Layout.Ascending, EncodeAll, FirstAudio;
    if HasTrack(bs) {
      var v := TrackOf(bs);
      PlayableExtend(header, Zeros(k), v);
    }
    assert header[0..] == header && EncodeAll(bs) + [] == EncodeAll(bs);
    assert (header + Zeros(k))[0..] == header + Zeros(k);
  }

  /** A slice of bytes that end like the file does at pos is a slice of the file. */
  lemma SuffixSlice(bytes: seq<byte>, file: seq<byte>, offset: int, pos: int, size: int)
    requires 0 <= offset <= offset + size <= pos <= |file| && 0 <= size
    requires offset < pos ==> pos - offset <= |bytes| && bytes[|bytes| - (pos - offset)..] == file[offset..pos]
    ensures |bytes| - pos + offset >= 0
    ensures bytes[|bytes| - pos + offset..|bytes| - pos + offset + size] == file[offset..offset + size]
  {
    if offset < pos {
      var from := |bytes| - pos + offset;
      assert bytes[from..from + size] == bytes[from..][..size];
      assert file[offset..offset + size] == file[offset..pos][..size];
    }
  }

  /** The bytes, which end at pos, reach back to the start of sample i, and from
      there on are the file's; older bytes may precede. */
  predicate Reaches(l: Layout, file: seq<byte>, bytes: seq<byte>, pos: int, i: int)
    requires 0 <= i && 0 <= pos <= |file|
  {
    i < |l.start| && 0 <= l.start[i] < pos ==>
      var n := pos - l.start[i];
      n <= |bytes| && bytes[|bytes| - n..] == file[l.start[i]..pos]
  }

  /** Bytes that reach back to a complete sample reach back to the next one. */
  lemma ReachesNext(l: Layout, file: seq<byte>, bytes: seq<byte>, pos: int, i: int)
    requires l.Ascending(|file|) && 0 <= i < |l.start| && 0 <= pos <= |file|
    requires l.start[i] + l.size[i] <= pos && Reaches(l, file, bytes, pos, i)
    ensures Reaches(l, file, bytes, pos, i + 1)
  {
    if i + 1 < |l.start| && l.start[i + 1] < pos {
      var n, m := pos - l.start[i], pos - l.start[i + 1];
      assert bytes[|bytes| - m..] == bytes[|bytes| - n..][n - m..];
    }
  }

  /** Cuts a complete sample's frame out of bytes that reach back to it. */
  lemma FrameCut(l: Layout, file: seq<byte>, asc: AudioConfig, bytes: seq<byte>, pos: int, i: int)
    requires l.Ascending(|file|) && 0 <= i < |l.start| && 0 <= pos <= |file|
    requires l.start[i] + l.size[i] <= pos && Reaches(l, file, bytes, pos, i)
    ensures var from := |bytes| - pos + l.start[i];
      && 0 <= from && from + l.size[i] <= |bytes| && 0 <= l.size[i]
      && AdtsHeader(asc, l.size[i] + ADTS_HEAD_SIZE) + bytes[from..from + l.size[i]] == Frame(l, file, asc, i)
  {
    SuffixSlice(bytes, file, l.start[i], pos, l.size[i]);
  }

  class MediaPlayM4A {
    var headerSize: int           // header bytes still to come
    var headerSizeSaved: int
    var headerBuffer: seq<byte>         // the stored header
    var kept: seq<byte>         // kept bytes
    var filePos: int
    var parseDone: bool
    var numSamples: int
    var sampleId: int
    var asc: AudioConfig
    const configOk: bool                // the decoder configuration, if there is one, can be parsed
    var unpacker: Unpacker
    var track: Track
    var codec: seq<byte>                // everything written to the codec
    var codecEnded: bool               // the end-of-stream marker was written

    ghost var file: seq<byte>           // the file being played
    ghost var t: Tables                 // its flat sample tables
    ghost var l: Layout                 // and where they put the samples
    ghost var base: int                 // sample at which streaming (re)started
    ghost var before: seq<byte>         // codec contents at that moment

    /** The sample number and count, which the source leaves uninitialised until
        a header was parsed, can be any. */
    constructor (asc: AudioConfig, configOk: bool, numSamples: int, sampleId: int)
      ensures Idle() && codec == [] && this.asc == asc && this.configOk == configOk
      ensures this.numSamples == numSamples && this.sampleId == sampleId
      ensures fresh(unpacker) && fresh(track) && fresh(track.stszTable) && fresh(track.stcoChunkOffset)
    {
      this.configOk := configOk;
      headerSize, headerSizeSaved, headerBuffer, kept, filePos, parseDone := 0, 0, [], [], 0, false;
      this.numSamples, this.sampleId, this.asc := numSamples, sampleId, asc;
      unpacker := new Unpacker([], true);
      track := new Track(EMPTY_TRACK);
      codec, codecEnded := [], false;
      file, base, before := [], 0, [];
      l := Layout([], []);
    }

    /** Nothing of a file was taken yet. */
    predicate Idle()
      reads this
    {
      headerSize == headerSizeSaved == filePos == 0 && headerBuffer == [] && kept == [] && !parseDone
    }

    /** The header was parsed and the index answers for this file. */
    ghost predicate Parsed()
      reads this, unpacker, track, track.stszTable, track.stcoChunkOffset
    {
      && parseDone && headerSize <= 0
      && track.Valid(unpacker.stream, t)
      && 0 <= unpacker.currentPosition
      && LaysOut(t, l) && l.Ascending(|file|)
      && numSamples == t.sampleCount
    }

    /** The bytes, which end at pos, reach back to the start of the pending
        sample, and from there on are the file's; older bytes may precede. */
    ghost predicate Holds(bytes: seq<byte>, pos: int)
      requires |l.start| == numSamples && 0 <= sampleId && 0 <= pos <= |file|
      reads this
    {
      Reaches(l, file, bytes, pos, sampleId)
    }

    /** Ready for the piece of the file that starts at pos. */
    ghost predicate ReadyAt(pos: int)
      reads this, unpacker, track, track.stszTable, track.stcoChunkOffset
    {
      && Parsed() && l.Ascending(|file|) && |l.start| == |l.size| == numSamples
      && 0 <= sampleId <= numSamples
      && (sampleId < numSamples ==> track.Covers(sampleId))
      && 0 <= pos <= |file| && Holds(kept, pos)
    }

    /** Samples before the pending one have arrived in full. */
    ghost predicate Behind()
      requires |l.start| == |l.size| == numSamples && sampleId <= numSamples
      reads this
    {
      forall k :: 0 <= k < sampleId ==> l.start[k] + l.size[k] <= filePos
    }

    /** Streaming can (re)start at the pending sample; nothing was sent since. */
    ghost predicate Started()
      reads this, unpacker, track, track.stszTable, track.stcoChunkOffset
    {
      && ReadyAt(filePos) && Behind()
      && sampleId == base
      && codec == before
    }

    /** The codec has received the frames of exactly the samples, counted from
        the one where streaming (re)started, that have arrived in full. */
    ghost predicate Streaming()
      reads this, unpacker, track, track.stszTable, track.stcoChunkOffset
    {
      && ReadyAt(filePos) && Behind()
      && 0 <= base <= sampleId
      && sampleId == Pending(l, filePos, base)
      && codec == before + Frames(l, file, asc, base, sampleId)
    }

    /** The window arrays are the same objects as before, or new ones. */
    twostate predicate SameWindows()
      reads this, track
    {
      && (track.stszTable == old(track.stszTable) || fresh(track.stszTable))
      && track.stcoChunkOffset == old(track.stcoChunkOffset)
    }

    /** Sends a frame to the codec in writes of at most 2048 bytes. */
    method SendToCodec(buffTemp: seq<byte>) returns (writes: seq<seq<byte>>)
      modifies `codec
      ensures codec == old(codec) + buffTemp && Joined(writes) == buffTemp
      ensures forall w :: w in writes ==> 0 < |w| <= CODEC_WRITE_SIZE
      ensures forall i :: 0 <= i < |writes| - 1 ==> |writes[i]| == CODEC_WRITE_SIZE
    {
      var bufptr, bytes := 0, |buffTemp|;
      writes := [];
      while bytes > 0
        invariant 0 <= bytes && bufptr + bytes == |buffTemp|
        invariant codec == old(codec) + buffTemp[..bufptr] && Joined(writes) == buffTemp[..bufptr]
        invariant forall w :: w in writes ==> 0 < |w| <= CODEC_WRITE_SIZE
        invariant forall i :: 0 <= i < |writes| - 1 ==> |writes[i]| == CODEC_WRITE_SIZE
        invariant writes != [] && bytes > 0 ==> |writes[|writes| - 1]| == CODEC_WRITE_SIZE
      {
        var num := if bytes < CODEC_WRITE_SIZE then bytes else CODEC_WRITE_SIZE;
        assert buffTemp[..bufptr] + buffTemp[bufptr..bufptr + num] == buffTemp[..bufptr + num];
        codec := codec + buffTemp[bufptr..bufptr + num];
        assert (writes + [buffTemp[bufptr..bufptr + num]])[..|writes|] == writes;
        writes := writes + [buffTemp[bufptr..bufptr + num]];
        bytes, bufptr := bytes - num, bufptr + num;
      }
      assert buffTemp[..bufptr] == buffTemp;
    }

    /** The pending sample's frame, cut out of buffData. */
    method SendPending(buffData: seq<byte>, offset: int, size: int)
      requires 0 <= sampleId < |l.start| == numSamples && l.Ascending(|file|) && 0 <= filePos <= |file|
      requires offset == l.start[sampleId] && size == l.size[sampleId] && offset + size <= filePos
      requires Holds(buffData, filePos)
      modifies `codec, `sampleId
      ensures sampleId == old(sampleId) + 1 && Holds(buffData, filePos)
      ensures codec == old(codec) + Frame(l, file, asc, old(sampleId))
    {
      FrameCut(l, file, asc, buffData, filePos, sampleId);
      ReachesNext(l, file, buffData, filePos, sampleId);
      hide Joined, AdtsHeader, Frame, Reaches, Layout.Ascending;
      var from := |buffData| - filePos + offset;
      var data := buffData[from..from + size];
      var _ := SendToCodec(AdtsHeader(asc, size + ADTS_HEAD_SIZE) + data);
      sampleId := sampleId + 1;
    }

    /** Ready to look at the pending sample with the given bytes at hand. */
    ghost predicate Supplied(bytes: seq<byte>)
      reads this, unpacker, track, track.stszTable, track.stcoChunkOffset
    {
      && Parsed() && l.Ascending(|file|) && |l.start| == |l.size| == numSamples
      && 0 <= sampleId <= numSamples && 0 <= filePos <= |file|
      && (sampleId < numSamples ==> track.Covers(sampleId))
      && Holds(bytes, filePos)
    }

    method SendAndRefill(buffData: seq<byte>, offset: int, size: int) returns (ret: int)
      requires Supplied(buffData) && sampleId < numSamples
      requires offset == l.start[sampleId] && size == l.size[sampleId] && offset + size <= filePos
      modifies `sampleId, `codec, unpacker`currentPosition, track, track.stszTable, track.stcoChunkOffset
      ensures SameWindows()
      ensures ret == M4AERR_OK && Supplied(buffData) && sampleId == old(sampleId) + 1
      ensures codec == old(codec) + Frame(l, file, asc, old(sampleId))
    {
      hide Track.Valid, LaysOut, Layout.Ascending, Frame;
      SendPending(buffData, offset, size);
      var r := unpacker.RefillStszTable(track, sampleId, t);
      ret := if r < 0 then M4AERR_VAL else M4AERR_OK;
    }

    /** Sends the pending sample if buffData completes it; otherwise keeps what
        has arrived of it. */
    method SendOrKeep(buffData: seq<byte>) returns (ret: int, sent: bool)
      requires Supplied(buffData) && sampleId < numSamples && kept == []
      modifies `sampleId, `codec, `kept, unpacker`currentPosition, track, track.stszTable, track.stcoChunkOffset
      ensures SameWindows()
      ensures ret == M4AERR_OK && Supplied(buffData)
      ensures sent <==> l.start[old(sampleId)] + l.size[old(sampleId)] <= filePos
      ensures sent ==> sampleId == old(sampleId) + 1 && kept == []
      ensures sent ==> codec == old(codec) + Frame(l, file, asc, old(sampleId))
      ensures !sent ==> sampleId == old(sampleId) && codec == old(codec)
      ensures !sent ==> kept == if l.start[sampleId] < filePos then file[l.start[sampleId]..filePos] else []
    {
      hide Track.Valid, Position, SampleSize, Frame;
      ret, sent := M4AERR_OK, false;
      CoveredReadable(unpacker.stream, track, sampleId, t);
      var offset, size := unpacker.GetSamplePositionAndSize(track, sampleId, t);
      if offset + size <= filePos {
        ret := SendAndRefill(buffData, offset, size);
        sent := true;
      } else if offset < filePos {
        kept := buffData[|buffData| - filePos + offset..];
      }
    }

    /** Sends every sample that buffData, which ends at the current file
        position, completes, and keeps the start of the next one. */
    method SendFrames(buffData: seq<byte>) returns (ret: int)
      requires Supplied(buffData) && kept == []
      modifies `sampleId, `codec, `kept, unpacker`currentPosition, track, track.stszTable, track.stcoChunkOffset
      ensures SameWindows()
      ensures ret == M4AERR_OK && ReadyAt(filePos)
      ensures sampleId == Pending(l, filePos, old(sampleId))
      ensures codec == old(codec) + Frames(l, file, asc, old(sampleId), sampleId)
      ensures kept == Rest()
    {
      hide Parsed, Frame, Layout.Ascending;
      ret := M4AERR_OK;
      var sent := true;
      while sent && sampleId < numSamples
        invariant Supplied(buffData) && old(sampleId) <= sampleId && ret == M4AERR_OK
        invariant SameWindows()
        invariant Pending(l, filePos, old(sampleId)) == Pending(l, filePos, sampleId)
        invariant codec == old(codec) + Frames(l, file, asc, old(sampleId), sampleId)
        invariant sent ==> kept == []
        invariant !sent ==> kept == Rest() && sampleId == Pending(l, filePos, sampleId)
        decreases numSamples - sampleId, sent
      {
        ghost var i := sampleId;
        FramesStep(l, file, asc, old(codec), old(sampleId), i);
        ret, sent := SendOrKeep(buffData);
        if ret < 0 { break; }
        if sent { PendingStep(l, filePos, i); }
      }
    }

    /** What has arrived of the pending sample. */
    ghost function Rest(): seq<byte>
      requires |l.start| == numSamples && 0 <= sampleId && 0 <= filePos <= |file|
      requires l.Ascending(|file|)
      reads this
    {
      if sampleId < numSamples && l.start[sampleId] < filePos then file[l.start[sampleId]..filePos] else []
    }

    /** Joins the kept bytes and a new piece and sends what they complete. */
    method FrameToCodec(pBuff: seq<byte>) returns (ret: int)
      requires parseDone ==> |pBuff| <= filePos && ReadyAt(filePos - |pBuff|) && filePos <= |file|
      requires parseDone ==> pBuff == file[filePos - |pBuff|..filePos]
      modifies `sampleId, `codec, `kept, unpacker`currentPosition, track, track.stszTable, track.stcoChunkOffset
      ensures SameWindows()
      ensures ret == M4AERR_OK
      ensures !parseDone ==> sampleId == old(sampleId) && codec == old(codec) && kept == old(kept)
      ensures parseDone ==> ReadyAt(filePos) && old(sampleId) <= sampleId
      ensures parseDone && pBuff != [] ==>
                && sampleId == Pending(l, filePos, old(sampleId))
                && codec == old(codec) + Frames(l, file, asc, old(sampleId), sampleId)
                && kept == Rest()
      ensures parseDone && pBuff == [] && old(kept) == [] ==> sampleId == old(sampleId) && codec == old(codec)
    {
      hide Track.Valid, LaysOut, Layout.Ascending, Frame;
      ret := M4AERR_OK;
      if !parseDone { return; }
      var buffDataSize := |kept| + |pBuff|;
      if buffDataSize <= 0 { return; }
      var buffData := kept + pBuff;
      JoinHolds(pBuff);
      kept := [];
      ret := SendFrames(buffData);
    }

    /** Kept bytes and the next piece together reach as far back as is needed. */
    lemma JoinHolds(pBuff: seq<byte>)
      requires |l.start| == numSamples && 0 <= sampleId && |pBuff| <= filePos <= |file|
      requires Holds(kept, filePos - |pBuff|) && pBuff == file[filePos - |pBuff|..filePos]
      ensures Holds(kept + pBuff, filePos)
    {
      if sampleId < numSamples && 0 <= l.start[sampleId] < filePos {
        var start, pos := l.start[sampleId], filePos - |pBuff|;
        if start < pos {
          var n := pos - start;
          assert (kept + pBuff)[|kept + pBuff| - (filePos - start)..] == kept[|kept| - n..] + pBuff;
          assert file[start..filePos] == file[start..pos] + pBuff;
        } else {
          assert (kept + pBuff)[|kept + pBuff| - (filePos - start)..] == pBuff[start - pos..];
          assert file[start..filePos] == pBuff[start - pos..];
        }
      }
    }

    /** Streaming went on from sample i, with what was sent before: the frames of
        the samples that have arrived since were sent, and of the next one what
        has arrived is kept. */
    ghost predicate Advanced(was: seq<byte>, i: int)
      reads this, unpacker, track, track.stszTable, track.stcoChunkOffset
    {
      && Streaming() && kept == Rest() && 0 <= i <= sampleId
      && sampleId == Pending(l, filePos, i)
      && codec == was + Frames(l, file, asc, i, sampleId)
    }

    /** A piece in the middle of the file, once the header is complete; nothing
        is sent when the header was refused. */
    method PlayData(pBuff: seq<byte>) returns (ret: int)
      requires headerSize <= 0 && (parseDone ==> Started() || Streaming())
      requires parseDone ==> filePos + |pBuff| <= |file| && pBuff == file[filePos..filePos + |pBuff|]
      modifies `filePos, `sampleId, `codec, `kept, unpacker`currentPosition
      modifies track, track.stszTable, track.stcoChunkOffset
      ensures SameWindows()
      ensures filePos == old(filePos) + |pBuff| && ret == if pBuff == [] then M4AERR_ARG else M4AERR_OK
      ensures pBuff == [] ==> codec == old(codec) && sampleId == old(sampleId)
                              && (old(Streaming()) ==> Streaming()) && (old(Started()) ==> Started())
      ensures pBuff != [] && !parseDone ==> codec == old(codec) && kept == old(kept)
      ensures pBuff != [] && parseDone ==> Streaming() && Advanced(old(codec), old(sampleId))
    {
      hide Track.Valid, LaysOut, Frame, Frames, Pending, Layout.Ascending;
      if pBuff == [] { return M4AERR_ARG; }
      if parseDone { StreamFurther(l, file, asc, before, base, sampleId, filePos, filePos + |pBuff|); }
      filePos := filePos + |pBuff|;
      assert parseDone ==> ReadyAt(filePos - |pBuff|);
      ret := FrameToCodec(pBuff);
    }

    /** Sample id in range, with the window on it, or one past either end. */
    ghost predicate Walking()
      reads this, unpacker, track, track.stszTable, track.stcoChunkOffset
    {
      && Parsed() && |l.start| == |l.size| == numSamples
      && -1 <= sampleId <= numSamples
      && (0 <= sampleId < numSamples ==> track.Covers(sampleId))
    }

    /** Starts of the pending sample and moves to a neighbour, with the window. */
    method StepBy(delta: int)
      requires Walking() && 0 <= sampleId < numSamples && (delta == 1 || delta == -1)
      modifies `sampleId, unpacker`currentPosition, track, track.stszTable, track.stcoChunkOffset
      ensures SameWindows()
      ensures Walking() && sampleId == old(sampleId) + delta
    {
      hide Track.Valid, LaysOut, Layout.Ascending;
      sampleId := sampleId + delta;
      var _ := unpacker.RefillStszTable(track, sampleId, t);
    }

    method StartOfPending() returns (pos: int)
      requires Walking() && 0 <= sampleId < numSamples
      ensures pos == l.start[sampleId]
    {
      hide Track.Valid, Position;
      CoveredReadable(unpacker.stream, track, sampleId, t);
      var size;
      pos, size := unpacker.GetSamplePositionAndSize(track, sampleId, t);
    }

    /** Ready to walk; or the header was refused, and what the uninitialised sample
        number and count hold does not ask for a walk. */
    ghost predicate MayWalk()
      reads this, unpacker, track, track.stszTable, track.stcoChunkOffset
    {
      Walking() || (!parseDone && !(0 <= sampleId < numSamples))
    }

    lemma ShowWalk()
      requires Started() || Streaming()
      ensures MayWalk()
    {
    }

    /** Walks from the pending sample to the one that holds the target. */
    method Walk(target: int) returns (pos: int)
      requires MayWalk()
      modifies `sampleId, unpacker`currentPosition, track, track.stszTable, track.stcoChunkOffset
      ensures SameWindows()
      ensures MayWalk() && (0 <= old(sampleId) < numSamples ==> Walking())
      ensures 0 <= old(sampleId) < numSamples && target > filePos ==>
                && sampleId == FirstFrom(l, target, old(sampleId))
                && pos == l.start[if sampleId < numSamples then sampleId else numSamples - 1]
      ensures 0 <= old(sampleId) < numSamples && target <= filePos ==>
                && sampleId == LastTo(l, target, old(sampleId))
                && pos == l.start[if sampleId >= 0 then sampleId else 0]
      ensures !(0 <= old(sampleId) < numSamples) ==> sampleId == old(sampleId) && pos == 0
    {
      hide Parsed;
      pos := 0;
      var arrived := false;
      while !arrived && 0 <= sampleId < numSamples
        invariant MayWalk() && (0 <= old(sampleId) < numSamples ==> Walking())
        invariant SameWindows()
        invariant !(0 <= old(sampleId) < numSamples) ==> sampleId == old(sampleId) && pos == 0
        invariant target > filePos && 0 <= old(sampleId) < numSamples ==>
          && old(sampleId) <= sampleId
          && FirstFrom(l, target, sampleId) == FirstFrom(l, target, old(sampleId))
          && (sampleId == numSamples ==> pos == l.start[numSamples - 1])
        invariant target <= filePos && 0 <= old(sampleId) < numSamples ==>
          && sampleId <= old(sampleId)
          && LastTo(l, target, sampleId) == LastTo(l, target, old(sampleId))
          && (sampleId == -1 ==> pos == l.start[0])
        invariant arrived ==> 0 <= sampleId < numSamples && pos == l.start[sampleId]
        invariant arrived ==> if target > filePos then pos >= target else pos < target
        decreases !arrived, if target > filePos then numSamples - sampleId else sampleId
      {
        pos := StartOfPending();
        if target > filePos {
          if pos >= target { arrived := true; } else { StepBy(1); }
        } else {
          if pos < target { arrived := true; } else { StepBy(-1); }
        }
      }
    }

    /** What a walk from sample i with the position at pos leads to. */
    ghost predicate Landed(target: int, pos: int, i: int)
      requires l.Ascending(|file|) && 0 <= i < |l.start| == numSamples
      reads this
    {
      && -1 <= sampleId <= numSamples
      && (target > pos ==>
            && (LeastFrom(l, target, sampleId) <==> NothingSkipped(l, target, i))
            && (!NothingSkipped(l, target, i) ==> sampleId == i)
            && (sampleId < numSamples <==> target <= l.start[numSamples - 1])
            && filePos == l.start[if 0 <= sampleId < numSamples then sampleId else numSamples - 1])
      && (target < pos ==>
            && (GreatestBefore(l, target, sampleId) <==> NothingLeft(l, target, i))
            && (!NothingLeft(l, target, i) ==> sampleId == i)
            && (sampleId >= 0 <==> l.start[0] < target)
            && filePos == l.start[if 0 <= sampleId < numSamples then sampleId else 0])
    }

    /** Seeks; returns the position reached. Outside the header that is the
        start of the least sample at or after the target, or of the greatest
        before it, exactly when no such sample was skipped or left behind, as
        is always so once streaming is up to date; and streaming can restart
        there whatever bytes are still kept. */
    method FileSeek(target: int) returns (ret: int)
      requires headerSize <= 0 ==> MayWalk()
      modifies `sampleId, `filePos, `base, `before
      modifies unpacker`currentPosition, track, track.stszTable, track.stcoChunkOffset
      ensures SameWindows()
      ensures target <= 0 || target == old(filePos) ==>
                sampleId == old(sampleId) && filePos == old(filePos) && base == old(base) && before == old(before)
                && ret == if target <= 0 then 0 else target
      ensures 0 < target != old(filePos) && InHeader(target) ==>
                sampleId == 0 && filePos == headerSizeSaved == ret
      ensures 0 < target != old(filePos) && !InHeader(target) ==>
                && MayWalk() && ret == filePos
                && (if 0 <= old(sampleId) < numSamples
                    then l.Ascending(|file|) && |l.start| == numSamples && Landed(target, old(filePos), old(sampleId))
                    else sampleId == old(sampleId) && filePos == 0)
                && (0 <= sampleId < numSamples ==> Started())
                && (old(Streaming()) && old(sampleId) < numSamples ==>
                      if target > old(filePos) then LeastFrom(l, target, sampleId)
                      else GreatestBefore(l, target, sampleId))
    {
      hide Started, Streaming, MayWalk, LeastFrom, GreatestBefore, NothingSkipped, NothingLeft;
      if target <= 0 { return 0; }
      if target == filePos { return target; }
      if target <= headerSizeSaved || headerSize > 0 {
        filePos := headerSizeSaved;
        sampleId := 0;
        return filePos;
      }
      if Streaming() && sampleId < numSamples { UpToDate(target); }
      ret := SeekSample(target);
    }

    lemma UpToDate(target: int)
      requires Streaming() && sampleId < numSamples
      ensures 0 <= sampleId < |l.start|
      ensures target > filePos ==> NothingSkipped(l, target, sampleId)
      ensures target < filePos ==> NothingLeft(l, target, sampleId)
    {
      hide Parsed, NothingSkipped, NothingLeft;
      StreamingSeeks(l, |file|, filePos, target, sampleId);
    }

    /** Walks to a sample and takes its start as the position. */
    method SeekSample(target: int) returns (ret: int)
      requires MayWalk() && target != filePos
      modifies `sampleId, `filePos, `base, `before
      modifies unpacker`currentPosition, track, track.stszTable, track.stcoChunkOffset
      ensures SameWindows() && MayWalk() && ret == filePos
      ensures if 0 <= old(sampleId) < numSamples
              then l.Ascending(|file|) && |l.start| == numSamples && Landed(target, old(filePos), old(sampleId))
              else sampleId == old(sampleId) && filePos == 0
      ensures 0 <= sampleId < numSamples ==> Started()
    {
      hide Track.Valid, LaysOut, Layout.Ascending, Started, Landed, FirstFrom, LastTo;
      ghost var i, from := sampleId, filePos;
      var pos := Walk(target);
      filePos := pos;
      base, before := sampleId, codec;
      if 0 <= i < numSamples { ShowLanded(target, from, i); }
      if 0 <= sampleId < numSamples { ShowStarted(); }
      return filePos;
    }

    lemma ShowLanded(target: int, pos: int, i: int)
      requires Walking() && 0 <= i < numSamples
      requires target > pos ==> sampleId == FirstFrom(l, target, i)
      requires target < pos ==> sampleId == LastTo(l, target, i)
      requires target > pos ==> filePos == l.start[if sampleId < numSamples then sampleId else numSamples - 1]
      requires target < pos ==> filePos == l.start[if sampleId >= 0 then sampleId else 0]
      ensures l.Ascending(|file|) && |l.start| == numSamples && Landed(target, pos, i)
    {
      hide Track.Valid, LaysOut;
      SeekLands(l, |file|, target, i);
      hide Layout.Ascending, FirstFrom, LastTo, LeastFrom, GreatestBefore, NothingSkipped, NothingLeft;
    }

    lemma ShowStarted()
      requires Walking() && 0 <= sampleId < numSamples && filePos == l.start[sampleId]
      requires base == sampleId && before == codec
      ensures Started()
    {
      hide Track.Valid, LaysOut;
    }

    predicate InHeader(target: int)
      reads `headerSize, `headerSizeSaved
    {
      target <= headerSizeSaved || headerSize > 0
    }

    /** The bytes of a piece that belong to the header find room in the buffer. */
    predicate Fits(pBuff: seq<byte>)
      requires headerSize > 0
      reads this
    {
      |headerBuffer| + |Padded(pBuff[..Min(|pBuff|, headerSize)])| <= MAX_M4A_HEADER_SIZE
    }

    /** Stores the header bytes of a piece and keeps what follows them; an error,
        with nothing stored, when the buffer has no room for them. */
    method HeaderSave(pBuff: seq<byte>) returns (ret: int)
      modifies `headerBuffer, `headerSize, `headerSizeSaved, `kept
      ensures old(headerSize) <= 0 ==>
                ret == M4AERR_OK && headerSize == old(headerSize) && headerSizeSaved == old(headerSizeSaved)
                && headerBuffer == old(headerBuffer) && kept == old(kept)
      ensures old(headerSize) > 0 && pBuff == [] ==>
                ret == M4AERR_ARG && headerSize == old(headerSize) && headerSizeSaved == old(headerSizeSaved)
                && headerBuffer == old(headerBuffer) && kept == old(kept)
      ensures old(headerSize) > 0 && pBuff != [] ==>
                var n := Min(|pBuff|, old(headerSize));
                if old(Fits(pBuff))
                then ret == M4AERR_OK
                     && headerSize == old(headerSize) - n && headerSizeSaved == old(headerSizeSaved) + n
                     && headerBuffer == old(headerBuffer) + Padded(pBuff[..n])
                     && kept == if n < |pBuff| then pBuff[n..] else old(kept)
                else ret == M4AERR_VAL
                     && headerSize == old(headerSize) && headerSizeSaved == old(headerSizeSaved)
                     && headerBuffer == old(headerBuffer) && kept == old(kept)
    {
      if headerSize <= 0 { return M4AERR_OK; }
      if pBuff == [] { return M4AERR_ARG; }
      var fileSave := if |pBuff| < headerSize then |pBuff| else headerSize;
      if fileSave < MIN_LENGTH {
        var buffer := pBuff[..fileSave] + Zeros(MIN_LENGTH - fileSave);
        if |headerBuffer| + MIN_LENGTH > MAX_M4A_HEADER_SIZE { return M4AERR_VAL; }
        headerBuffer := headerBuffer + buffer;
      } else {
        if |headerBuffer| + fileSave > MAX_M4A_HEADER_SIZE { return M4AERR_VAL; }
        headerBuffer := headerBuffer + pBuff[..fileSave];
        assert pBuff[..fileSave] + Zeros(0) == pBuff[..fileSave];
      }
      headerSize := headerSize - fileSave;
      headerSizeSaved := headerSizeSaved + fileSave;
      if |pBuff| - fileSave > 0 {
        kept := pBuff[fileSave..];
      }
      return M4AERR_OK;
    }

    /** The header describes a track the player can play. */
    ghost predicate Usable(bs: Boxes)
    {
      HasTrack(bs) && configOk
    }

    /** Once the header is complete, opens the index at its first audio track; an
        error when it does not open, has no audio track or its decoder
        configuration cannot be parsed. */
    method HeaderParse(ghost bs: Boxes, ghost tail: seq<byte>) returns (ret: int)
      requires headerSize <= 0 && !parseDone ==> Describes(headerBuffer, bs, tail, l, |file|)
      modifies `unpacker, `track, `parseDone, `numSamples, `sampleId, `t, `base, `before
      ensures headerSize > 0 || old(parseDone) ==> ret == M4AERR_OK
      ensures headerSize <= 0 && !old(parseDone) ==>
                ret == if Usable(bs) then M4AERR_OK else M4AERR_VAL
      ensures headerSize <= 0 && !old(parseDone) && ret == M4AERR_OK ==>
                && Parsed() && sampleId == base == 0 && before == codec
                && fresh(unpacker) && fresh(track) && fresh(track.stszTable) && fresh(track.stcoChunkOffset)
                && 0 < numSamples && track.Covers(0)
      ensures headerSize > 0 || old(parseDone) || ret != M4AERR_OK ==>
                && parseDone == old(parseDone) && sampleId == old(sampleId) && numSamples == old(numSamples)
                && unpacker == old(unpacker) && track == old(track)
    {
      hide Describes, Track.Valid, Layout.Ascending, LaysOut, HasTrack;
      ret := M4AERR_OK;
      if headerSize <= 0 && !parseDone {
        var u, tr, num;
        ghost var tables;
        ret, u, tr, num, tables := OpenTrack(headerBuffer, configOk, bs, tail, l, |file|);
        if ret < 0 { return M4AERR_VAL; }
        t := tables;
        numSamples := num;
        sampleId := 0;
        unpacker, track := u, tr;
        parseDone := true;
        base, before := 0, codec;
      }
    }

    /** Collecting a header of which some bytes are still to come: what is
        stored so far is the beginning of the file. */
    ghost predicate Collecting(bs: Boxes)
      reads this
    {
      CollectingAt(bs, filePos)
    }

    ghost predicate CollectingAt(bs: Boxes, pos: int)
      reads this
    {
      && headerSize > 0 && !parseDone && kept == []
      && 0 <= headerSizeSaved == pos && headerSizeSaved + headerSize == SizeAll(bs) <= |file|
      && headerBuffer == file[..headerSizeSaved]
      && Describes(file[..SizeAll(bs)], bs, [], l, |file|)
    }

    /** The piece that ends at the file position goes on with the header, and is
        long enough to be stored as it is unless it completes the header. */
    ghost predicate TakesAt(pBuff: seq<byte>, bs: Boxes)
      reads this
    {
      && CollectingAt(bs, filePos - |pBuff|) && filePos <= |file| && pBuff == file[filePos - |pBuff|..filePos]
      && (|pBuff| < headerSize ==> |pBuff| >= MIN_LENGTH)
    }

    /** The buffer has room for the rest of the header in one piece. */
    predicate Room()
      reads this
    {
      HasRoom(|headerBuffer|, headerSize)
    }

    /** The header cannot be completed any more: whatever comes, the buffer has
        no room for what is still to be stored. */
    predicate Stuck()
      reads this
    {
      headerSize > 0 && !parseDone && kept == [] && !Room()
    }

    /** The header is complete, and streaming can start or it was refused. */
    ghost predicate Taken(bs: Boxes, ret: int)
      reads this, unpacker, track, track.stszTable, track.stcoChunkOffset
    {
      && headerSize == 0 && headerSizeSaved == SizeAll(bs) <= filePos <= |file|
      && kept == file[SizeAll(bs)..filePos]
      && ret == (if Usable(bs) then M4AERR_OK else M4AERR_VAL)
      && (ret == M4AERR_OK ==> Started() && parseDone && base == sampleId == 0 && 0 < numSamples == |l.start|)
      && (ret != M4AERR_OK ==> !parseDone)
    }

    /** Stores the header bytes of a piece, which ends at the file position. When
        the buffer has no room for the rest of the header, the piece is stored or
        refused and the header stays incomplete. */
    method SavePiece(pBuff: seq<byte>, ghost bs: Boxes) returns (ret: int, ghost k: nat)
      requires headerSize > 0 && !parseDone && kept == [] && pBuff != []
      requires Room() ==> TakesAt(pBuff, bs)
      modifies `headerBuffer, `headerSize, `headerSizeSaved, `kept
      ensures !old(Room()) ==> Stuck() && ret == if old(Fits(pBuff)) then M4AERR_OK else M4AERR_VAL
      ensures old(Room()) ==> ret == M4AERR_OK
      ensures old(Room()) && |pBuff| < old(headerSize) ==> Collecting(bs)
      ensures old(Room()) && |pBuff| >= old(headerSize) ==>
                && headerSize == 0 && headerSizeSaved == SizeAll(bs) <= filePos <= |file|
                && headerBuffer == file[..SizeAll(bs)] + Zeros(k) && kept == file[SizeAll(bs)..filePos]
    {
      hide Describes, Padded;
      k := 0;
      if Room() { k := StoredNow(file, headerSizeSaved, pBuff, Min(|pBuff|, headerSize)); }
      ret := HeaderSave(pBuff);
    }

    /** The player's objects are the same as before, or new ones. */
    twostate predicate SameObjects()
      reads this, track
    {
      && (unpacker == old(unpacker) || fresh(unpacker)) && (track == old(track) || fresh(track))
      && (track.stszTable == old(track.stszTable) || fresh(track.stszTable))
      && (track.stcoChunkOffset == old(track.stcoChunkOffset) || fresh(track.stcoChunkOffset))
    }

    /** The player's unpacker and track are the same, with the same windows or a
        new one. */
    twostate predicate SameTrack()
      reads this, track
    {
      unpacker == old(unpacker) && track == old(track) && SameWindows()
    }

    /** Stores the header bytes of a piece and parses the header when that was
        the last of them. */
    method TakeHeader(pBuff: seq<byte>, ghost bs: Boxes) returns (ret: int)
      requires headerSize > 0 && !parseDone && kept == [] && pBuff != []
      requires Room() ==> TakesAt(pBuff, bs)
      modifies `headerBuffer, `headerSize, `headerSizeSaved, `kept
      modifies `unpacker, `track, `parseDone, `numSamples, `sampleId, `t, `base, `before
      ensures SameObjects()
      ensures !old(Room()) ==> Stuck() && ret == if old(Fits(pBuff)) then M4AERR_OK else M4AERR_VAL
      ensures old(Room()) && |pBuff| < old(headerSize) ==> ret == M4AERR_OK && Collecting(bs)
      ensures old(Room()) && |pBuff| >= old(headerSize) ==> Taken(bs, ret) && (ret == M4AERR_OK ==> before == codec)
    {
      hide Describes, Track.Valid, LaysOut, SizeAll, Started, Parsed, HasTrack, Fits;
      ghost var k;
      ret, k := SavePiece(pBuff, bs);
      if ret != M4AERR_OK { return M4AERR_VAL; }
      if headerSize <= 0 { DescribesPadded(file[..SizeAll(bs)], k, bs, l, |file|); }
      ret := HeaderParse(bs, Zeros(k));
      if headerSize <= 0 && ret == M4AERR_OK { HeaderDone(bs); }
    }

    /** The first piece is long enough to be looked at and starts with ftyp. */
    static predicate StartsFtyp(pBuff: seq<byte>) {
      |pBuff| >= MIN_START_SIZE && FromBytes(pBuff[4..8]) == "ftyp"
    }

    /** It starts with an ftyp box, behind which a moov box starts. */
    static predicate StartsHeader(pBuff: seq<byte>) {
      && StartsFtyp(pBuff)
      && (var n := Be32(pBuff, 0);
          n != 1 && n + BOX_HEADER_LENGTH <= |pBuff| && FromBytes(pBuff[n + 4..n + 8]) == "moov")
    }

    /** The file begins with this piece and has the described header; a piece
        inside the header is long enough to be stored as it is. */
    ghost predicate BeginsFile(pBuff: seq<byte>, bs: Boxes)
      reads `file, `l
    {
      && |pBuff| <= |file| && pBuff == file[..|pBuff|]
      && SizeAll(bs) <= |file| && Describes(file[..SizeAll(bs)], bs, [], l, |file|)
      && (|pBuff| < SizeAll(bs) <= MAX_M4A_HEADER_SIZE ==> |pBuff| >= MIN_LENGTH)
    }

    /** What the first piece of a header of the given size leads to. */
    ghost predicate HeaderBegun(pBuff: seq<byte>, bs: Boxes, ret: int)
      reads this, unpacker, track, track.stszTable, track.stcoChunkOffset
    {
      var header := SizeAll(bs);
      if header > MAX_M4A_HEADER_SIZE then
        && Stuck()
        && ret == if |Padded(pBuff[..Min(|pBuff|, header)])| <= MAX_M4A_HEADER_SIZE then M4AERR_OK else M4AERR_VAL
      else if |pBuff| < header then ret == M4AERR_OK && Collecting(bs)
      else Taken(bs, ret) && (ret == M4AERR_OK ==> before == codec)
    }

    /** The first piece of a file: checks the two leading boxes, adds up their
        sizes and takes the header bytes. */
    method FileStart(pBuff: seq<byte>, ghost bs: Boxes) returns (ret: int)
      requires Idle()
      requires StartsFtyp(pBuff) ==> Be32(pBuff, 0) + BOX_HEADER_LENGTH <= |pBuff|
      requires StartsHeader(pBuff) ==> BeginsFile(pBuff, bs)
      modifies `filePos, `headerBuffer, `headerSize, `headerSizeSaved, `kept
      modifies `unpacker, `track, `parseDone, `numSamples, `sampleId, `t, `base, `before
      ensures SameObjects()
      ensures |pBuff| < MIN_START_SIZE ==> ret == M4AERR_ARG
      ensures |pBuff| >= MIN_START_SIZE ==> filePos == |pBuff|
      ensures |pBuff| >= MIN_START_SIZE && !StartsHeader(pBuff) ==> ret == M4AERR_VAL && !parseDone
      ensures StartsHeader(pBuff) ==> HeaderBegun(pBuff, bs, ret)
    {
      assert StartsHeader(pBuff) ==> |pBuff| >= MIN_START_SIZE;
      assert StartsHeader(pBuff) ==> Be32(pBuff, 0) + BOX_HEADER_LENGTH <= |pBuff|;
      hide BeginsFile, Be32, SizeAll, HeaderBegun, StartsFtyp, StartsHeader;
      if |pBuff| < MIN_START_SIZE { return M4AERR_ARG; }
      filePos := filePos + |pBuff|;
      var boxSize, moovSize;
      ret, boxSize, moovSize := LeadingSizes(pBuff);
      headerSize := headerSize + boxSize;
      if ret != M4AERR_OK { return M4AERR_VAL; }
      headerSize := headerSize + moovSize;
      ret := TakeStart(pBuff, bs);
    }

    /** Takes the header bytes of the first piece. */
    method TakeStart(pBuff: seq<byte>, ghost bs: Boxes) returns (ret: int)
      requires headerSizeSaved == 0 && headerBuffer == [] && kept == [] && !parseDone
      requires BOX_HEADER_LENGTH <= |pBuff| && filePos == |pBuff| && BeginsFile(pBuff, bs)
      requires Be32(pBuff, 0) + BOX_HEADER_LENGTH <= |pBuff|
      requires headerSize == Be32(pBuff, 0) + Be32(pBuff, Be32(pBuff, 0))
      modifies `headerBuffer, `headerSize, `headerSizeSaved, `kept
      modifies `unpacker, `track, `parseDone, `numSamples, `sampleId, `t, `base, `before
      ensures SameObjects()
      ensures HeaderBegun(pBuff, bs, ret)
    {
      ShowCollecting(pBuff, bs);
      hide CollectingAt, Describes, Be32, Size, SizeAll, Started, Taken, HasTrack;
      ret := TakeHeader(pBuff, bs);
    }

    /** With the sizes of both boxes added up collecting can start. */
    lemma ShowCollecting(pBuff: seq<byte>, bs: Boxes)
      requires headerSizeSaved == 0 && headerBuffer == [] && kept == [] && !parseDone
      requires BOX_HEADER_LENGTH <= |pBuff| <= |file| && pBuff == file[..|pBuff|]
      requires Be32(pBuff, 0) + BOX_HEADER_LENGTH <= |pBuff|
      requires headerSize == Be32(pBuff, 0) + Be32(pBuff, Be32(pBuff, 0))
      requires SizeAll(bs) <= |file| && Describes(file[..SizeAll(bs)], bs, [], l, |file|)
      ensures headerSize == SizeAll(bs) && CollectingAt(bs, 0) && pBuff == file[0..|pBuff|]
    {
      LeadingBoxes(pBuff, bs);
      hide Describes, Be32, Size, SizeAll, HasTrack;
      assert file[..0] == [] && pBuff == file[0..|pBuff|];
    }

    /** The sizes of the two leading boxes, or an error when they are not ftyp
        and moov. */
    method LeadingSizes(pBuff: seq<byte>) returns (ret: int, boxSize: int, moovSize: int)
      requires |pBuff| >= MIN_START_SIZE
      requires StartsFtyp(pBuff) ==> Be32(pBuff, 0) + BOX_HEADER_LENGTH <= |pBuff|
      ensures ret == if StartsHeader(pBuff) then M4AERR_OK else M4AERR_VAL
      ensures ret == M4AERR_OK ==>
                && boxSize == Be32(pBuff, 0) && boxSize + BOX_HEADER_LENGTH <= |pBuff|
                && moovSize == Be32(pBuff, boxSize)
    {
      hide FromBytes, Be32;
      ret, boxSize, moovSize := M4AERR_VAL, 0, 0;
      if FromBytes(pBuff[4..8]) != "ftyp" { return; }
      var size := Be32(pBuff, 0);
      if size == 1 { return; }
      boxSize := size;
      if FromBytes(pBuff[boxSize + 4..boxSize + 8]) != "moov" { return; }
      moovSize := Be32(pBuff, boxSize);
      ret := M4AERR_OK;
    }

    /** The first piece shows the sizes of the two leading boxes. */
    lemma LeadingBoxes(pBuff: seq<byte>, bs: Boxes)
      requires |pBuff| <= |file| && pBuff == file[..|pBuff|] && BOX_HEADER_LENGTH <= |pBuff|
      requires Be32(pBuff, 0) + BOX_HEADER_LENGTH <= |pBuff|
      requires SizeAll(bs) <= |file| && Describes(file[..SizeAll(bs)], bs, [], l, |file|)
      ensures bs.Boxes? && bs.others.Boxes? && Be32(pBuff, 0) == Size(bs.first) != 1
      ensures Be32(pBuff, Size(bs.first)) == Size(bs.others.first)
      ensures SizeAll(bs) == Size(bs.first) + Size(bs.others.first) > 0
    {
      hide Playable, LaysOut, RootTracks, RootPlaced, HasTrack, Layout.Ascending, Be32, FromBytes, Encode;
      var header := file[..SizeAll(bs)];
      var a, b := bs.first, bs.others.first;
      assert header == Encode(a) + Encode(b) by {
        assert header[0..] == header;
        assert EncodeAll(bs.others) == Encode(b) + [] == Encode(b);
        assert EncodeAll(bs) + [] == EncodeAll(bs);
      }
      TwoBoxes(header, a, b);
      SamePrefix(pBuff, file, 8, 0);
      SamePrefix(header, file, 8, 0);
      var n := Size(a) + BOX_HEADER_LENGTH;
      SamePrefix(pBuff, file, n, Size(a));
      SamePrefix(header, file, n, Size(a));
    }

    /** Between two pieces: the header is being collected, or cannot be completed,
        or was refused, or streaming goes on. */
    ghost predicate Between(bs: Boxes)
      reads this, unpacker, track, track.stszTable, track.stcoChunkOffset
    {
      && 0 <= filePos <= |file|
      && (headerSize > 0 ==> if Room() then Collecting(bs) else Stuck())
      && (headerSize <= 0 && parseDone ==> Started() || Streaming())
    }

    /** The piece is the next one of the file, and long enough to be stored
        when the header goes on behind it. */
    ghost predicate NextPiece(pBuff: seq<byte>)
      reads this
    {
      && 0 <= filePos && filePos + |pBuff| <= |file| && pBuff == file[filePos..filePos + |pBuff|]
      && (0 < |pBuff| < headerSize && Room() ==> |pBuff| >= MIN_LENGTH)
    }

    /** A piece in the middle of the file. */
    method FilePlay(pBuff: seq<byte>, ghost bs: Boxes) returns (ret: int)
      requires Between(bs) && NextPiece(pBuff)
      modifies this, unpacker, track, track.stszTable, track.stcoChunkOffset
      ensures SameObjects() && (old(headerSize) <= 0 ==> SameTrack())
      ensures filePos == old(filePos) + |pBuff| && file == old(file) && l == old(l) && asc == old(asc) && Between(bs)
      ensures pBuff == [] ==>
                && ret == M4AERR_ARG && codec == old(codec) && headerSize == old(headerSize)
                && headerBuffer == old(headerBuffer) && kept == old(kept)
                && parseDone == old(parseDone) && base == old(base) && before == old(before)
                && sampleId == old(sampleId)
      ensures pBuff != [] && old(headerSize) > 0 && !old(Room()) ==>
                && Stuck() && codec == old(codec)
                && ret == if old(Fits(pBuff)) then M4AERR_OK else M4AERR_VAL
      ensures 0 < |pBuff| < old(headerSize) && old(Room()) ==>
                ret == M4AERR_OK && Collecting(bs) && codec == old(codec)
      ensures 0 < old(headerSize) <= |pBuff| && old(Room()) ==>
                Taken(bs, ret) && codec == old(codec) && (ret == M4AERR_OK ==> before == codec)
      ensures pBuff != [] && old(headerSize) <= 0 && !old(parseDone) ==>
                ret == M4AERR_OK && codec == old(codec) && headerSize <= 0 && !parseDone
      ensures pBuff != [] && old(headerSize) <= 0 && old(parseDone) ==>
                && ret == M4AERR_OK && headerSize <= 0 && parseDone
                && Streaming() && Advanced(old(codec), old(sampleId)) && base == old(base) && before == old(before)
    {
      hide Started, Streaming, Advanced, Describes, Usable, HasTrack;
      if pBuff == [] { return M4AERR_ARG; }
      if headerSize > 0 {
        filePos := filePos + |pBuff|;
        ret := TakeHeader(pBuff, bs);
      } else {
        ret := PlayData(pBuff);
      }
    }

    /** All frames from a base on were sent behind what was sent before, exactly
        when complete, and nothing otherwise. */
    ghost predicate AllOrNothing(sent: seq<byte>, was: seq<byte>, from: int, complete: bool)
      reads `l, `file, `asc, `numSamples
    {
      && l.Ascending(|file|) && 0 <= from <= |l.start| == numSamples
      && (sent == was + Frames(l, file, asc, from, |l.start|) <==> complete)
      && (!complete ==> sent == was)
    }

    /** The result of the last piece: an error when its header bytes find no room
        or complete a header that is refused. */
    ghost predicate LastResult(pBuff: seq<byte>, bs: Boxes, ret: int)
      reads this
    {
      ret == if pBuff == [] || headerSize <= 0 then M4AERR_OK
             else if !Room() then if Fits(pBuff) then M4AERR_OK else M4AERR_VAL
             else if headerSize <= |pBuff| && !Usable(bs) then M4AERR_VAL
             else M4AERR_OK
    }

    /** The last piece of the file. It is sent like any other when the header
        was complete before it; a header that it completes is parsed, but none
        of the bytes behind it are sent any more. At the end of the file the
        codec then has the frame of every sample from the base on exactly when
        the last piece was not empty or no sample is pending. */
    method FileEnd(pBuff: seq<byte>, ghost bs: Boxes) returns (ret: int)
      requires Between(bs) && NextPiece(pBuff)
      modifies this, unpacker, track, track.stszTable, track.stcoChunkOffset
      ensures filePos == old(filePos) + |pBuff| && kept == []
      ensures file == old(file) && l == old(l) && asc == old(asc)
      ensures old(LastResult(pBuff, bs, ret))
      ensures codecEnded == (old(codecEnded) || ret == M4AERR_OK)
      ensures old(headerSize) > 0 || !old(parseDone) || pBuff == [] ==> codec == old(codec)
      ensures old(headerSize) <= 0 && old(parseDone) && filePos == |file| ==>
                && numSamples == old(numSamples)
                && AllOrNothing(codec, old(before), old(base), pBuff != [] || old(sampleId) == numSamples)
    {
      hide Started, Streaming, Advanced, Describes, Usable, HasTrack, AllOrNothing, Padded;
      ret := M4AERR_OK;
      if pBuff != [] {
        if headerSize > 0 {
          filePos := filePos + |pBuff|;
          ret := TakeHeader(pBuff, bs);
          if ret != M4AERR_OK {
            kept := [];
            return M4AERR_VAL;
          }
        } else {
          ret := PlayData(pBuff);
        }
      }
      if old(headerSize) <= 0 && parseDone && filePos == |file| { ShowSent(); }
      codecEnded := true;
      kept := [];
    }

    /** At the end of the file all frames were sent exactly when no sample is
        pending, and none otherwise. */
    lemma ShowSent()
      requires (Started() || Streaming()) && filePos == |file|
      ensures AllOrNothing(codec, before, base, sampleId == numSamples)
      ensures Streaming() ==> sampleId == numSamples
    {
      hide Parsed;
      if Streaming() {
        NothingPending(l, |file|, base);
      } else {
        assert before + [] == before;
        if base < numSamples { FramesNotEmpty(l, file, asc, base, |l.start|); }
      }
    }

    /** One of them. */
    method PlayPiece(piece: seq<byte>, ghost bs: Boxes)
      requires headerSize <= 0 && parseDone && Between(bs) && NextPiece(piece)
      modifies this, unpacker, track, track.stszTable, track.stcoChunkOffset
      ensures SameTrack() && Between(bs) && headerSize <= 0 && parseDone && filePos == old(filePos) + |piece|
      ensures file == old(file) && l == old(l) && asc == old(asc) && base == old(base) && before == old(before)
      ensures l.Ascending(|file|) && 0 <= old(sampleId) <= sampleId <= |l.start|
      ensures if piece == [] then sampleId == old(sampleId) && codec == old(codec)
              else sampleId == Pending(l, filePos, old(sampleId))
                   && codec == old(codec) + Frames(l, file, asc, old(sampleId), sampleId)
    {
      hide Between, NextPiece, Streaming, Started, Frames, Pending, Taken, Rest, Usable;
      ShowRange(bs);
      var _ := FilePlay(piece, bs);
      ShowRange(bs);
    }

    /** Pieces in the middle of the file once the header is complete: each sends
        what it completes. */
    method PlayMiddle(pieces: seq<seq<byte>>, ghost to: int, ghost bs: Boxes)
      requires headerSize <= 0 && parseDone && Between(bs) && CutsUp(pieces, file, filePos, to)
      modifies this, unpacker, track, track.stszTable, track.stcoChunkOffset
      ensures SameTrack() && Between(bs) && headerSize <= 0 && parseDone && filePos == to
      ensures file == old(file) && l == old(l) && asc == old(asc) && base == old(base) && before == old(before)
      ensures Sent(l, file, asc, pieces, old(filePos), to, old(sampleId), sampleId, old(codec), codec)
      decreases |pieces|
    {
      hide Between, NextPiece, Frames, Pending, Sent;
      ghost var pos, i, was := filePos, sampleId, codec;
      ShowRange(bs);
      if pieces == [] {
        SentNothing(l, file, asc, pos, i, was);
        return;
      }
      ShowNext(pieces, to);
      PlayPiece(pieces[0], bs);
      hide CutsUp;
      ghost var j, now := sampleId, codec;
      PlayMiddle(pieces[1..], to, bs);
      SentMore(l, file, asc, pieces, pos, to, i, j, sampleId, was, now, codec);
    }

    /** All of them together send what one piece would. */
    method PlayPieces(pieces: seq<seq<byte>>, ghost to: int, ghost bs: Boxes)
      requires headerSize <= 0 && parseDone && Between(bs) && CutsUp(pieces, file, filePos, to)
      modifies this, unpacker, track, track.stszTable, track.stcoChunkOffset
      ensures SameTrack() && Between(bs) && headerSize <= 0 && parseDone && filePos == to
      ensures file == old(file) && l == old(l) && asc == old(asc) && base == old(base) && before == old(before)
      ensures l.Ascending(|file|) && 0 <= old(sampleId) <= sampleId <= |l.start|
      ensures sampleId == if HasData(pieces) then Pending(l, to, old(sampleId)) else old(sampleId)
      ensures codec == old(codec) + Frames(l, file, asc, old(sampleId), sampleId)
      ensures !HasData(pieces) ==> codec == old(codec)
    {
      hide Between, Frames, Pending, Sent;
      ghost var pos, i, was := filePos, sampleId, codec;
      PlayMiddle(pieces, to, bs);
      SentAsOne(l, file, asc, pieces, pos, to, i, sampleId, was, codec);
    }

    lemma ShowNext(pieces: seq<seq<byte>>, to: int)
      requires pieces != [] && headerSize <= 0 && CutsUp(pieces, file, filePos, to)
      ensures NextPiece(pieces[0]) && CutsUp(pieces[1..], file, filePos + |pieces[0]|, to)
    {
    }

    /** The rest of the file while streaming: the codec gets all frames from the
        base on exactly when there is a byte in the pieces or no sample is
        pending; otherwise it gets nothing. */
    method PlayOut(middle: seq<seq<byte>>, last: seq<byte>, ghost to: int, ghost bs: Boxes)
      requires headerSize <= 0 && parseDone && Between(bs)
      requires CutsUp(middle, file, filePos, to) && last == file[to..]
      modifies this, unpacker, track, track.stszTable, track.stcoChunkOffset
      ensures file == old(file) && l == old(l) && asc == old(asc) && l.Ascending(|file|)
      ensures 0 <= old(base) <= |l.start|
      ensures if HasData(middle) || last != [] || old(sampleId) == |l.start|
              then codec == old(before) + Frames(l, file, asc, old(base), |l.start|)
              else codec == old(codec)
    {
      hide Started, Streaming, Describes, Frames, Pending, Streamed, Ends, CollectingAt, HasTrack;
      PlayPieces(middle, to, bs);
      ShowRange(bs);
      if last == [] {
        NothingPending(l, |file|, old(sampleId));
        ShowSent();
      }
      var _ := FileEnd(last, bs);
    }

    /** Pieces before the header ends are empty, complete it, or are long enough
        to be stored as they are. */
    static predicate Storable(pieces: seq<seq<byte>>, pos: int, header: int) {
      pieces != [] ==>
        && (pieces[0] != [] && pos + |pieces[0]| < header ==> |pieces[0]| >= MIN_LENGTH)
        && Storable(pieces[1..], pos + |pieces[0]|, header)
    }

    /** Behind the header there is nothing to store. */
    static lemma {:induction false} StorableBehind(pieces: seq<seq<byte>>, pos: int, header: int)
      requires header <= pos
      ensures Storable(pieces, pos, header)
      decreases |pieces|
    {
      if pieces != [] { StorableBehind(pieces[1..], pos + |pieces[0]|, header); }
    }

    /** Some piece with a byte in it starts behind the header. */
    static predicate SomeBehind(middle: seq<seq<byte>>, last: seq<byte>, pos: int, to: int, header: int) {
      DataBehind(middle, pos, header) || (last != [] && header <= to)
    }

    /** The piece that completes the header finds room for its last bytes, the
        first of the pieces starting at pos. */
    static predicate Stores(pieces: seq<seq<byte>>, pos: int, header: int) {
      pieces != []
      && var next := pos + |pieces[0]|;
         if next < header then Stores(pieces[1..], next, header) else HasRoom(pos, header - pos)
    }

    /** Without room for the rest of the header no pieces complete it. */
    static lemma {:induction false} NoRoomNoStore(pieces: seq<seq<byte>>, pos: int, header: int)
      requires !HasRoom(pos, header - pos)
      ensures !Stores(pieces, pos, header)
      decreases |pieces|
    {
      if pieces != [] && pos + |pieces[0]| < header { NoRoomNoStore(pieces[1..], pos + |pieces[0]|, header); }
    }

    /** In pieces of one size the header finds room exactly when the last part of
        it does. */
    static lemma {:induction false} EqualPieces(pieces: seq<seq<byte>>, size: nat, pos: int, header: int, k: nat)
      requires 0 < size && k < |pieces| && forall i :: 0 <= i < |pieces| ==> |pieces[i]| == size
      requires pos + k * size < header <= pos + k * size + size
      ensures Stores(pieces, pos, header) <==> HasRoom(pos + k * size, header - (pos + k * size))
      decreases k
    {
      if k > 0 {
        assert k * size == (k - 1) * size + size && (k - 1) * size >= 0;
        EqualPieces(pieces[1..], size, pos + size, header, k - 1);
      }
    }

    /** In pieces of 1024 bytes, as the download delivers them, that is exactly
        when the header is no larger than its buffer. */
    static lemma FramesFindRoom(pieces: seq<seq<byte>>, header: nat)
      requires forall i :: 0 <= i < |pieces| ==> |pieces[i]| == FRAME_SIZE
      requires 0 < header <= |pieces| * FRAME_SIZE
      ensures Stores(pieces, 0, header) <==> header <= MAX_M4A_HEADER_SIZE
    {
      EqualPieces(pieces, FRAME_SIZE, 0, header, (header - 1) / FRAME_SIZE);
    }

    /** In pieces of 1460 bytes a header of 524200 bytes does not, though it is
        smaller than its buffer: its last 60 bytes are filled up beyond the end. */
    static lemma LastPartOverruns(pieces: seq<seq<byte>>)
      requires |pieces| > 359 && forall i :: 0 <= i < |pieces| ==> |pieces[i]| == 1460
      ensures 524200 <= MAX_M4A_HEADER_SIZE && !Stores(pieces, 0, 524200)
    {
      EqualPieces(pieces, 1460, 0, 524200, 359);
    }

    /** The rest of the file when the header was refused or cannot be completed:
        nothing is sent. */
    method PlayNothing(middle: seq<seq<byte>>, last: seq<byte>, ghost to: int, ghost bs: Boxes)
      requires (headerSize <= 0 || Stuck()) && !parseDone && Between(bs)
      requires CutsUp(middle, file, filePos, to) && last == file[to..]
      modifies this, unpacker, track, track.stszTable, track.stcoChunkOffset
      ensures file == old(file) && l == old(l) && asc == old(asc) && codec == old(codec)
      decreases |middle|
    {
      hide Started, Streaming, Describes, HasTrack;
      if middle == [] {
        var _ := FileEnd(last, bs);
      } else {
        var _ := FilePlay(middle[0], bs);
        PlayNothing(middle[1..], last, to, bs);
      }
    }

    /** The rest of the file while the header is being collected: the codec gets
        all frames exactly when the header describes a track to play, the piece
        that completes it finds room and some piece with a byte in it starts
        behind the header; otherwise nothing. */
    method PlayHeader(middle: seq<seq<byte>>, last: seq<byte>, ghost to: int, ghost bs: Boxes)
      requires Collecting(bs) && Room() && Between(bs) && CutsUp(middle, file, filePos, to) && last == file[to..]
      requires Storable(middle + [last], filePos, SizeAll(bs))
      modifies this, unpacker, track, track.stszTable, track.stcoChunkOffset
      ensures file == old(file) && l == old(l) && asc == old(asc)
      ensures var all := Usable(bs) && Stores(middle, old(filePos), SizeAll(bs))
                         && SomeBehind(middle, last, old(filePos), to, SizeAll(bs));
        && (all ==> l.Ascending(|file|) && codec == old(codec) + Frames(l, file, asc, 0, |l.start|))
        && (!all ==> codec == old(codec))
      decreases |middle|, 0
    {
      hide Started, Streaming, Advanced, Describes, Usable, Frames, Fits, LastResult;
      if middle == [] {
        var _ := FileEnd(last, bs);
        return;
      }
      ghost var rest, next := middle[1..], filePos + |middle[0]|;
      assert (middle + [last])[1..] == rest + [last];
      if next >= SizeAll(bs) { BehindIsAny(rest, next, SizeAll(bs)); }
      if !HasRoom(next, SizeAll(bs) - next) { NoRoomNoStore(rest, next, SizeAll(bs)); }
      var _ := FilePlay(middle[0], bs);
      PlayBehind(middle[1..], last, to, bs);
    }

    /** The rest of the file, whatever was reached. */
    method PlayBehind(middle: seq<seq<byte>>, last: seq<byte>, ghost to: int, ghost bs: Boxes)
      requires Between(bs) && CutsUp(middle, file, filePos, to) && last == file[to..]
      requires headerSize > 0 && Room() ==> Storable(middle + [last], filePos, SizeAll(bs))
      requires headerSize <= 0 ==> Taken(bs, if Usable(bs) then M4AERR_OK else M4AERR_VAL)
      requires headerSize <= 0 && Usable(bs) ==> before == codec
      modifies this, unpacker, track, track.stszTable, track.stcoChunkOffset
      ensures file == old(file) && l == old(l) && asc == old(asc)
      ensures var all := Usable(bs) && SomeBehind(middle, last, old(filePos), to, SizeAll(bs))
                         && (old(headerSize) > 0 ==> old(Room()) && Stores(middle, old(filePos), SizeAll(bs)));
        && (all ==> l.Ascending(|file|) && codec == old(codec) + Frames(l, file, asc, 0, |l.start|))
        && (!all ==> codec == old(codec))
      decreases |middle|, 1
    {
      hide Started, Streaming, Describes, HasTrack, Frames, Storable, Stores;
      if headerSize > 0 && !Room() {
        PlayNothing(middle, last, to, bs);
      } else if headerSize > 0 {
        PlayHeader(middle, last, to, bs);
      } else {
        BehindIsAny(middle, filePos, SizeAll(bs));
        if parseDone { PlayOut(middle, last, to, bs); } else { PlayNothing(middle, last, to, bs); }
      }
    }

    /** A whole file: a first piece, any in the middle, and a last one. The codec
        gets all frames exactly when the header describes a track to play, the
        piece that completes it finds room in the header buffer, and a piece with
        a byte in it starts behind the header; otherwise nothing. */
    method PlayFile(first: seq<byte>, middle: seq<seq<byte>>, last: seq<byte>, ghost to: int, ghost bs: Boxes)
      requires Idle() && |first| <= |file| && first == file[..|first|]
      requires CutsUp(middle, file, |first|, to) && last == file[to..]
      requires SizeAll(bs) <= MAX_M4A_HEADER_SIZE ==> Storable([first] + middle + [last], 0, SizeAll(bs))
      requires StartsHeader(first)
      requires SizeAll(bs) <= |file| && Describes(file[..SizeAll(bs)], bs, [], l, |file|)
      modifies this, unpacker, track, track.stszTable, track.stcoChunkOffset
      ensures file == old(file) && l == old(l) && asc == old(asc)
      ensures var all := Usable(bs) && Stores([first] + middle, 0, SizeAll(bs))
                         && SomeBehind(middle, last, |first|, to, SizeAll(bs));
        && (all ==> l.Ascending(|file|) && codec == old(codec) + Frames(l, file, asc, 0, |l.start|))
        && (!all ==> codec == old(codec))
    {
      hide Started, Streaming, Describes, HasTrack, Frames, FromBytes, Be32;
      ghost var header := SizeAll(bs);
      assert ([first] + middle + [last])[1..] == middle + [last] && ([first] + middle)[1..] == middle;
      if header > MAX_M4A_HEADER_SIZE { NoRoomNoStore([first] + middle, 0, header); }
      if |first| < header && !HasRoom(|first|, header - |first|) { NoRoomNoStore(middle, |first|, header); }
      var _ := FileStart(first, bs);
      PlayBehind(middle, last, to, bs);
    }

    lemma ShowRange(bs: Boxes)
      requires headerSize <= 0 && parseDone && Between(bs)
      ensures l.Ascending(|file|) && 0 <= base <= sampleId <= |l.start| == numSamples && (Started() || Streaming())
    {
      hide Track.Valid, LaysOut;
    }

    /** With the header parsed, the bytes behind it are at hand. */
    lemma HeaderDone(bs: Boxes)
      requires Parsed() && sampleId == base == 0 && before == codec && 0 < numSamples && track.Covers(0)
      requires SizeAll(bs) <= filePos <= |file| && kept == file[SizeAll(bs)..filePos] && HasTrack(bs)
      requires Describes(file[..SizeAll(bs)], bs, [], l, |file|)
      ensures Started() && parseDone && numSamples == |l.start|
    {
      hide Track.Valid, IsHeader, Remaining, RootTracks, Playable, HasTrack;
      if l.start[0] < filePos {
        assert SizeAll(bs) <= l.start[0];
        var m := filePos - l.start[0];
        assert kept[|kept| - m..] == file[l.start[0]..filePos];
      }
    }
  }

  /** Parses a stored header and chooses the audio track: -1 when it does not
      open or has none. */
  method ChooseTrack(u: Unpacker, ghost bs: Boxes, ghost tail: seq<byte>) returns (trackId: int)
    requires u.tracks == [] && Remaining(u.stream, 0, bs, tail) && RootPlaced(bs)
    modifies u
    ensures trackId >= 0 <==> HasTrack(bs)
    ensures trackId >= 0 ==>
              && trackId < |u.tracks| && u.tracks[trackId] == TrackOf(bs) && Loaded(u.stream, u.tracks[trackId])
              && 0 <= u.currentPosition
  {
    assert Opens(bs) ==> |RootTracks(bs, 0)| <= MAX_TRACKS;
    hide Loaded, Remaining, RootPlaced, RootTracks, Opens, FirstAudio;
    var ok := OpenUnpacker(u, bs, tail);
    if ok < 0 { return -1; }
    trackId := GetAacTrack(u);
    if trackId < 0 { return -1; }
    assert trackId == FirstAudio(u.tracks);
  }

  /** Parses a stored header, chooses the audio track and fills its window for
      the first sample. */
  method OpenTrack(stored: seq<byte>, configOk: bool, ghost bs: Boxes, ghost tail: seq<byte>, ghost l: Layout,
                   ghost fileSize: nat)
    returns (ret: int, u: Unpacker, tr: Track, num: int, ghost t: Tables)
    requires Describes(stored, bs, tail, l, fileSize)
    ensures ret == (if HasTrack(bs) && configOk then M4AERR_OK else M4AERR_VAL)
    ensures fresh(u) && fresh(tr) && fresh(tr.stszTable) && fresh(tr.stcoChunkOffset)
    ensures ret == M4AERR_OK ==>
              && tr.Valid(u.stream, t) && LaysOut(t, l) && 0 <= u.currentPosition && l.Ascending(fileSize)
              && num == t.sampleCount > 0 && tr.Covers(0)
  {
    ret, num := M4AERR_VAL, 0;
    u := new Unpacker(stored, true);
    tr := new Track(EMPTY_TRACK);
    t := Tables([], [], [], 0, [], 0);
    assert IsHeader(bs) && RootPlaced(bs) && Remaining(stored, 0, bs, tail);
    if HasTrack(bs) { DescribedTrack(stored, bs, tail, l, fileSize); }
    hide Describes, IsHeader, LaysOut, Loaded, Playable, Remaining, RootPlaced, HasTrack, TrackOf, Track.Valid;
    hide TablesInStream, FlatTables, Consistent;
    var trackId := ChooseTrack(u, bs, tail);
    if trackId < 0 || !configOk { return; }
    ret, tr, num, t := StartTrack(u, u.tracks[trackId]);
  }

  /** Makes a playable track's index ready for its first sample. */
  method StartTrack(u: Unpacker, v: TrackView) returns (ret: int, tr: Track, num: int, ghost t: Tables)
    requires Playable(u.stream, v) && Loaded(u.stream, v) && 0 <= u.currentPosition
    modifies u`currentPosition
    ensures fresh(tr) && fresh(tr.stszTable) && fresh(tr.stcoChunkOffset) && t == FlatTables(u.stream, v)
    ensures ret == M4AERR_OK && tr.Valid(u.stream, t) && num == t.sampleCount && tr.Covers(0)
    ensures 0 <= u.currentPosition
  {
    t := FlatTables(u.stream, v);
    assert t.sampleCount > 0 && t.sampleCount == Total(v.sttsCounts);
    hide Loaded, Playable, Consistent, Track.Valid, FlatTables, Total;
    tr := new Track(v);
    TrackReady(u.stream, v, tr);
    num := u.GetSamplesNumber(tr);
    var filled := u.FillStszTable(tr, 0, t);
    ret := if filled < 0 then M4AERR_VAL else M4AERR_OK;
  }

  /** The track that a described header makes playable. */
  lemma DescribedTrack(stored: seq<byte>, bs: Boxes, tail: seq<byte>, l: Layout, fileSize: nat)
    requires Describes(stored, bs, tail, l, fileSize) && HasTrack(bs)
    ensures Playable(stored, TrackOf(bs)) && TablesInStream(stored, TrackOf(bs)) && l.Ascending(fileSize)
    ensures var t := FlatTables(stored, TrackOf(bs));
      Consistent(t) && LaysOut(t, l) && 0 < t.sampleCount == Total(TrackOf(bs).sttsCounts)
  {
    hide HasTrack, TrackOf;
  }
}
