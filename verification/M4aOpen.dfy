// From the bytes of a file header to a track whose index answers: opening the
// unpacker, choosing the audio track, and why its windows are then valid, whatever
// boxes the tables stood in.

module M4aOpen {
  import opened Bytes
  import opened M4aTables
  import opened M4aUnpacker
  import opened M4aBoxes
  import opened M4aBoxParser

  /** The chunk-offset entries in memory are the first ones in the stream. */
  ghost predicate Loaded(s: seq<byte>, v: TrackView) {
    && 0 <= v.chunkCount
    && (v.chunkCount == 0 ==> v.offsets == [])
    && (v.chunkCount > 0 ==>
          && 0 <= v.offsetsAt && v.offsetsAt + 4 * v.chunkCount <= |s|
          && v.offsets == Words(s, v.offsetsAt, 4, Min(v.chunkCount, MAX_NUM_STCO_LOAD)))
  }

  lemma {:induction false} WordsAt(s: seq<byte>, at: nat, stride: nat, n: nat, i: nat)
    requires stride >= 4 && at + stride * n <= |s| && i < n
    ensures at + stride * i + 4 <= |s| && Words(s, at, stride, n)[i] == AsInt32(Be32(s, at + stride * i))
    decreases n
  {
    assert stride * n == stride * (n - 1) + stride;
    if i < n - 1 { WordsAt(s, at, stride, n - 1, i); }
  }

  /** Words of a leaf are words of the stream it stands in. */
  lemma {:induction false} WordsWithin(s: seq<byte>, p: nat, payload: seq<byte>, at: nat, n: nat)
    requires Has(s, p, payload) && at + 4 * n <= |payload|
    ensures Words(payload, at, 4, n) == Words(s, p + at, 4, n)
    decreases n
  {
    if n > 0 {
      WordsWithin(s, p, payload, at, n - 1);
      var k := at + 4 * (n - 1);
      assert Be32(s, p + k) == Be32(s[p..p + |payload|], k);
    }
  }

  lemma TableLoaded(s: seq<byte>, ty: BoxType, payload: seq<byte>, p: nat, v: TrackView)
    requires Has(s, p, payload) && ty.IsTable() && LeafOk(ty, payload) && Loaded(s, v)
    ensures Loaded(s, Table(ty, payload, p, v))
  {
    hide EntriesOk, LastIsAudio, Words;
    if ty.Stco? { WordsWithin(s, p, payload, 8, Min(Count(payload), MAX_NUM_STCO_LOAD)); }
  }

  /** Whatever boxes a track has, at whatever depth, its offsets are loaded. */
  lemma {:induction false} InsideLoaded(s: seq<byte>, bs: Boxes, p: int, v: TrackView)
    requires WellFormedAll(bs) && PlacedAll(bs, true) && Has(s, p, EncodeAll(bs)) && Loaded(s, v)
    ensures Loaded(s, Inside(bs, p, v))
    decreases bs, 0
  {
    hide Loaded, Table, Encode, BoxAccepted;
    if bs.Boxes? {
      FirstBox(s, p, bs);
      InsideBoxLoaded(s, bs.first, p, v);
      if BoxAccepted(bs.first, true) {
        InsideLoaded(s, bs.others, p + Size(bs.first), InsideBox(bs.first, p, v));
      }
    }
  }

  lemma {:induction false} InsideBoxLoaded(s: seq<byte>, b: Box, p: int, v: TrackView)
    requires WellFormed(b) && Placed(b, true) && Has(s, p, Encode(b)) && Loaded(s, v)
    ensures Loaded(s, InsideBox(b, p, v))
    decreases b, 1
  {
    hide Loaded, Table, LeafOk;
    HeaderOf(s, p, b);
    if b.Node? {
      InsideLoaded(s, b.children, p + BOX_HEADER_LENGTH, v);
    } else if TypeOf(b).IsTable() {
      TableLoaded(s, TypeOf(b), b.payload, p + BOX_HEADER_LENGTH, v);
    }
  }

  ghost predicate AllLoaded(s: seq<byte>, vs: seq<TrackView>) {
    forall i :: 0 <= i < |vs| ==> Loaded(s, vs[i])
  }

  lemma AllLoadedConcat(s: seq<byte>, a: seq<TrackView>, b: seq<TrackView>)
    requires AllLoaded(s, a) && AllLoaded(s, b)
    ensures AllLoaded(s, a + b)
  {
    hide Loaded;
  }

  lemma {:induction false} TracksLoaded(s: seq<byte>, bs: Boxes, p: int)
    requires WellFormedAll(bs) && PlacedAll(bs, false) && Has(s, p, EncodeAll(bs))
    ensures AllLoaded(s, TracksIn(bs, p))
    decreases bs, 0
  {
    hide Encode, Loaded, TracksInBox, BoxAccepted;
    if bs.Boxes? {
      FirstBox(s, p, bs);
      TracksInBoxLoaded(s, bs.first, p);
      if BoxAccepted(bs.first, false) {
        TracksLoaded(s, bs.others, p + Size(bs.first));
        AllLoadedConcat(s, TracksInBox(bs.first, p), TracksIn(bs.others, p + Size(bs.first)));
      }
    }
  }

  lemma {:induction false} TracksInBoxLoaded(s: seq<byte>, b: Box, p: int)
    requires WellFormed(b) && Placed(b, false) && Has(s, p, Encode(b))
    ensures AllLoaded(s, TracksInBox(b, p))
    decreases b, 1
  {
    hide Inside, TracksIn, Has, Encode, EncodeAll;
    if b.Node? {
      HeaderOf(s, p, b);
      if TypeOf(b).Trak? {
        assert Loaded(s, EMPTY_TRACK);
        InsideLoaded(s, b.children, p + BOX_HEADER_LENGTH, EMPTY_TRACK);
      } else {
        TracksLoaded(s, b.children, p + BOX_HEADER_LENGTH);
      }
    }
  }

  lemma {:induction false} RootLoaded(s: seq<byte>, bs: Boxes, p: int)
    requires WellFormedAll(bs) && RootPlaced(bs) && Has(s, p, EncodeAll(bs))
    ensures AllLoaded(s, RootTracks(bs, p))
    decreases bs
  {
    hide Encode, AllLoaded, RootTracksOf, RootBoxAccepted, Has;
    if bs.Boxes? {
      FirstBox(s, p, bs);
      RootBoxLoaded(s, bs.first, p);
      if RootBoxAccepted(bs.first) {
        RootLoaded(s, bs.others, p + Size(bs.first));
        AllLoadedConcat(s, RootTracksOf(bs.first, p), RootTracks(bs.others, p + Size(bs.first)));
      }
    } else {
      NoneLoaded(s);
    }
  }

  lemma RootBoxLoaded(s: seq<byte>, b: Box, p: int)
    requires WellFormed(b) && Has(s, p, Encode(b)) && RootBoxPlaced(b)
    ensures AllLoaded(s, RootTracksOf(b, p))
  {
    if b.Node? {
      HeaderOf(s, p, b);
      TracksLoaded(s, b.children, p + BOX_HEADER_LENGTH);
    }
  }

  lemma NoneLoaded(s: seq<byte>)
    ensures AllLoaded(s, [])
  {
  }

  /** The long tables of a track lie in the stream. */
  ghost predicate TablesInStream(s: seq<byte>, v: TrackView) {
    && 0 <= v.chunkCount && 0 <= v.offsetsAt && v.offsetsAt + 4 * v.chunkCount <= |s|
    && 0 <= v.sampleCount && 0 <= v.sizesAt && (v.sampleSize == 0 ==> v.sizesAt + 4 * v.sampleCount <= |s|)
  }

  /** A track's tables, unfolded from the stream. */
  ghost function FlatTables(s: seq<byte>, v: TrackView): Tables
    requires TablesInStream(s, v)
  {
    Tables(v.firstChunk, v.perChunk, Words(s, v.offsetsAt, 4, v.chunkCount), v.sampleSize,
           if v.sampleSize == 0 then Words(s, v.sizesAt, 4, v.sampleCount) else [], v.sampleCount)
  }

  /** Tables that agree with each other, hold no negative numbers and describe
      at least one sample. */
  ghost predicate Playable(s: seq<byte>, v: TrackView) {
    && TablesInStream(s, v)
    && (var t := FlatTables(s, v);
        && Consistent(t) && 0 < t.sampleCount == Total(v.sttsCounts)
        && forall i :: 0 <= i < |t.chunkOffset| ==> 0 <= t.chunkOffset[i])
  }

  lemma WordsInStream(s: seq<byte>, at: nat, n: nat)
    requires at + 4 * n <= |s| && forall i :: 0 <= i < n ==> 0 <= Words(s, at, 4, n)[i]
    ensures InStream(s, at, Words(s, at, 4, n))
  {
    var w := Words(s, at, 4, n);
    forall i | 0 <= i < n ensures 0 <= w[i] < TWO_31 && Be32(s, at + 4 * i) == w[i] { WordsAt(s, at, 4, n, i); }
  }

  /** The first words of a table are the words of its beginning. */
  lemma {:induction false} WordsPrefix(s: seq<byte>, at: nat, n: nat, m: nat)
    requires m <= n && at + 4 * n <= |s|
    ensures Words(s, at, 4, n)[..m] == Words(s, at, 4, m)
    decreases n
  {
    if m < n { WordsPrefix(s, at, n - 1, m); }
  }

  lemma {:induction false} WordsExtend(s: seq<byte>, more: seq<byte>, at: nat, n: nat)
    requires at + 4 * n <= |s|
    ensures Words(s + more, at, 4, n) == Words(s, at, 4, n)
    decreases n
  {
    if n > 0 { WordsExtend(s, more, at, n - 1); }
  }

  /** Bytes behind the header change nothing about its tracks. */
  lemma PlayableExtend(s: seq<byte>, more: seq<byte>, v: TrackView)
    requires Playable(s, v)
    ensures Playable(s + more, v) && FlatTables(s + more, v) == FlatTables(s, v)
  {
    WordsExtend(s, more, v.offsetsAt, v.chunkCount);
    if v.sampleSize == 0 { WordsExtend(s, more, v.sizesAt, v.sampleCount); }
  }

  /** A track taken over from a parsed header answers by its flat tables. */
  lemma TrackReady(s: seq<byte>, v: TrackView, track: Track)
    requires Loaded(s, v) && Playable(s, v)
    requires track.View() == v && track.NothingCurrent() && track.stcoFirstChunkLoaded == 0
    requires track.stszTable.Length == 0 && track.stszTable != track.stcoChunkOffset
    ensures track.Valid(s, FlatTables(s, v))
  {
    var t := FlatTables(s, v);
    TrackDescribes(s, v, track);
    TrackWindow(s, v, track);
    hide Words, Track.OffsetWindow, Track.Describes;
  }

  lemma TrackDescribes(s: seq<byte>, v: TrackView, track: Track)
    requires Playable(s, v) && track.View() == v
    ensures track.Describes(s, FlatTables(s, v)) && FlatTables(s, v).sampleCount > 0
  {
    WordsInStream(s, v.offsetsAt, v.chunkCount);
    if v.sampleSize == 0 { WordsInStream(s, v.sizesAt, v.sampleCount); }
    hide Words, InStream;
  }

  lemma TrackWindow(s: seq<byte>, v: TrackView, track: Track)
    requires Loaded(s, v) && TablesInStream(s, v) && track.View() == v && track.stcoFirstChunkLoaded == 0
    ensures track.OffsetWindow(FlatTables(s, v))
  {
    var t := FlatTables(s, v);
    var m := Min(v.chunkCount, MAX_NUM_STCO_LOAD);
    WordsPrefix(s, v.offsetsAt, v.chunkCount, m);
    hide Words;
    assert track.stcoChunkOffset[..] == v.offsets == t.chunkOffset[..m];
    assert forall i :: 0 <= i < m ==> track.stcoChunkOffset[i] == track.stcoChunkOffset[..][i];
  }

  /** The header opens: there is room for its tracks and no sample description
      is refused. */
  ghost predicate Opens(bs: Boxes)
    requires RootPlaced(bs)
  {
    RootAccepted(bs) && |RootTracks(bs, 0)| <= MAX_TRACKS
  }

  /** Parses the boxes from the start of the stream. */
  method OpenUnpacker(u: Unpacker, ghost bs: Boxes, ghost tail: seq<byte>) returns (ret: int)
    requires u.tracks == [] && Remaining(u.stream, 0, bs, tail) && RootPlaced(bs)
    modifies u
    ensures ret == if Opens(bs) then M4A_ERROR_OK else M4A_ERROR_UNSPECIFIELD
    ensures var all := RootTracks(bs, 0);
      u.tracks == (if |all| <= MAX_TRACKS then all else all[..MAX_TRACKS]) && AllLoaded(u.stream, u.tracks)
    ensures ret == M4A_ERROR_OK ==> 0 <= u.currentPosition
  {
    hide RootTracks, RootAccepted, AllLoaded, RootPlaced, EncodeAll;
    u.SetPosition(0);
    ret := ParseBoxes(u, bs, tail);
    ghost var all := RootTracks(bs, 0);
    assert [] + all == all;
    assert Has(u.stream, 0, EncodeAll(bs)) by {
      var e := EncodeAll(bs);
      assert u.stream[0..|e|] == u.stream[0..][..|e|] == e;
    }
    RootLoaded(u.stream, bs, 0);
    if |all| > MAX_TRACKS { AllLoadedPrefix(u.stream, all, MAX_TRACKS); }
  }

  lemma AllLoadedPrefix(s: seq<byte>, vs: seq<TrackView>, n: nat)
    requires n <= |vs| && AllLoaded(s, vs)
    ensures AllLoaded(s, vs[..n])
  {
    hide Loaded;
  }

  /** The first audio track, or -1. */
  method GetAacTrack(u: Unpacker) returns (r: int)
    ensures -1 <= r < |u.tracks|
    ensures r >= 0 ==> u.tracks[r].isAudio
    ensures forall i :: 0 <= i < (if r >= 0 then r else |u.tracks|) ==> !u.tracks[i].isAudio
  {
    var i := 0;
    while i < |u.tracks|
      invariant 0 <= i <= |u.tracks|
      invariant forall k :: 0 <= k < i ==> !u.tracks[k].isAudio
    {
      if u.tracks[i].isAudio { return i; }
      i := i + 1;
    }
    return -1;
  }
}
