// The recursive box parser of lightduer_m4a_box_parser.c: the readers of the boxes
// it knows, which leave the stream position at the end of what they were given, and
// the recursion over containers, proved against the trees of boxes.

module M4aBoxParser {
  import opened Bytes
  import opened M4aDescriptors
  import opened M4aUnpacker
  import opened M4aBoxes

  /** The given bytes stand at position p. */
  ghost predicate Has(s: seq<byte>, p: int, bytes: seq<byte>) {
    0 <= p && p + |bytes| <= |s| && s[p..p + |bytes|] == bytes
  }

  function TypeAt(s: seq<byte>, p: nat): BoxType
    requires p + BOX_HEADER_LENGTH <= |s|
  {
    BoxNameToType(FromBytes(s[p + 4..p + 8]))
  }

  /** Skips the version and the flags of a full box. */
  method SkipVersion(u: Unpacker)
    requires 0 <= u.currentPosition
    modifies u`currentPosition
    ensures u.currentPosition == old(u.currentPosition) + 4
  {
    var _, _ := u.ReadData(1);
    var _, _ := u.ReadData(3);
  }

  method ReadWord(u: Unpacker, ghost payload: seq<byte>, ghost at: nat) returns (v: int)
    requires at + 4 <= |payload| && Has(u.stream, u.currentPosition - at, payload)
    modifies u`currentPosition
    ensures u.currentPosition == old(u.currentPosition) + 4
    ensures v == AsInt32(Be32(payload, at))
  {
    assert Be32(u.stream, u.currentPosition) == Be32(payload, at);
    var w := u.ReadInt32();
    v := AsInt32(w);
  }

  /** Replaces what is known about the current track. */
  method SetTrack(u: Unpacker, track: TrackView)
    requires u.tracks != []
    modifies u`tracks
    ensures u.tracks == old(u.tracks)[|old(u.tracks)| - 1 := track]
  {
    u.tracks := u.tracks[|u.tracks| - 1 := track];
  }

  method ReadStsz(u: Unpacker, track: TrackView, ghost payload: seq<byte>) returns (r: TrackView)
    requires Has(u.stream, u.currentPosition, payload) && LeafOk(Stsz, payload)
    modifies u`currentPosition
    ensures r == Table(Stsz, payload, old(u.currentPosition), track)
  {
    r := track;
    SkipVersion(u);
    var size := ReadWord(u, payload, 4);
    var count := ReadWord(u, payload, 8);
    r := r.(sampleSize := size, sampleCount := count);
    if size == 0 {
      r := r.(sizesAt := u.currentPosition);
      u.SetPosition(u.currentPosition + count * 4);
    }
  }

  method ReadStts(u: Unpacker, track: TrackView, ghost payload: seq<byte>) returns (r: TrackView)
    requires Has(u.stream, u.currentPosition, payload) && LeafOk(Stts, payload)
    modifies u`currentPosition
    ensures r == Table(Stts, payload, old(u.currentPosition), track)
  {
    r := track;
    if |track.sttsCounts| > 0 { return; }
    SkipVersion(u);
    var count := ReadWord(u, payload, 4);
    var counts := [];
    var i := 0;
    while i < count
      invariant 0 <= i <= count && u.currentPosition == old(u.currentPosition) + 8 + 8 * i
      invariant counts == Words(payload, 8, 8, i)
    {
      var n := ReadWord(u, payload, 8 + 8 * i);
      var _ := ReadWord(u, payload, 12 + 8 * i);
      counts := counts + [n];
      i := i + 1;
    }
    r := r.(sttsCounts := counts);
  }

  method ReadStsc(u: Unpacker, track: TrackView, ghost payload: seq<byte>) returns (r: TrackView)
    requires Has(u.stream, u.currentPosition, payload) && LeafOk(Stsc, payload)
    modifies u`currentPosition
    ensures r == Table(Stsc, payload, old(u.currentPosition), track)
  {
    hide AsInt32, Be32;
    SkipVersion(u);
    var count := ReadWord(u, payload, 4);
    var first, per := [], [];
    var i := 0;
    while i < count
      invariant 0 <= i <= count && u.currentPosition == old(u.currentPosition) + 8 + 12 * i
      invariant first == Words(payload, 8, 12, i) && per == Words(payload, 12, 12, i)
    {
      var f := ReadWord(u, payload, 8 + 12 * i);
      var n := ReadWord(u, payload, 12 + 12 * i);
      var _ := ReadWord(u, payload, 16 + 12 * i);
      first, per := first + [f], per + [n];
      i := i + 1;
    }
    r := track.(firstChunk := first, perChunk := per);
  }

  method ReadStco(u: Unpacker, track: TrackView, ghost payload: seq<byte>) returns (r: TrackView)
    requires Has(u.stream, u.currentPosition, payload) && LeafOk(Stco, payload)
    modifies u`currentPosition
    ensures r == Table(Stco, payload, old(u.currentPosition), track)
  {
    hide AsInt32, Be32;
    SkipVersion(u);
    var count := ReadWord(u, payload, 4);
    var num := if count > MAX_NUM_STCO_LOAD then MAX_NUM_STCO_LOAD else count;
    var at := u.currentPosition;
    var offsets := [];
    var i := 0;
    while i < num
      invariant 0 <= i <= num && u.currentPosition == old(u.currentPosition) + 8 + 4 * i
      invariant offsets == Words(payload, 8, 4, i)
    {
      var v := ReadWord(u, payload, 8 + 4 * i);
      offsets := offsets + [v];
      i := i + 1;
    }
    if num < count {
      u.SetPosition(at + count * 4);
    }
    r := track.(chunkCount := count, offsetsAt := at, offsets := offsets);
  }

  /** Length of the box header at p: eight bytes more for a 64-bit size. */
  function HeaderSize(s: seq<byte>, p: nat): int
    requires p + BOX_HEADER_LENGTH <= |s|
  {
    BOX_HEADER_LENGTH + if Be32(s, p) == 1 then 8 else 0
  }

  function SizeAt(s: seq<byte>, p: nat): int
    requires p + BOX_HEADER_LENGTH <= |s| && p + HeaderSize(s, p) <= |s|
  {
    if Be32(s, p) == 1 then Be32(s, p + 8) * TWO_32 + Be32(s, p + 12) else Be32(s, p)
  }

  /** Reads a box header; size 0 when the stream has no whole header left. A
      size of 1 stands for a 64-bit size behind the name. */
  method BoxReadHeader(u: Unpacker) returns (size: int, boxType: BoxType, headerSize: int)
    requires 0 <= u.currentPosition
    modifies u`currentPosition
    ensures 0 <= u.currentPosition && (old(u.currentPosition) + BOX_HEADER_LENGTH > |u.stream| ==> size == 0)
    ensures old(u.currentPosition) + BOX_HEADER_LENGTH <= |u.stream| ==>
              && boxType == TypeAt(u.stream, old(u.currentPosition))
              && headerSize == HeaderSize(u.stream, old(u.currentPosition))
              && u.currentPosition == old(u.currentPosition) + headerSize
              && (old(u.currentPosition) + headerSize <= |u.stream| ==>
                size == SizeAt(u.stream, old(u.currentPosition)))
  {
    size, boxType, headerSize := 0, OtherLeaf, 0;
    var header, ret := u.ReadData(BOX_HEADER_LENGTH);
    if ret != BOX_HEADER_LENGTH { return; }
    size := Be32(header, 0);
    headerSize := BOX_HEADER_LENGTH;
    if size == 1 {
      headerSize := headerSize + 8;
      var wide, _ := u.ReadData(8);
      size := if |wide| == 8 then Be32(wide, 0) * TWO_32 + Be32(wide, 4) else 0;
    }
    assert header[4..8] == u.stream[old(u.currentPosition) + 4..old(u.currentPosition) + 8];
    boxType := BoxNameToType(FromBytes(header[4..8]));
  }

  /** The payload stands in the stream so that its index at is the position. */
  ghost predicate Within(u: Unpacker, payload: seq<byte>, at: nat)
    reads u
  {
    Has(u.stream, u.currentPosition - at, payload)
  }

  method ReadByte(u: Unpacker, ghost payload: seq<byte>, ghost at: nat) returns (b: int)
    requires at < |payload| && Within(u, payload, at)
    modifies u`currentPosition
    ensures u.currentPosition == old(u.currentPosition) + 1 && b == payload[at] as int
  {
    ghost var start := u.currentPosition - at;
    assert u.stream[start..start + |payload|][at] == u.stream[start + at];
    var data, _ := u.ReadData(1);
    b := data[0] as int;
  }

  /** A descriptor length of one to four bytes. */
  method ReadDescrLength(u: Unpacker, ghost payload: seq<byte>, ghost at: nat) returns (length: nat)
    requires Within(u, payload, at) && DescrLength(payload, at, 0, 0).Length?
    modifies u`currentPosition
    ensures var d := DescrLength(payload, at, 0, 0);
      length == d.value && u.currentPosition == old(u.currentPosition) - at + d.next
  {
    var numBytes := 0;
    length := 0;
    var more := true;
    while more
      invariant 0 <= numBytes <= 4 && (more ==> numBytes < 4)
      invariant u.currentPosition == old(u.currentPosition) + numBytes
      invariant more ==> DescrLength(payload, at, 0, 0) == DescrLength(payload, at + numBytes, numBytes, length)
      invariant !more ==> DescrLength(payload, at, 0, 0) == Length(length, at + numBytes)
      decreases 4 - numBytes, more
    {
      var b := ReadByte(u, payload, at + numBytes);
      numBytes := numBytes + 1;
      length := length * 0x80 + b % 0x80;
      more := b >= 0x80 && numBytes < 4;
    }
  }

  /** Accepts or refuses the contents of an esds box. */
  method ReadEsds(u: Unpacker, ghost payload: seq<byte>, ghost at: nat) returns (ret: int)
    requires Within(u, payload, at) && !EsdsVerdict(payload, at).CutShort?
    modifies u`currentPosition
    ensures ret == if EsdsVerdict(payload, at).Accepted? then M4A_ERROR_OK else M4A_ERROR_UNSPECIFIELD
  {
    hide DescrLength, ConfigVerdict;
    ghost var start := u.currentPosition - at;
    assert Has(u.stream, start, payload);
    hide Has;
    SkipVersion(u);
    assert u.currentPosition - (at + 4) == start;
    var tag := ReadByte(u, payload, at + 4);
    ghost var es := DescrLength(payload, at + 5, 0, 0);
    var length := ReadDescrLength(u, payload, at + 5);
    if length < MIN_ES_DESCR_LENGTH { return M4A_ERROR_UNSPECIFIELD; }
    var skipped := if tag == ES_DESCR_TAG then 3 else 2;
    var _, _ := u.ReadData(skipped);
    ret := ReadConfig(u, payload, es.next + skipped);
  }

  method ReadConfig(u: Unpacker, ghost payload: seq<byte>, ghost at: nat) returns (ret: int)
    requires Within(u, payload, at) && !ConfigVerdict(payload, at).CutShort?
    modifies u`currentPosition
    ensures ret == if ConfigVerdict(payload, at).Accepted? then M4A_ERROR_OK else M4A_ERROR_UNSPECIFIELD
  {
    hide DescrLength;
    var tag := ReadByte(u, payload, at);
    if tag != DECODER_CONFIG_DESCR_TAG { return M4A_ERROR_UNSPECIFIELD; }
    ghost var config := DescrLength(payload, at + 1, 0, 0);
    var length := ReadDescrLength(u, payload, at + 1);
    if length < MIN_DECODER_CONFIG_DESCR_LENGTH { return M4A_ERROR_UNSPECIFIELD; }
    var _, _ := u.ReadData(13);
    tag := ReadByte(u, payload, config.next + 13);
    if tag != DEC_SPECIFIC_DESCR_TAG { return M4A_ERROR_UNSPECIFIELD; }
    length := ReadDescrLength(u, payload, config.next + 14);
    var _, _ := u.ReadData(length);
    return M4A_ERROR_OK;
  }

  /** Steps over the fields of an MPEG-4 audio entry and reads the box behind
      them, if it is an esds one. */
  method ReadMp4a(u: Unpacker, ghost payload: seq<byte>, ghost at: nat) returns (ret: int)
    requires Within(u, payload, at) && !Mp4aVerdict(payload, at).CutShort?
    modifies u`currentPosition
    ensures ret == if Mp4aVerdict(payload, at).Accepted? then M4A_ERROR_OK else M4A_ERROR_UNSPECIFIELD
  {
    hide EsdsVerdict, BoxNameToType, FromBytes, Be32;
    ghost var start := u.currentPosition - at;
    SameHeader(u.stream, start, payload, at + 28);
    var _, _ := u.ReadData(28);
    var _, boxType, _ := BoxReadHeader(u);
    ret := M4A_ERROR_OK;
    if boxType.Esds? {
      ret := ReadEsds(u, payload, u.currentPosition - start);
    }
  }

  /** A header inside the payload is the same header in the stream. */
  lemma SameHeader(s: seq<byte>, p: int, payload: seq<byte>, at: nat)
    requires Has(s, p, payload) && at + BOX_HEADER_LENGTH <= |payload|
    ensures Be32(s, p + at) == Be32(payload, at)
    ensures TypeAt(s, p + at) == EntryType(payload, at)
  {
    forall k | 0 <= k < |payload| ensures s[p + k] == payload[k] {
      assert s[p..p + |payload|][k] == s[p + k];
    }
    assert s[p + at + 4..p + at + 8] == payload[at + 4..at + 8];
  }

  /** Reads the sample entries; a refused one ends the reading with an error. */
  method ReadStsd(u: Unpacker, track: TrackView, ghost payload: seq<byte>) returns (ret: int, r: TrackView)
    requires Has(u.stream, u.currentPosition, payload) && LeafOk(Stsd, payload)
    modifies u`currentPosition
    ensures r == Table(Stsd, payload, old(u.currentPosition), track)
    ensures ret == if LeafAccepted(Stsd, payload) then M4A_ERROR_OK else M4A_ERROR_UNSPECIFIELD
  {
    ghost var start := u.currentPosition;
    SkipVersion(u);
    var count := ReadWord(u, payload, 4);
    var audio;
    ret, audio := ReadEntries(u, count, track.isAudio, payload, start);
    r := track.(isAudio := audio);
  }

  method ReadEntries(u: Unpacker, count: nat, wasAudio: bool, ghost payload: seq<byte>, ghost start: nat)
    returns (ret: int, audio: bool)
    requires u.currentPosition == start + 8 && Has(u.stream, start, payload) && EntriesOk(payload, 8, count)
    modifies u`currentPosition
    ensures audio == LastIsAudio(payload, 8, count, wasAudio)
    ensures ret == if EntriesAccepted(payload, 8, count) then M4A_ERROR_OK else M4A_ERROR_UNSPECIFIELD
  {
    hide Be32, FromBytes, BoxNameToType, TypeAt, Mp4aVerdict;
    ret, audio := M4A_ERROR_OK, wasAudio;
    var i := 0;
    ghost var at := 8;
    while i < count
      invariant 0 <= i <= count && u.currentPosition == start + at && at >= 8 && ret == M4A_ERROR_OK
      invariant EntriesOk(payload, at, count - i)
      invariant LastIsAudio(payload, at, count - i, audio) == LastIsAudio(payload, 8, count, wasAudio)
      invariant EntriesAccepted(payload, at, count - i) == EntriesAccepted(payload, 8, count)
    {
      SameHeader(u.stream, start, payload, at);
      var skip := u.currentPosition;
      var size, boxType, _ := BoxReadHeader(u);
      skip := skip + size;
      audio := boxType.Mp4a?;
      if boxType.Mp4a? {
        ret := ReadMp4a(u, payload, at + BOX_HEADER_LENGTH);
        if ret < 0 { return; }
      }
      u.SetPosition(skip);
      at := at + Be32(payload, at);
      i := i + 1;
    }
  }

  /** Reads a leaf into the current track and steps to its end, wherever its
      reader stopped. */
  method BoxRead(u: Unpacker, size: int, boxType: BoxType, ghost payload: seq<byte>) returns (ret: int)
    requires Has(u.stream, u.currentPosition, payload) && size == |payload| + BOX_HEADER_LENGTH
    requires !boxType.HasSubBoxes() && (boxType.IsTable() ==> u.tracks != [] && LeafOk(boxType, payload))
    modifies u
    ensures u.currentPosition == old(u.currentPosition) + |payload|
    ensures ret == if boxType.IsTable() ==> LeafAccepted(boxType, payload) then M4A_ERROR_OK else M4A_ERROR_UNSPECIFIELD
    ensures !boxType.IsTable() ==> u.tracks == old(u.tracks)
    ensures boxType.IsTable() ==> var n := |old(u.tracks)| - 1;
              u.tracks == old(u.tracks)[n := Table(boxType, payload, old(u.currentPosition), old(u.tracks)[n])]
  {
    hide Words, EntriesOk, LastIsAudio, EntriesAccepted;
    ret := M4A_ERROR_OK;
    var destPosition := u.currentPosition + size - 8;
    if boxType.IsTable() {
      var track := u.tracks[|u.tracks| - 1];
      match boxType {
        case Stsz => track := ReadStsz(u, track, payload);
        case Stts => track := ReadStts(u, track, payload);
        case Stsc => track := ReadStsc(u, track, payload);
        case Stco => track := ReadStco(u, track, payload);
        case Stsd => ret, track := ReadStsd(u, track, payload);
      }
      SetTrack(u, track);
    }
    u.SetPosition(destPosition);
  }

  method AddTrack(u: Unpacker) returns (ret: int)
    requires |u.tracks| <= MAX_TRACKS
    modifies u`tracks
    ensures ret == if old(|u.tracks|) < MAX_TRACKS then M4A_ERROR_OK else M4A_ERROR_UNSPECIFIELD
    ensures u.tracks == if ret == M4A_ERROR_OK then old(u.tracks) + [EMPTY_TRACK] else old(u.tracks)
  {
    if |u.tracks| == MAX_TRACKS { return M4A_ERROR_UNSPECIFIELD; }
    u.tracks := u.tracks + [EMPTY_TRACK];
    return M4A_ERROR_OK;
  }

  function Contents(b: Box): seq<byte>
    requires WellFormed(b)
  {
    match b case Leaf(_, payload) => payload case Node(_, children) => EncodeAll(children)
  }

  lemma HasSplit(s: seq<byte>, p: int, a: seq<byte>, b: seq<byte>)
    requires Has(s, p, a + b)
    ensures Has(s, p, a) && Has(s, p + |a|, b)
  {
    var all := a + b;
    var t := s[p..p + |all|];
    assert t[..|a|] == s[p..p + |a|];
    assert t[|a|..] == s[p + |a|..p + |a| + |b|];
  }

  /** A box in the stream shows its size, its type and its contents. */
  lemma HeaderOf(s: seq<byte>, p: int, b: Box)
    requires WellFormed(b) && Has(s, p, Encode(b))
    ensures 0 <= p && p + Size(b) <= |s| && Be32(s, p) == Size(b) && TypeAt(s, p) == TypeOf(b)
    ensures Has(s, p + BOX_HEADER_LENGTH, Contents(b))
  {
    var w, c := Be32Bytes(Size(b)), Contents(b);
    assert Encode(b) == w + b.name + c;
    hide Encode, Contents, BoxNameToType, FromBytes, WellFormed;
    HasSplit(s, p, w + b.name, c);
    HasSplit(s, p, w, b.name);
    SameWord(s, p, w);
  }

  lemma SameWord(s: seq<byte>, p: int, w: seq<byte>)
    requires |w| == 4 && Has(s, p, w)
    ensures Be32(s, p) == Be32(w, 0)
  {
    var t := s[p..p + 4];
    assert t[0] == s[p] && t[1] == s[p + 1] && t[2] == s[p + 2] && t[3] == s[p + 3];
  }

  lemma FirstBox(s: seq<byte>, p: int, bs: Boxes)
    requires WellFormedAll(bs) && bs.Boxes? && Has(s, p, EncodeAll(bs))
    ensures Has(s, p, Encode(bs.first)) && Has(s, p + Size(bs.first), EncodeAll(bs.others))
  {
    hide Encode, Has, WellFormed, Size, SizeAll;
    HasSplit(s, p, Encode(bs.first), EncodeAll(bs.others));
  }

  /** What parsing must leave behind, given the tracks there were and those the
      boxes describe: all of them if there is room, else the first five; without
      an error exactly when there is room and no sample description is refused. */
  ghost predicate Outcome(ret: int, views: seq<TrackView>, all: seq<TrackView>, accepted: bool) {
    && ret == (if accepted && |all| <= MAX_TRACKS then M4A_ERROR_OK else M4A_ERROR_UNSPECIFIELD)
    && views == if |all| <= MAX_TRACKS then all else all[..MAX_TRACKS]
  }

  /** Boxes inside a track fill in the last track; boxes outside add tracks. */
  ghost predicate Parsed(bs: Boxes, inTrak: bool, p: int, before: seq<TrackView>, after: seq<TrackView>, ret: int) {
    && PlacedAll(bs, inTrak)
    && (inTrak ==> before != []
                   && ret == (if AcceptedAll(bs, true) then M4A_ERROR_OK else M4A_ERROR_UNSPECIFIELD)
                   && after == before[|before| - 1 := Inside(bs, p, before[|before| - 1])])
    && (!inTrak ==> Outcome(ret, after, before + TracksIn(bs, p), AcceptedAll(bs, false)))
  }

  ghost predicate ParsedBox(b: Box, inTrak: bool, p: int, before: seq<TrackView>, after: seq<TrackView>, ret: int) {
    && Placed(b, inTrak)
    && (inTrak ==> before != []
                   && ret == (if BoxAccepted(b, true) then M4A_ERROR_OK else M4A_ERROR_UNSPECIFIELD)
                   && after == before[|before| - 1 := InsideBox(b, p, before[|before| - 1])])
    && (!inTrak ==> Outcome(ret, after, before + TracksInBox(b, p), BoxAccepted(b, false)))
  }

  lemma ParsedNothing(inTrak: bool, p: int, views: seq<TrackView>)
    requires |views| <= MAX_TRACKS && (inTrak ==> views != [])
    ensures Parsed(NoBox, inTrak, p, views, views, M4A_ERROR_OK)
  {
    assert views + [] == views;
  }

  lemma ParsedMore(bs: Boxes, inTrak: bool, p: int, v0: seq<TrackView>, v1: seq<TrackView>, v2: seq<TrackView>,
                   ret: int)
    requires bs.Boxes? && PlacedAll(bs, inTrak)
    requires ParsedBox(bs.first, inTrak, p, v0, v1, M4A_ERROR_OK)
    requires Parsed(bs.others, inTrak, p + Size(bs.first), v1, v2, ret)
    ensures Parsed(bs, inTrak, p, v0, v2, ret)
  {
    hide Placed, Size, BoxAccepted, InsideBox, TracksInBox;
    if !inTrak { Assoc(v0, TracksInBox(bs.first, p), TracksIn(bs.others, p + Size(bs.first))); }
  }

  lemma ParsedFull(bs: Boxes, inTrak: bool, p: int, v0: seq<TrackView>, v1: seq<TrackView>, ret: int)
    requires bs.Boxes? && PlacedAll(bs, inTrak) && ret != M4A_ERROR_OK
    requires ParsedBox(bs.first, inTrak, p, v0, v1, ret)
    ensures Parsed(bs, inTrak, p, v0, v1, ret)
  {
    hide Placed, Size, BoxAccepted, InsideBox, TracksInBox;
    if !inTrak && BoxAccepted(bs.first, false) {
      var a, b := TracksInBox(bs.first, p), TracksIn(bs.others, p + Size(bs.first));
      Assoc(v0, a, b);
      assert (v0 + a + b)[..MAX_TRACKS] == (v0 + a)[..MAX_TRACKS];
    }
  }

  /** Parsing the contents of a container parses the container. */
  lemma ParsedContainer(b: Box, inTrak: bool, p: int, v0: seq<TrackView>, v1: seq<TrackView>, ret: int)
    requires b.Node? && Placed(b, inTrak) && !TypeOf(b).Trak?
    requires Parsed(b.children, inTrak, p + BOX_HEADER_LENGTH, v0, v1, ret)
    ensures ParsedBox(b, inTrak, p, v0, v1, ret)
  {
  }

  lemma ParsedTrack(b: Box, p: int, v0: seq<TrackView>, v1: seq<TrackView>, ret: int)
    requires b.Node? && Placed(b, false) && TypeOf(b).Trak? && |v0| < MAX_TRACKS
    requires Parsed(b.children, true, p + BOX_HEADER_LENGTH, v0 + [EMPTY_TRACK], v1, ret)
    ensures ParsedBox(b, false, p, v0, v1, ret)
  {
    assert v1 == v0 + TracksInBox(b, p);
  }

  lemma ParsedNoRoom(b: Box, p: int, v0: seq<TrackView>)
    requires b.Node? && Placed(b, false) && TypeOf(b).Trak? && |v0| == MAX_TRACKS
    ensures ParsedBox(b, false, p, v0, v0, M4A_ERROR_UNSPECIFIELD)
  {
    assert (v0 + TracksInBox(b, p))[..MAX_TRACKS] == v0;
  }

  lemma ParsedLeaf(b: Box, inTrak: bool, p: int, v0: seq<TrackView>, v1: seq<TrackView>, ret: int)
    requires b.Leaf? && Placed(b, inTrak) && |v0| <= MAX_TRACKS && (inTrak ==> v0 != [])
    requires TypeOf(b).IsTable() ==>
               v1 == v0[|v0| - 1 := Table(TypeOf(b), b.payload, p + BOX_HEADER_LENGTH, v0[|v0| - 1])]
    requires !TypeOf(b).IsTable() ==> v1 == v0
    requires ret == if BoxAccepted(b, inTrak) then M4A_ERROR_OK else M4A_ERROR_UNSPECIFIELD
    ensures ParsedBox(b, inTrak, p, v0, v1, ret)
  {
    hide Table, LeafAccepted, LeafOk;
    if !inTrak { assert v0 + [] == v0; }
  }

  /** Parsed, with the position at the end unless parsing stopped. */
  ghost predicate Finished(bs: Boxes, inTrak: bool, p: int, before: seq<TrackView>,
                           q: int, after: seq<TrackView>, ret: int)
  {
    && Parsed(bs, inTrak, p, before, after, ret)
    && |after| <= MAX_TRACKS && (ret == M4A_ERROR_OK || ret == M4A_ERROR_UNSPECIFIELD)
    && (ret == M4A_ERROR_OK ==> q == p + SizeAll(bs))
  }

  ghost predicate FinishedBox(b: Box, inTrak: bool, p: int, before: seq<TrackView>,
                              q: int, after: seq<TrackView>, ret: int)
  {
    && ParsedBox(b, inTrak, p, before, after, ret)
    && |after| <= MAX_TRACKS && (ret == M4A_ERROR_OK || ret == M4A_ERROR_UNSPECIFIELD)
    && (ret == M4A_ERROR_OK ==> q == p + Size(b))
  }

  /** Parses a box that holds boxes, a new track's included, from behind its header. */
  method ParseContainer(u: Unpacker, size: int, boxType: BoxType, ghost b: Box, ghost inTrak: bool) returns (ret: int)
    requires |u.tracks| <= MAX_TRACKS && WellFormed(b) && Placed(b, inTrak) && b.Node? && boxType == TypeOf(b)
    requires Has(u.stream, u.currentPosition, EncodeAll(b.children)) && size == Size(b) && (inTrak ==> u.tracks != [])
    modifies u
    ensures FinishedBox(b, inTrak, old(u.currentPosition) - BOX_HEADER_LENGTH, old(u.tracks),
                        u.currentPosition, u.tracks, ret)
    decreases Size(b), 0
  {
    hide Parsed, ParsedBox;
    ghost var p, v0 := u.currentPosition - BOX_HEADER_LENGTH, u.tracks;
    ret := M4A_ERROR_OK;
    if boxType.Trak? {
      ret := AddTrack(u);
      if ret < 0 {
        ParsedNoRoom(b, p, v0);
        return;
      }
      ret := ParseSubBoxes(u, size - BOX_HEADER_LENGTH, b.children, true);
      ParsedTrack(b, p, v0, u.tracks, ret);
    } else {
      ret := ParseSubBoxes(u, size - BOX_HEADER_LENGTH, b.children, inTrak);
      ParsedContainer(b, inTrak, p, v0, u.tracks, ret);
    }
  }

  /** Parses one box of a container. */
  method ParseNext(u: Unpacker, ghost b: Box, ghost inTrak: bool) returns (ret: int, size: int)
    requires |u.tracks| <= MAX_TRACKS && WellFormed(b) && Placed(b, inTrak)
        && Has(u.stream, u.currentPosition, Encode(b))
    requires inTrak ==> u.tracks != []
    modifies u
    ensures size == Size(b)
    ensures FinishedBox(b, inTrak, old(u.currentPosition), old(u.tracks), u.currentPosition, u.tracks, ret)
    decreases Size(b), 1
  {
    hide ParsedBox, Table, LeafOk, LeafAccepted, BoxNameToType, Has, TypeAt, Be32, Encode, EncodeAll;
    ghost var p, v0 := u.currentPosition, u.tracks;
    HeaderOf(u.stream, p, b);
    var boxType, headerSize;
    size, boxType, headerSize := BoxReadHeader(u);
    assert u.tracks == v0;
    if boxType.HasSubBoxes() {
      ret := ParseContainer(u, size, boxType, b, inTrak);
    } else {
      ret := BoxRead(u, size, boxType, b.payload);
      ParsedLeaf(b, inTrak, p, v0, u.tracks, ret);
    }
  }

  /** Parsing the rest from here completes parsing everything from the start. */
  ghost predicate Leads(rest: Boxes, inTrak: bool, p: int, v: seq<TrackView>, bs: Boxes, p0: int, v0: seq<TrackView>) {
    forall after, ret :: Parsed(rest, inTrak, p, v, after, ret) ==> Parsed(bs, inTrak, p0, v0, after, ret)
  }

  /** Half-way through a container: the rest stands at p, and parsing it
      completes parsing the whole. */
  ghost predicate Midway(s: seq<byte>, rest: Boxes, inTrak: bool, p: int, v: seq<TrackView>,
                         bs: Boxes, p0: int, v0: seq<TrackView>)
  {
    && WellFormedAll(rest) && PlacedAll(rest, inTrak) && Has(s, p, EncodeAll(rest))
    && |v| <= MAX_TRACKS && (inTrak ==> v != [])
    && p + SizeAll(rest) == p0 + SizeAll(bs)
    && Leads(rest, inTrak, p, v, bs, p0, v0)
  }

  lemma MidwayStart(s: seq<byte>, bs: Boxes, inTrak: bool, p: int, v: seq<TrackView>)
    requires |v| <= MAX_TRACKS && WellFormedAll(bs) && PlacedAll(bs, inTrak) && Has(s, p, EncodeAll(bs))
    requires inTrak ==> v != []
    ensures Midway(s, bs, inTrak, p, v, bs, p, v)
  {
  }

  /** The next box is there, ready to be parsed. */
  lemma MidwayFirst(s: seq<byte>, rest: Boxes, inTrak: bool, p: int, v: seq<TrackView>,
                    bs: Boxes, p0: int, v0: seq<TrackView>)
    requires Midway(s, rest, inTrak, p, v, bs, p0, v0) && p < p0 + SizeAll(bs)
    ensures rest.Boxes? && WellFormed(rest.first) && Placed(rest.first, inTrak) && Has(s, p, Encode(rest.first))
    ensures |v| <= MAX_TRACKS && (inTrak ==> v != []) && Size(rest.first) <= SizeAll(rest) <= SizeAll(bs) - (p - p0)
  {
    FirstBox(s, p, rest);
  }

  lemma MidwayNext(s: seq<byte>, rest: Boxes, inTrak: bool, p: int, v: seq<TrackView>, q: int, v': seq<TrackView>,
                   ret: int, bs: Boxes, p0: int, v0: seq<TrackView>)
    requires Midway(s, rest, inTrak, p, v, bs, p0, v0) && rest.Boxes?
    requires FinishedBox(rest.first, inTrak, p, v, q, v', ret)
    ensures ret == M4A_ERROR_OK || ret == M4A_ERROR_UNSPECIFIELD
    ensures ret != M4A_ERROR_OK ==> Finished(bs, inTrak, p0, v0, q, v', ret)
    ensures ret == M4A_ERROR_OK ==> Midway(s, rest.others, inTrak, q, v', bs, p0, v0) && q == p + Size(rest.first)
    ensures SizeAll(rest.others) < SizeAll(rest)
  {
    RestForm(rest, inTrak);
    hide Midway, Finished, ParsedBox, SizeAll;
    if ret != M4A_ERROR_OK {
      MidwayStops(s, rest, inTrak, p, v, q, v', ret, bs, p0, v0);
    } else {
      MidwayOn(s, rest, inTrak, p, v, q, v', bs, p0, v0);
    }
  }

  lemma MidwayStops(s: seq<byte>, rest: Boxes, inTrak: bool, p: int, v: seq<TrackView>, q: int, v': seq<TrackView>,
                    ret: int, bs: Boxes, p0: int, v0: seq<TrackView>)
    requires Midway(s, rest, inTrak, p, v, bs, p0, v0) && rest.Boxes? && ret != M4A_ERROR_OK
    requires FinishedBox(rest.first, inTrak, p, v, q, v', ret)
    ensures Finished(bs, inTrak, p0, v0, q, v', ret)
  {
    hide WellFormedAll, PlacedAll, Has, EncodeAll, Leads, ParsedBox, Parsed;
    ParsedFull(rest, inTrak, p, v, v', ret);
    LeadsTo(rest, inTrak, p, v, bs, p0, v0, v', ret);
  }

  lemma MidwayOn(s: seq<byte>, rest: Boxes, inTrak: bool, p: int, v: seq<TrackView>, q: int, v': seq<TrackView>,
                 bs: Boxes, p0: int, v0: seq<TrackView>)
    requires Midway(s, rest, inTrak, p, v, bs, p0, v0) && rest.Boxes?
    requires FinishedBox(rest.first, inTrak, p, v, q, v', M4A_ERROR_OK)
    ensures Midway(s, rest.others, inTrak, q, v', bs, p0, v0) && q == p + Size(rest.first)
  {
    hide WellFormedAll, PlacedAll, Has, Encode, EncodeAll, Size, SizeAll, Leads, ParsedBox;
    RestForm(rest, inTrak);
    BoxLeaves(rest.first, inTrak, p, v, q, v', M4A_ERROR_OK);
    FirstBox(s, p, rest);
    LeadsOn(rest, inTrak, p, v, v', bs, p0, v0);
  }

  lemma RestForm(rest: Boxes, inTrak: bool)
    requires rest.Boxes? && WellFormedAll(rest) && PlacedAll(rest, inTrak)
    ensures WellFormedAll(rest.others) && PlacedAll(rest.others, inTrak)
    ensures SizeAll(rest) == Size(rest.first) + SizeAll(rest.others)
  {
    hide WellFormed, Placed;
  }

  lemma BoxLeaves(b: Box, inTrak: bool, p: int, v: seq<TrackView>, q: int, v': seq<TrackView>, ret: int)
    requires FinishedBox(b, inTrak, p, v, q, v', ret)
    ensures inTrak ==> v' != []
  {
    hide Outcome;
  }

  lemma LeadsTo(rest: Boxes, inTrak: bool, p: int, v: seq<TrackView>, bs: Boxes, p0: int, v0: seq<TrackView>,
                after: seq<TrackView>, ret: int)
    requires Leads(rest, inTrak, p, v, bs, p0, v0) && Parsed(rest, inTrak, p, v, after, ret)
    ensures Parsed(bs, inTrak, p0, v0, after, ret)
  {
    hide Parsed;
  }

  lemma LeadsOn(rest: Boxes, inTrak: bool, p: int, v: seq<TrackView>, v': seq<TrackView>,
                bs: Boxes, p0: int, v0: seq<TrackView>)
    requires rest.Boxes? && PlacedAll(rest, inTrak) && ParsedBox(rest.first, inTrak, p, v, v', M4A_ERROR_OK)
    requires Leads(rest, inTrak, p, v, bs, p0, v0)
    ensures Leads(rest.others, inTrak, p + Size(rest.first), v', bs, p0, v0)
  {
    hide Parsed, ParsedBox;
    forall after, ret | Parsed(rest.others, inTrak, p + Size(rest.first), v', after, ret)
      ensures Parsed(bs, inTrak, p0, v0, after, ret)
    {
      ParsedMore(rest, inTrak, p, v, v', after, ret);
    }
  }

  lemma MidwayEnd(s: seq<byte>, rest: Boxes, inTrak: bool, p: int, v: seq<TrackView>,
                  bs: Boxes, p0: int, v0: seq<TrackView>)
    requires Midway(s, rest, inTrak, p, v, bs, p0, v0) && p >= p0 + SizeAll(bs)
    ensures Finished(bs, inTrak, p0, v0, p, v, M4A_ERROR_OK)
  {
    ParsedNothing(inTrak, p, v);
  }

  /** Parses the boxes inside a container. */
  method ParseSubBoxes(u: Unpacker, totalSize: int, ghost bs: Boxes, ghost inTrak: bool) returns (ret: int)
    requires |u.tracks| <= MAX_TRACKS && WellFormedAll(bs) && PlacedAll(bs, inTrak)
    requires Has(u.stream, u.currentPosition, EncodeAll(bs))
    requires totalSize == SizeAll(bs) && (inTrak ==> u.tracks != [])
    modifies u
    ensures Finished(bs, inTrak, old(u.currentPosition), old(u.tracks), u.currentPosition, u.tracks, ret)
    decreases SizeAll(bs), 2
  {
    ghost var p0, v0 := u.currentPosition, u.tracks;
    MidwayStart(u.stream, bs, inTrak, p0, v0);
    hide Finished, FinishedBox, Midway, Has, Encode, EncodeAll, WellFormed, WellFormedAll, Placed, PlacedAll, Size,
        SizeAll;
    ret := M4A_ERROR_OK;
    var sumSize := 0;
    ghost var rest := bs;
    while sumSize < totalSize
      invariant ret == M4A_ERROR_OK && u.currentPosition == p0 + sumSize
      invariant Midway(u.stream, rest, inTrak, u.currentPosition, u.tracks, bs, p0, v0)
      decreases SizeAll(rest)
    {
      ghost var p, v := u.currentPosition, u.tracks;
      MidwayFirst(u.stream, rest, inTrak, p, v, bs, p0, v0);
      var size;
      ret, size := ParseNext(u, rest.first, inTrak);
      sumSize := sumSize + size;
      MidwayNext(u.stream, rest, inTrak, p, v, u.currentPosition, u.tracks, ret, bs, p0, v0);
      if ret < 0 { return; }
      rest := rest.others;
    }
    MidwayEnd(u.stream, rest, inTrak, u.currentPosition, u.tracks, bs, p0, v0);
  }

  lemma RootMore(bs: Boxes, p: int, v0: seq<TrackView>, v1: seq<TrackView>, v2: seq<TrackView>, r1: int, r2: int)
    requires bs.Boxes? && RootPlaced(bs)
    requires Outcome(r1, v1, v0 + RootTracksOf(bs.first, p), RootBoxAccepted(bs.first))
    requires r1 == M4A_ERROR_OK ==>
               Outcome(r2, v2, v1 + RootTracks(bs.others, p + Size(bs.first)), RootAccepted(bs.others))
    requires r1 != M4A_ERROR_OK ==> v2 == v1 && r2 == r1
    ensures Outcome(r2, v2, v0 + RootTracks(bs, p), RootAccepted(bs))
  {
    hide RootTracksOf, RootBoxAccepted, RootBoxPlaced, Size;
    if RootBoxAccepted(bs.first) {
      var a, b := RootTracksOf(bs.first, p), RootTracks(bs.others, p + Size(bs.first));
      Assoc(v0, a, b);
      if r1 != M4A_ERROR_OK { assert (v0 + a + b)[..MAX_TRACKS] == (v0 + a)[..MAX_TRACKS]; }
    }
  }

  /** Parsing the rest from here completes parsing everything from the start. */
  ghost predicate RootLeads(rest: Boxes, p: int, v: seq<TrackView>, bs: Boxes, p0: int, v0: seq<TrackView>) {
    RootPlaced(rest) && RootPlaced(bs) &&
    forall after, ret :: Outcome(ret, after, v + RootTracks(rest, p), RootAccepted(rest)) ==>
                           Outcome(ret, after, v0 + RootTracks(bs, p0), RootAccepted(bs))
  }

  lemma RootLeadsOn(rest: Boxes, p: int, v: seq<TrackView>, v': seq<TrackView>, bs: Boxes, p0: int, v0: seq<TrackView>)
    requires rest.Boxes? && RootPlaced(rest) && RootLeads(rest, p, v, bs, p0, v0)
    requires Outcome(M4A_ERROR_OK, v', v + RootTracksOf(rest.first, p), RootBoxAccepted(rest.first))
    ensures RootLeads(rest.others, p + Size(rest.first), v', bs, p0, v0) && RootPlaced(rest.others)
  {
    hide Outcome, RootTracks, RootTracksOf, RootAccepted, RootBoxAccepted;
    forall after, ret |
      Outcome(ret, after, v' + RootTracks(rest.others, p + Size(rest.first)), RootAccepted(rest.others))
      ensures Outcome(ret, after, v0 + RootTracks(bs, p0), RootAccepted(bs))
    {
      RootMore(rest, p, v, v', after, M4A_ERROR_OK, ret);
    }
  }

  /** From p on, the bytes are these boxes and the tail. */
  ghost predicate Remaining(s: seq<byte>, p: int, rest: Boxes, tail: seq<byte>) {
    && WellFormedAll(rest) && EndsBoxes(tail)
    && 0 <= p && p + SizeAll(rest) + |tail| == |s|
    && s[p..] == EncodeAll(rest) + tail
  }

  lemma NoHeader(s: seq<byte>, p: int, tail: seq<byte>)
    requires Remaining(s, p, NoBox, tail)
    ensures 0 <= p && (p + BOX_HEADER_LENGTH <= |s| ==> Be32(s, p) == 0)
  {
    assert s[p..] == tail;
    if p + BOX_HEADER_LENGTH <= |s| { assert forall k :: 0 <= k < 4 ==> s[p + k] == tail[k]; }
  }

  /** The header and the contents of the first box of the rest. */
  lemma NextHeader(s: seq<byte>, p: int, rest: Boxes, tail: seq<byte>)
    requires rest.Boxes? && Remaining(s, p, rest, tail)
    ensures WellFormed(rest.first) && 0 <= p && p + Size(rest.first) <= |s|
    ensures Be32(s, p) == Size(rest.first) && TypeAt(s, p) == TypeOf(rest.first)
    ensures Has(s, p + BOX_HEADER_LENGTH, Contents(rest.first))
  {
    var b, c := rest.first, rest.others;
    hide WellFormed, WellFormedAll, Be32, TypeAt, BoxNameToType, Contents, TypeOf, Encode, EncodeAll, Remaining, Has,
        Size, SizeAll;
    NextForm(s, p, rest, tail);
    RemainingSplit(s, p, b, c, tail);
    HeaderOf(s, p, b);
  }

  lemma NextForm(s: seq<byte>, p: int, rest: Boxes, tail: seq<byte>)
    requires rest.Boxes? && Remaining(s, p, rest, tail)
    ensures WellFormed(rest.first)
  {
    hide WellFormed;
  }

  lemma FormOf(b: Box)
    requires WellFormed(b)
    ensures 8 <= Size(b) < TWO_32 && (b.Node? <==> TypeOf(b).HasSubBoxes())
    ensures b.Node? ==>
      WellFormedAll(b.children) && Contents(b) == EncodeAll(b.children)
        && Size(b) == BOX_HEADER_LENGTH + SizeAll(b.children)
  {
    hide TypeOf;
  }

  lemma RemainingSplit(s: seq<byte>, p: int, b: Box, c: Boxes, tail: seq<byte>)
    requires Remaining(s, p, Boxes(b, c), tail)
    ensures Has(s, p, Encode(b)) && Remaining(s, p + Size(b), c, tail)
  {
    hide WellFormed, Encode;
    SuffixSplit(s, p, Encode(b), EncodeAll(c), tail);
  }

  lemma SuffixSplit(s: seq<byte>, p: int, a: seq<byte>, b: seq<byte>, c: seq<byte>)
    requires 0 <= p <= |s| && s[p..] == a + b + c
    ensures p + |a| <= |s| && s[p..p + |a|] == a && s[p + |a|..] == b + c
  {
    var t := s[p..];
    assert t[..|a|] == s[p..p + |a|];
    assert t[|a|..] == s[p + |a|..];
    assert t[|a|..] == b + c;
  }

  /** What one step at the top level does: nothing at the end, else it skips a
      leaf or parses a container. */
  ghost predicate RootStep(s: seq<byte>, p0: int, p1: int, rest: Boxes, tail: seq<byte>,
                           v0: seq<TrackView>, v1: seq<TrackView>, ret: int, size: int)
  {
    && |v1| <= MAX_TRACKS && (ret == M4A_ERROR_OK || ret == M4A_ERROR_UNSPECIFIELD)
    && (size == 0 <==> rest.NoBox?) && (ret == M4A_ERROR_OK ==> 0 <= p1)
    && (rest.NoBox? ==> ret == M4A_ERROR_OK && v1 == v0)
    && (rest.Boxes? ==> RootBoxPlaced(rest.first)
                        && Outcome(ret, v1, v0 + RootTracksOf(rest.first, p0), RootBoxAccepted(rest.first)))
    && (rest.Boxes? && ret == M4A_ERROR_OK ==> p1 == p0 + Size(rest.first) && Remaining(s, p1, rest.others, tail))
  }

  lemma RootStepNode(s: seq<byte>, p0: int, p1: int, rest: Boxes, tail: seq<byte>,
                     v0: seq<TrackView>, v1: seq<TrackView>, ret: int)
    requires rest.Boxes? && rest.first.Node? && RootBoxPlaced(rest.first)
    requires Finished(rest.first.children, false, p0 + BOX_HEADER_LENGTH, v0, p1, v1, ret)
    requires Remaining(s, p0 + Size(rest.first), rest.others, tail)
    ensures RootStep(s, p0, p1, rest, tail, v0, v1, ret, Size(rest.first))
  {
  }

  /** The stream's next eight bytes at the top level: no header at the end, or
      the header of the next box. */
  lemma RootHeader(s: seq<byte>, p: int, rest: Boxes, tail: seq<byte>)
    requires Remaining(s, p, rest, tail) && RootPlaced(rest)
    ensures 0 <= p && (rest.NoBox? && p + BOX_HEADER_LENGTH <= |s| ==> Be32(s, p) == 0)
    ensures rest.Boxes? ==>
      && p + BOX_HEADER_LENGTH <= |s| && TypeAt(s, p) == TypeOf(rest.first)
      && Be32(s, p) == Size(rest.first) && 8 <= Size(rest.first) < TWO_32
      && Remaining(s, p + Size(rest.first), rest.others, tail)
      && (rest.first.Node? <==> TypeOf(rest.first).HasSubBoxes())
    ensures rest.Boxes? && rest.first.Node? ==>
      && RootBoxPlaced(rest.first) && PlacedAll(rest.first.children, false) && WellFormedAll(rest.first.children)
      && Has(s, p + BOX_HEADER_LENGTH, EncodeAll(rest.first.children))
      && Size(rest.first) == BOX_HEADER_LENGTH + SizeAll(rest.first.children)
  {
    hide Remaining, Has, Be32, TypeAt, TypeOf, WellFormed, WellFormedAll, Size, SizeAll, EncodeAll, Contents, PlacedAll;
    if rest.NoBox? {
      NoHeader(s, p, tail);
    } else {
      NextHeader(s, p, rest, tail);
      FormOf(rest.first);
      RemainingSplit(s, p, rest.first, rest.others, tail);
    }
  }

  lemma RootStepEnd(s: seq<byte>, p0: int, p1: int, rest: Boxes, tail: seq<byte>, v: seq<TrackView>)
    ensures rest.NoBox? && |v| <= MAX_TRACKS && 0 <= p1 ==> RootStep(s, p0, p1, rest, tail, v, v, M4A_ERROR_OK, 0)
  {
  }

  lemma RootStepLeaf(s: seq<byte>, p0: int, rest: Boxes, tail: seq<byte>, v: seq<TrackView>)
    requires rest.Boxes? && rest.first.Leaf? && |v| <= MAX_TRACKS
    requires Remaining(s, p0 + Size(rest.first), rest.others, tail)
    ensures RootStep(s, p0, p0 + Size(rest.first), rest, tail, v, v, M4A_ERROR_OK, Size(rest.first))
  {
    assert v + [] == v;
  }

  /** What the header read at the top level tells: the next box and its
      contents, or that there is none. */
  ghost predicate RootRead(s: seq<byte>, p: int, rest: Boxes, tail: seq<byte>,
                           size: int, boxType: BoxType, headerSize: int, q: int)
  {
    && (size == 0 <==> rest.NoBox?) && 0 <= q
    && (rest.Boxes? ==>
          && size == Size(rest.first) && headerSize == BOX_HEADER_LENGTH && q == p + BOX_HEADER_LENGTH
          && (rest.first.Node? <==> boxType.HasSubBoxes()) && Remaining(s, p + Size(rest.first), rest.others, tail))
    && (rest.Boxes? && rest.first.Node? ==>
          && RootBoxPlaced(rest.first) && PlacedAll(rest.first.children, false) && WellFormedAll(rest.first.children)
          && Has(s, q, EncodeAll(rest.first.children)) && size - headerSize == SizeAll(rest.first.children))
  }

  lemma RootHeaderRead(s: seq<byte>, p: int, rest: Boxes, tail: seq<byte>,
                       size: int, boxType: BoxType, headerSize: int, q: int)
    requires Remaining(s, p, rest, tail) && RootPlaced(rest)
    requires 0 <= p && 0 <= q && (p + BOX_HEADER_LENGTH > |s| ==> size == 0)
    requires p + BOX_HEADER_LENGTH <= |s| ==>
      && boxType == TypeAt(s, p) && headerSize == HeaderSize(s, p) && q == p + headerSize
      && (p + headerSize <= |s| ==> size == SizeAt(s, p))
    ensures RootRead(s, p, rest, tail, size, boxType, headerSize, q)
  {
    hide Remaining, RootPlaced, RootBoxPlaced, Be32, TypeAt, TypeOf, Size, SizeAll, EncodeAll, Has, PlacedAll,
        WellFormedAll;
    RootHeader(s, p, rest, tail);
  }

  /** Parses or skips one box at the top level; size 0 at the end. */
  method ParseRootBox(u: Unpacker, ghost rest: Boxes, ghost tail: seq<byte>) returns (ret: int, size: int)
    requires |u.tracks| <= MAX_TRACKS && Remaining(u.stream, u.currentPosition, rest, tail) && RootPlaced(rest)
    modifies u
    ensures RootStep(u.stream, old(u.currentPosition), u.currentPosition, rest, tail,
                     old(u.tracks), u.tracks, ret, size)
  {
    ghost var p, views := u.currentPosition, u.tracks;
    ret := M4A_ERROR_OK;
    assert 0 <= p;
    hide RootStep, RootPlaced, Remaining, TypeAt, HeaderSize, SizeAt;
    var boxType, headerSize;
    size, boxType, headerSize := BoxReadHeader(u);
    RootHeaderRead(u.stream, p, rest, tail, size, boxType, headerSize, u.currentPosition);
    if size == 0 {
      RootStepEnd(u.stream, p, u.currentPosition, rest, tail, views);
      return;
    }
    hide RootRead;
    ret := ParseRootContents(u, size, boxType, headerSize, p, rest, tail);
  }

  /** Parses or skips the contents of a box at the top level. */
  method ParseRootContents(u: Unpacker, size: int, boxType: BoxType, headerSize: int, ghost p: int,
                           ghost rest: Boxes, ghost tail: seq<byte>)
    returns (ret: int)
    requires |u.tracks| <= MAX_TRACKS && size != 0
    requires RootRead(u.stream, p, rest, tail, size, boxType, headerSize, u.currentPosition)
    modifies u
    ensures RootStep(u.stream, p, u.currentPosition, rest, tail, old(u.tracks), u.tracks, ret, size)
  {
    hide RootStep, RootBoxPlaced, Finished, Remaining, WellFormedAll, PlacedAll, Has, EncodeAll, Size, SizeAll;
    ret := M4A_ERROR_OK;
    if boxType.HasSubBoxes() {
      ret := ParseSubBoxes(u, size - headerSize, rest.first.children, false);
      RootStepNode(u.stream, p, u.currentPosition, rest, tail, old(u.tracks), u.tracks, ret);
    } else {
      u.SetPosition(u.currentPosition + size - headerSize);
      RootStepLeaf(u.stream, p, rest, tail, u.tracks);
    }
  }

  /** Half-way through the top level. */
  ghost predicate RootMidway(s: seq<byte>, rest: Boxes, tail: seq<byte>, p: int, v: seq<TrackView>,
                             bs: Boxes, p0: int, v0: seq<TrackView>)
  {
    |v| <= MAX_TRACKS && Remaining(s, p, rest, tail) && RootPlaced(rest) && RootLeads(rest, p, v, bs, p0, v0)
  }

  /** One step leads to the end, to an error, or half-way again. */
  lemma RootNext(s: seq<byte>, rest: Boxes, tail: seq<byte>, p: int, v: seq<TrackView>, q: int, v': seq<TrackView>,
                 ret: int, size: int, bs: Boxes, p0: int, v0: seq<TrackView>)
    requires RootPlaced(bs) && RootMidway(s, rest, tail, p, v, bs, p0, v0)
        && RootStep(s, p, q, rest, tail, v, v', ret, size)
    ensures size == 0 ==> Outcome(M4A_ERROR_OK, v', v0 + RootTracks(bs, p0), RootAccepted(bs)) && 0 <= q
    ensures size != 0 && ret < 0 ==> Outcome(ret, v', v0 + RootTracks(bs, p0), RootAccepted(bs))
    ensures size != 0 && ret >= 0 ==> rest.Boxes? && RootMidway(s, rest.others, tail, q, v', bs, p0, v0)
  {
    hide Outcome, Remaining, RootTracks, RootTracksOf, RootAccepted, RootBoxAccepted, RootLeads, RootPlaced, Size;
    if size == 0 {
      RootEnd(p, v, bs, p0, v0);
    } else if ret < 0 {
      RootFull(rest, p, v, v', ret, bs, p0, v0);
    } else {
      RootLeadsOn(rest, p, v, v', bs, p0, v0);
    }
  }

  /** Parses the boxes at the top level. */
  method ParseBoxes(u: Unpacker, ghost bs: Boxes, ghost tail: seq<byte>) returns (ret: int)
    requires |u.tracks| <= MAX_TRACKS && Remaining(u.stream, u.currentPosition, bs, tail) && RootPlaced(bs)
    modifies u
    ensures Outcome(ret, u.tracks, old(u.tracks) + RootTracks(bs, old(u.currentPosition)), RootAccepted(bs))
    ensures ret == M4A_ERROR_OK ==> 0 <= u.currentPosition
  {
    assert RootLeads(bs, u.currentPosition, u.tracks, bs, u.currentPosition, u.tracks);
    hide Outcome, Remaining, RootTracks, RootAccepted, RootLeads, RootPlaced, RootStep;
    ret := M4A_ERROR_OK;
    ghost var rest := bs;
    while true
      invariant RootMidway(u.stream, rest, tail, u.currentPosition, u.tracks, bs, old(u.currentPosition), old(u.tracks))
      decreases rest
    {
      ghost var p, views := u.currentPosition, u.tracks;
      var size;
      ret, size := ParseRootBox(u, rest, tail);
      RootNext(u.stream, rest, tail, p, views, u.currentPosition, u.tracks, ret, size,
               bs, old(u.currentPosition), old(u.tracks));
      if size == 0 { return M4A_ERROR_OK; }
      if ret < 0 { return; }
      rest := rest.others;
    }
  }

  lemma RootEnd(p: int, views: seq<TrackView>, bs: Boxes, p0: int, v0: seq<TrackView>)
    requires |views| <= MAX_TRACKS && RootLeads(NoBox, p, views, bs, p0, v0)
    ensures RootPlaced(bs) && Outcome(M4A_ERROR_OK, views, v0 + RootTracks(bs, p0), RootAccepted(bs))
  {
    assert views + [] == views;
    assert Outcome(M4A_ERROR_OK, views, views + RootTracks(NoBox, p), RootAccepted(NoBox));
  }

  lemma RootFull(rest: Boxes, p: int, v: seq<TrackView>, v': seq<TrackView>, ret: int,
                 bs: Boxes, p0: int, v0: seq<TrackView>)
    requires rest.Boxes? && RootLeads(rest, p, v, bs, p0, v0) && ret < 0
    requires Outcome(ret, v', v + RootTracksOf(rest.first, p), RootBoxAccepted(rest.first))
    ensures RootPlaced(bs) && Outcome(ret, v', v0 + RootTracks(bs, p0), RootAccepted(bs))
  {
    RootMore(rest, p, v, v', v', ret, ret);
  }
}
