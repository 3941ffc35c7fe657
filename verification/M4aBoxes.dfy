// Trees of boxes (section 4.2 of ISO/IEC 14496-12), how they are written, and which
// tracks they describe, each with the tables inside its trak box, up to a sample
// description that is refused.

module M4aBoxes {
  import opened Bytes
  import opened M4aDescriptors
  import opened M4aUnpacker

  const BOX_HEADER_LENGTH: int := 8

  /** The box types the parser tells apart. */
  datatype BoxType = Trak | Container | Stsz | Stts | Stsc | Stco | Stsd | TrackLeaf | Mp4a | Esds | OtherLeaf {
    predicate HasSubBoxes() { Trak? || Container? }
    /** A leaf whose contents go into the current track. */
    predicate IsTable() { Stsz? || Stts? || Stsc? || Stco? || Stsd? }
    /** A leaf whose reader takes it for granted that there is a track. */
    predicate NeedsTrack() { IsTable() || TrackLeaf? }
  }

  /** The types whose boxes hold boxes, besides tracks. */
  predicate IsContainerName(name: string) {
    name in ["moov", "edts", "mdia", "minf", "stbl", "udta", "ilst", "trkn", "disk", "cpil", "gnre", "tmpo", "covr",
             "drms", "sinf", "schi", "\U{A9}nam", "\U{A9}ART", "\U{A9}wrt", "\U{A9}alb", "\U{A9}day", "\U{A9}too",
             "\U{A9}cmt", "\U{A9}gen"]
  }

  function BoxNameToType(name: string): BoxType {
    if name == "trak" then Trak
    else if IsContainerName(name) then Container
    else if name == "stsz" then Stsz
    else if name == "stts" then Stts
    else if name == "stsc" then Stsc
    else if name == "stco" then Stco
    else if name == "stsd" then Stsd
    else if name in ["ctts", "mdhd"] then TrackLeaf
    else if name == "mp4a" then Mp4a
    else if name == "esds" then Esds
    else OtherLeaf
  }

  datatype Box = Leaf(name: seq<byte>, payload: seq<byte>) | Node(name: seq<byte>, children: Boxes)
  datatype Boxes = NoBox | Boxes(first: Box, others: Boxes)

  function TypeOf(b: Box): BoxType {
    BoxNameToType(FromBytes(b.name))
  }

  /** Size of a box, header included. */
  function Size(b: Box): (n: nat)
    ensures n >= BOX_HEADER_LENGTH
    decreases b, 1
  {
    BOX_HEADER_LENGTH + (match b case Leaf(_, payload) => |payload| case Node(_, children) => SizeAll(children))
  }

  function SizeAll(bs: Boxes): (n: nat)
    decreases bs, 0
  {
    if bs.NoBox? then 0 else Size(bs.first) + SizeAll(bs.others)
  }

  /** The bytes of a box: its size, its name and its contents. */
  function Encode(b: Box): (s: seq<byte>)
    requires WellFormed(b)
    ensures |s| == Size(b)
    decreases b, 1
  {
    Be32Bytes(Size(b)) + b.name +
    (match b case Leaf(_, payload) => payload case Node(_, children) => EncodeAll(children))
  }

  function EncodeAll(bs: Boxes): (s: seq<byte>)
    requires WellFormedAll(bs)
    ensures |s| == SizeAll(bs)
    decreases bs, 0
  {
    if bs.NoBox? then [] else Encode(bs.first) + EncodeAll(bs.others)
  }

  /** Boxes with 32-bit sizes, whose names say truly whether they hold boxes. */
  ghost predicate WellFormed(b: Box)
    decreases b, 1
  {
    && |b.name| == 4
    && Size(b) < TWO_32
    && (b.Node? <==> TypeOf(b).HasSubBoxes())
    && (b.Node? ==> WellFormedAll(b.children))
  }

  ghost predicate WellFormedAll(bs: Boxes)
    decreases bs, 0
  {
    bs.NoBox? || (WellFormed(bs.first) && WellFormedAll(bs.others))
  }

  // The table boxes. Each reader skips four bytes of version and flags.

  /** n big-endian words, one every stride bytes. */
  function Words(s: seq<byte>, at: nat, stride: nat, n: nat): (w: seq<int>)
    requires n > 0 ==> at + stride * (n - 1) + 4 <= |s|
    ensures |w| == n
    decreases n
  {
    if n == 0 then [] else
    assert stride * (n - 1) >= 0;
    assert n > 1 ==> stride * (n - 1) == stride * (n - 2) + stride;
    Words(s, at, stride, n - 1) + [AsInt32(Be32(s, at + stride * (n - 1)))]
  }

  function Count(payload: seq<byte>): int
    requires 8 <= |payload|
  {
    AsInt32(Be32(payload, 4))
  }

  /** Whether an MPEG-4 audio entry is accepted, from behind its header: 28
      bytes of fields and then a box, which counts when it is an esds one. */
  function Mp4aVerdict(s: seq<byte>, at: nat): Verdict {
    var child := at + 28;
    if child + BOX_HEADER_LENGTH > |s| then CutShort
    else if !BoxNameToType(FromBytes(s[child + 4..child + 8])).Esds? then Accepted
    else EsdsVerdict(s, child + BOX_HEADER_LENGTH + if Be32(s, child) == 1 then 8 else 0)
  }

  /** The type a sample entry has by its name. */
  function EntryType(s: seq<byte>, at: nat): BoxType
    requires at + BOX_HEADER_LENGTH <= |s|
  {
    BoxNameToType(FromBytes(s[at + 4..at + 8]))
  }

  function EntryVerdict(s: seq<byte>, at: nat): Verdict
    requires at + BOX_HEADER_LENGTH <= |s|
  {
    if EntryType(s, at).Mp4a? then Mp4aVerdict(s, at + BOX_HEADER_LENGTH) else Accepted
  }

  /** Sample entries one after the other, each at least a box header long, and
      none cut short before its reader is done with it. */
  ghost predicate EntriesOk(s: seq<byte>, at: nat, n: nat)
    decreases n
  {
    n == 0 || (at + BOX_HEADER_LENGTH <= |s| && Be32(s, at) >= BOX_HEADER_LENGTH && !EntryVerdict(s, at).CutShort?
               && EntriesOk(s, at + Be32(s, at), n - 1))
  }

  /** All sample entries are accepted. */
  predicate EntriesAccepted(s: seq<byte>, at: nat, n: nat)
    requires EntriesOk(s, at, n)
    decreases n
  {
    n == 0 || (EntryVerdict(s, at).Accepted? && EntriesAccepted(s, at + Be32(s, at), n - 1))
  }

  /** Whether the last sample entry read is an MPEG-4 audio one; a refused
      entry is the last. */
  function LastIsAudio(s: seq<byte>, at: nat, n: nat, audio: bool): bool
    requires EntriesOk(s, at, n)
    decreases n
  {
    if n == 0 then audio
    else if EntryVerdict(s, at).Refused? then true
    else LastIsAudio(s, at + Be32(s, at), n - 1, EntryType(s, at).Mp4a?)
  }

  /** The leaf holds as many entries as it announces. */
  ghost predicate LeafOk(ty: BoxType, payload: seq<byte>) {
    match ty
    case Stsz => 12 <= |payload|
    case Stts => 8 <= |payload| && 0 <= Count(payload) && 8 + 8 * Count(payload) <= |payload|
    case Stsc => 8 <= |payload| && 0 <= Count(payload) && 8 + 12 * Count(payload) <= |payload|
    case Stco => 8 <= |payload| && 0 <= Count(payload) && 8 + 4 * Count(payload) <= |payload|
    case Stsd => 8 <= |payload| && 0 <= Count(payload) && EntriesOk(payload, 8, Count(payload))
    case _ => true
  }

  /** What a leaf at stream position p says about its track. */
  function Table(ty: BoxType, payload: seq<byte>, p: int, v: TrackView): TrackView
    requires LeafOk(ty, payload)
  {
    match ty
    case Stsz =>
      var size := AsInt32(Be32(payload, 4));
      v.(sampleSize := size, sampleCount := AsInt32(Be32(payload, 8)),
         sizesAt := if size == 0 then p + 12 else v.sizesAt)
    case Stts => if v.sttsCounts != [] then v else v.(sttsCounts := Words(payload, 8, 8, Count(payload)))
    case Stsc =>
      v.(firstChunk := Words(payload, 8, 12, Count(payload)),
         perChunk := Words(payload, 12, 12, Count(payload)))
    case Stco =>
      v.(chunkCount := Count(payload), offsetsAt := p + 8,
         offsets := Words(payload, 8, 4, Min(Count(payload), MAX_NUM_STCO_LOAD)))
    case Stsd => v.(isAudio := LastIsAudio(payload, 8, Count(payload), v.isAudio))
    case _ => v
  }

  /** Tables are readable and appear inside tracks only; tracks do not nest. */
  ghost predicate Placed(b: Box, inTrak: bool)
    decreases b, 1
  {
    match b
    case Leaf(_, payload) =>
      (TypeOf(b).NeedsTrack() ==> inTrak) && (TypeOf(b).IsTable() ==> LeafOk(TypeOf(b), payload))
    case Node(_, children) => !(inTrak && TypeOf(b).Trak?) && PlacedAll(children, inTrak || TypeOf(b).Trak?)
  }

  ghost predicate PlacedAll(bs: Boxes, inTrak: bool)
    decreases bs, 0
  {
    bs.NoBox? || (Placed(bs.first, inTrak) && PlacedAll(bs.others, inTrak))
  }

  /** The reader of a leaf is content with it: sample descriptions can be
      refused, the other tables cannot. */
  ghost predicate LeafAccepted(ty: BoxType, payload: seq<byte>)
    requires LeafOk(ty, payload)
  {
    ty.Stsd? ==> EntriesAccepted(payload, 8, Count(payload))
  }

  /** No sample description among these boxes, at whatever depth, is refused. */
  ghost predicate BoxAccepted(b: Box, inTrak: bool)
    requires Placed(b, inTrak)
    decreases b, 1
  {
    match b
    case Leaf(_, payload) => TypeOf(b).IsTable() ==> LeafAccepted(TypeOf(b), payload)
    case Node(_, children) => AcceptedAll(children, inTrak || TypeOf(b).Trak?)
  }

  ghost predicate AcceptedAll(bs: Boxes, inTrak: bool)
    requires PlacedAll(bs, inTrak)
    decreases bs, 0
  {
    bs.NoBox? || (BoxAccepted(bs.first, inTrak) && AcceptedAll(bs.others, inTrak))
  }

  /** A track after the boxes at stream position p: all the tables in them, in
      file order, at whatever depth, up to a refused sample description. */
  ghost function Inside(bs: Boxes, p: int, v: TrackView): TrackView
    requires PlacedAll(bs, true)
    decreases bs, 0
  {
    if bs.NoBox? then v
    else if !BoxAccepted(bs.first, true) then InsideBox(bs.first, p, v)
    else Inside(bs.others, p + Size(bs.first), InsideBox(bs.first, p, v))
  }

  ghost function InsideBox(b: Box, p: int, v: TrackView): TrackView
    requires Placed(b, true)
    decreases b, 1
  {
    match b
    case Leaf(_, payload) => if TypeOf(b).IsTable() then Table(TypeOf(b), payload, p + BOX_HEADER_LENGTH, v) else v
    case Node(_, children) => Inside(children, p + BOX_HEADER_LENGTH, v)
  }

  /** The tracks described by the boxes at stream position p: one for each
      trak box, made of the tables inside that box; the track of a refused
      sample description is the last. */
  ghost function TracksIn(bs: Boxes, p: int): seq<TrackView>
    requires PlacedAll(bs, false)
    decreases bs, 0
  {
    if bs.NoBox? then []
    else if !BoxAccepted(bs.first, false) then TracksInBox(bs.first, p)
    else TracksInBox(bs.first, p) + TracksIn(bs.others, p + Size(bs.first))
  }

  ghost function TracksInBox(b: Box, p: int): seq<TrackView>
    requires Placed(b, false)
    decreases b, 1
  {
    match b
    case Leaf(_, _) => []
    case Node(_, children) =>
      if TypeOf(b).Trak? then [Inside(children, p + BOX_HEADER_LENGTH, EMPTY_TRACK)]
      else TracksIn(children, p + BOX_HEADER_LENGTH)
  }

  /** At the top level leaves are skipped unread, and tracks start deeper. */
  ghost predicate RootPlaced(bs: Boxes) {
    bs.NoBox? || (RootBoxPlaced(bs.first) && RootPlaced(bs.others))
  }

  ghost predicate RootBoxPlaced(b: Box) {
    b.Node? ==> !TypeOf(b).Trak? && PlacedAll(b.children, false)
  }

  ghost predicate RootAccepted(bs: Boxes)
    requires RootPlaced(bs)
  {
    bs.NoBox? || (RootBoxAccepted(bs.first) && RootAccepted(bs.others))
  }

  ghost predicate RootBoxAccepted(b: Box)
    requires RootBoxPlaced(b)
  {
    b.Node? ==> AcceptedAll(b.children, false)
  }

  ghost function RootTracks(bs: Boxes, p: int): seq<TrackView>
    requires RootPlaced(bs)
    decreases bs
  {
    if bs.NoBox? then []
    else if !RootBoxAccepted(bs.first) then RootTracksOf(bs.first, p)
    else RootTracksOf(bs.first, p) + RootTracks(bs.others, p + Size(bs.first))
  }

  ghost function RootTracksOf(b: Box, p: int): seq<TrackView>
    requires RootBoxPlaced(b)
  {
    if b.Node? then TracksIn(b.children, p + BOX_HEADER_LENGTH) else []
  }

  function Append(bs: Boxes, more: Boxes): Boxes {
    if bs.NoBox? then more else Boxes(bs.first, Append(bs.others, more))
  }

  /** Whatever stands behind a refused sample description inside a track never
      reaches the track. */
  lemma {:induction false} RefusedIsLast(bs: Boxes, more: Boxes, p: int, v: TrackView)
    requires PlacedAll(bs, true) && PlacedAll(more, true) && !AcceptedAll(bs, true)
    ensures PlacedAll(Append(bs, more), true) && !AcceptedAll(Append(bs, more), true)
    ensures Inside(Append(bs, more), p, v) == Inside(bs, p, v)
    decreases bs
  {
    hide Placed, BoxAccepted, InsideBox, Size;
    if BoxAccepted(bs.first, true) {
      RefusedIsLast(bs.others, more, p + Size(bs.first), InsideBox(bs.first, p, v));
    } else {
      var rest := bs.others;
      PlacedAppend(rest, more);
    }
  }

  lemma {:induction false} PlacedAppend(bs: Boxes, more: Boxes)
    requires PlacedAll(bs, true) && PlacedAll(more, true)
    ensures PlacedAll(Append(bs, more), true)
    decreases bs
  {
    hide Placed;
    if bs.Boxes? { PlacedAppend(bs.others, more); }
  }

  /** A sample description with one MPEG-4 audio entry whose ES descriptor has
      length 0. */
  function ZeroLengthStsd(): seq<byte> {
    [0, 0, 0, 0, 0, 0, 0, 1, 0, 0, 0, 50, 0x6D, 0x70, 0x34, 0x61] + seq(28, _ => 0)
    + [0, 0, 0, 14, 0x65, 0x73, 0x64, 0x73, 0, 0, 0, 0, ES_DESCR_TAG, 0]
  }

  lemma ZeroLengthBytes(s: seq<byte>)
    requires s == ZeroLengthStsd()
    ensures |s| == 58 && s[12..16] == [0x6D, 0x70, 0x34, 0x61] && s[48..52] == [0x65, 0x73, 0x64, 0x73]
    ensures Count(s) == 1 && Be32(s, 8) == 50 && Be32(s, 44) == 14 && s[57] == 0
  {
  }

  /** A concrete sample description that is refused. */
  lemma ZeroLengthRefused()
    ensures LeafOk(Stsd, ZeroLengthStsd()) && !LeafAccepted(Stsd, ZeroLengthStsd())
  {
    var s := ZeroLengthStsd();
    ZeroLengthBytes(s);
    ZeroLengthVerdict(s);
    hide ZeroLengthStsd, EntryVerdict, Be32;
    assert EntriesOk(s, 58, 0);
    assert EntriesOk(s, 8, 1);
  }

  lemma ZeroLengthVerdict(s: seq<byte>)
    requires |s| == 58 && s[12..16] == [0x6D, 0x70, 0x34, 0x61] && s[48..52] == [0x65, 0x73, 0x64, 0x73]
    requires Be32(s, 44) == 14 && s[57] == 0
    ensures EntryVerdict(s, 8) == Refused
  {
    AudioNames();
    hide BoxNameToType, FromBytes, Be32, EsdsVerdict;
    assert EsdsVerdict(s, 52) == Refused by { ZeroLength(s); }
  }

  lemma ZeroLength(s: seq<byte>)
    requires |s| == 58 && s[57] == 0
    ensures EsdsVerdict(s, 52) == Refused
  {
    assert DescrLength(s, 57, 0, 0) == Length(0, 58);
  }

  lemma AudioNames()
    ensures BoxNameToType(FromBytes([0x6D, 0x70, 0x34, 0x61])) == Mp4a
    ensures BoxNameToType(FromBytes([0x65, 0x73, 0x64, 0x73])) == Esds
  {
    var a: seq<byte>, b: seq<byte> := [0x6D, 0x70, 0x34, 0x61], [0x65, 0x73, 0x64, 0x73];
    assert FromBytes(a) == "mp4a";
    assert FromBytes(b) == "esds";
    hide FromBytes;
    Mp4aName();
    EsdsName();
  }

  /** Names that differ from those of all containers, mostly in their first
      letters. */
  lemma NoContainerName(name: string)
    requires |name| == 4 && name != "stbl"
    requires name[0] == 'f' || (name[0] == 's' && name[1] == 't') || (name[0] == 'm' && name[1] == 'p')
             || (name[0] == 'e' && name[1] == 's')
    ensures !IsContainerName(name)
  {
  }

  lemma Mp4aName()
    ensures BoxNameToType("mp4a") == Mp4a
  {
    assert "mp4a"[0] == 'm' && "mp4a"[1] == 'p';
    NoContainerName("mp4a");
    hide IsContainerName;
  }

  lemma EsdsName()
    ensures BoxNameToType("esds") == Esds
  {
    assert "esds"[0] == 'e' && "esds"[1] == 's';
    NoContainerName("esds");
    hide IsContainerName;
  }

  /** Bytes that cannot be taken for another box: too few, or a zero size. */
  predicate EndsBoxes(tail: seq<byte>) {
    |tail| < BOX_HEADER_LENGTH || Be32(tail, 0) == 0
  }
}
