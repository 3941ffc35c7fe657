// A file header as it is written, from the chunks its samples are stored in, and
// that parsing it and reading its tables gives the place of every sample back.

module M4aHeader {
  import opened Bytes
  import opened M4aTables
  import opened M4aUnpacker
  import opened M4aBoxes
  import opened M4aBoxParser
  import opened M4aOpen
  import opened M4aStream
  import opened M4aLayout
  import opened M4aWriter
  import opened M4aPlayer

  // Names.

  const FTYP: seq<byte> := [0x66, 0x74, 0x79, 0x70]
  const MOOV: seq<byte> := [0x6D, 0x6F, 0x6F, 0x76]
  const TRAK: seq<byte> := [0x74, 0x72, 0x61, 0x6B]
  const MDIA: seq<byte> := [0x6D, 0x64, 0x69, 0x61]
  const MDHD: seq<byte> := [0x6D, 0x64, 0x68, 0x64]
  const MINF: seq<byte> := [0x6D, 0x69, 0x6E, 0x66]
  const STBL: seq<byte> := [0x73, 0x74, 0x62, 0x6C]
  const FREE: seq<byte> := [0x66, 0x72, 0x65, 0x65]
  const STSD: seq<byte> := [0x73, 0x74, 0x73, 0x64]
  const STTS: seq<byte> := [0x73, 0x74, 0x74, 0x73]
  const STSC: seq<byte> := [0x73, 0x74, 0x73, 0x63]
  const STSZ: seq<byte> := [0x73, 0x74, 0x73, 0x7A]
  const STCO: seq<byte> := [0x73, 0x74, 0x63, 0x6F]

  lemma TableNames()
    ensures FromBytes(STSD) == "stsd" && FromBytes(STTS) == "stts" && FromBytes(STSC) == "stsc"
    ensures FromBytes(STSZ) == "stsz" && FromBytes(STCO) == "stco"
  {
  }

  lemma OtherNames()
    ensures FromBytes(FTYP) == "ftyp" && FromBytes(FREE) == "free" && FromBytes(MDHD) == "mdhd"
  {
  }

  lemma NodeNames()
    ensures FromBytes(MOOV) == "moov" && FromBytes(TRAK) == "trak" && FromBytes(MDIA) == "mdia"
    ensures FromBytes(MINF) == "minf" && FromBytes(STBL) == "stbl"
  {
  }

  lemma TableType(name: string)
    requires name in ["stsd", "stts", "stsc", "stsz", "stco"]
    ensures name == "stsd" ==> BoxNameToType(name) == Stsd
    ensures name == "stts" ==> BoxNameToType(name) == Stts
    ensures name == "stsc" ==> BoxNameToType(name) == Stsc
    ensures name == "stsz" ==> BoxNameToType(name) == Stsz
    ensures name == "stco" ==> BoxNameToType(name) == Stco
  {
    assert "stsd"[3] == 'd' && "stts"[3] == 's' && "stsc"[3] == 'c' && "stsz"[3] == 'z' && "stco"[3] == 'o';
    assert name[0] == 's' && name[1] == 't' && "trak"[0] == 't' && "stbl"[3] == 'l';
    NoContainerName(name);
    hide IsContainerName;
  }

  lemma FillerType(name: string)
    requires |name| == 4 && name[0] == 'f'
    ensures BoxNameToType(name) == OtherLeaf
  {
    NoContainerName(name);
    hide IsContainerName;
  }

  lemma ContainerType(name: string)
    requires name in ["moov", "mdia", "minf", "stbl"]
    ensures BoxNameToType(name) == Container && BoxNameToType("trak") == Trak
  {
    assert IsContainerName(name);
    assert name[0] == 'm' || name[0] == 's';
    hide IsContainerName;
    assert "trak"[0] == 't';
  }

  lemma MediaHeaderType()
    ensures BoxNameToType("mdhd") == TrackLeaf
  {
    assert "mdhd"[0] == 'm' && "mdhd"[1] == 'd' && "mdhd"[2] == 'h';
    assert !IsContainerName("mdhd");
    hide IsContainerName;
  }

  lemma Types(b: Box)
    ensures b.name == FTYP || b.name == FREE ==> TypeOf(b) == OtherLeaf
    ensures b.name == MDHD ==> TypeOf(b) == TrackLeaf
    ensures b.name in [MOOV, MDIA, MINF, STBL] ==> TypeOf(b) == Container
    ensures b.name == TRAK ==> TypeOf(b) == Trak
    ensures b.name == STSD ==> TypeOf(b) == Stsd
    ensures b.name == STTS ==> TypeOf(b) == Stts
    ensures b.name == STSC ==> TypeOf(b) == Stsc
    ensures b.name == STSZ ==> TypeOf(b) == Stsz
    ensures b.name == STCO ==> TypeOf(b) == Stco
  {
    hide BoxNameToType, FromBytes;
    TableNames();
    OtherNames();
    NodeNames();
    FillerType("ftyp");
    FillerType("free");
    MediaHeaderType();
    ContainerType("moov");
    ContainerType("mdia");
    ContainerType("minf");
    ContainerType("stbl");
    TableType("stsd");
    TableType("stts");
    TableType("stsc");
    TableType("stsz");
    TableType("stco");
  }

  // The boxes.

  /** What a header is made of. */
  datatype Parts = Parts(
    brand: seq<byte>,           // contents of the ftyp box
    media: seq<byte>,           // contents of the media header
    entries: seq<Entry>,        // sample descriptions
    counts: seq<int>,           // runs of samples of one duration
    deltas: seq<int>,
    descriptions: seq<int>,     // for each run of chunks
    chunks: seq<Chunk>,
    common: int,                // size of all samples, or 0
    filler: seq<byte>
  )

  /** The parts can be written in 32-bit fields, agree with each other and
      describe an audio track. */
  ghost predicate Fitting(h: Parts) {
    && EntriesFit(h.entries) && 0 < |h.entries| < TWO_31
    && AudioAccepted(StsdBytes(h.entries), 8, h.entries) && IsMp4a(h.entries[|h.entries| - 1])
    && |h.counts| == |h.deltas| < TWO_31 && AllSigned(h.counts) && AllSigned(h.deltas)
    && Total(h.counts) == |AllSizes(h.chunks)|
    && ChunksFit(h.chunks) && Listed(h.common, AllSizes(h.chunks)) && Signed32(h.common)
    && |h.descriptions| == |RunStarts(Counts(h.chunks))| && AllSigned(h.descriptions)
  }

  ghost predicate ChunksFit(chunks: seq<Chunk>) {
    && Writable(chunks) && |chunks| < TWO_31 && |AllSizes(chunks)| < TWO_31
    && (forall c :: 0 <= c < |chunks| ==> 0 <= chunks[c].offset < TWO_31)
    && AllSigned(AllSizes(chunks))
  }

  lemma RunsFitFields(chunks: seq<Chunk>)
    requires ChunksFit(chunks)
    ensures var f, n := RunStarts(Counts(chunks)), RunCounts(Counts(chunks));
      |f| == |n| < TWO_31 && AllSigned(f) && AllSigned(n) && AllSigned(OffsetsOf(chunks))
  {
    hide RunStarts, RunCounts, AllSizes;
    forall c | 0 <= c < |chunks| ensures 0 < |chunks[c].sizes| <= |AllSizes(chunks)| { CountsBounded(chunks, c); }
    RunsBounded(Counts(chunks), |AllSizes(chunks)|);
  }

  /** The sizes as they are listed in the box. */
  function ListedSizes(h: Parts): seq<int> {
    if h.common == 0 then AllSizes(h.chunks) else []
  }

  function DescriptionBox(h: Parts): Box
    requires Fitting(h)
  {
    Leaf(STSD, StsdBytes(h.entries))
  }

  function TimeBox(h: Parts): Box
    requires Fitting(h)
  {
    Leaf(STTS, SttsBytes(h.counts, h.deltas))
  }

  function RunBox(h: Parts): Box
    requires Fitting(h)
  {
    RunsFitFields(h.chunks);
    Leaf(STSC, StscBytes(RunStarts(Counts(h.chunks)), RunCounts(Counts(h.chunks)), h.descriptions))
  }

  function SizeBox(h: Parts): Box
    requires Fitting(h)
  {
    Leaf(STSZ, StszBytes(h.common, |AllSizes(h.chunks)|, ListedSizes(h)))
  }

  function OffsetBox(h: Parts): Box
    requires Fitting(h)
  {
    RunsFitFields(h.chunks);
    Leaf(STCO, StcoBytes(OffsetsOf(h.chunks)))
  }

  function SampleTables(h: Parts): Boxes
    requires Fitting(h)
  {
    Boxes(DescriptionBox(h), Boxes(TimeBox(h), Boxes(RunBox(h), Boxes(SizeBox(h), Boxes(OffsetBox(h), NoBox)))))
  }

  /** Where the size and the offset box stand when the first table stands at p. */
  ghost function SizeBoxAt(h: Parts, p: int): int
    requires Fitting(h)
  {
    p + Size(DescriptionBox(h)) + Size(TimeBox(h)) + Size(RunBox(h))
  }

  ghost function OffsetBoxAt(h: Parts, p: int): int
    requires Fitting(h)
  {
    SizeBoxAt(h, p) + Size(SizeBox(h))
  }

  /** What the tables say about their track. */
  ghost function View(h: Parts, p: int): TrackView
    requires Fitting(h)
  {
    var counts, offsets := Counts(h.chunks), OffsetsOf(h.chunks);
    TrackView(true, h.common, |AllSizes(h.chunks)|, if h.common == 0 then SizeBoxAt(h, p) + 20 else 0, h.counts,
              RunStarts(counts), RunCounts(counts), |offsets|, OffsetBoxAt(h, p) + 16,
              offsets[..Min(|offsets|, MAX_NUM_STCO_LOAD)])
  }
  // Reading the boxes of a track.

  /** Boxes fit for a track, which turn one view of it into another. */
  ghost predicate Turns(bs: Boxes, p: int, v: TrackView, w: TrackView) {
    WellFormedAll(bs) && PlacedAll(bs, true) && AcceptedAll(bs, true) && Inside(bs, p, v) == w
  }

  lemma NothingTurns(p: int, v: TrackView)
    ensures Turns(NoBox, p, v, v)
  {
  }

  lemma TableFirst(b: Box, others: Boxes, p: int, v: TrackView, w: TrackView)
    requires b.Leaf? && |b.name| == 4 && Size(b) < TWO_32 && TypeOf(b).IsTable()
    requires LeafOk(TypeOf(b), b.payload) && LeafAccepted(TypeOf(b), b.payload)
    requires Turns(others, p + Size(b), Table(TypeOf(b), b.payload, p + BOX_HEADER_LENGTH, v), w)
    ensures Turns(Boxes(b, others), p, v, w)
  {
    hide Table, LeafOk, LeafAccepted, TypeOf;
    assert WellFormed(b) && Placed(b, true) && BoxAccepted(b, true);
    assert InsideBox(b, p, v) == Table(TypeOf(b), b.payload, p + BOX_HEADER_LENGTH, v);
    assert Inside(Boxes(b, others), p, v) == Inside(others, p + Size(b), InsideBox(b, p, v));
  }

  /** A leaf that is no table does not touch the track. */
  lemma OtherFirst(b: Box, others: Boxes, p: int, v: TrackView, w: TrackView)
    requires b.Leaf? && |b.name| == 4 && Size(b) < TWO_32 && !TypeOf(b).IsTable() && !TypeOf(b).HasSubBoxes()
    requires Turns(others, p + Size(b), v, w)
    ensures Turns(Boxes(b, others), p, v, w)
  {
    hide Table, LeafOk, LeafAccepted, TypeOf;
    assert WellFormed(b) && Placed(b, true) && BoxAccepted(b, true);
    assert Inside(Boxes(b, others), p, v) == Inside(others, p + Size(b), InsideBox(b, p, v));
  }

  /** A container turns the view as what is in it does. */
  lemma NodeTurns(b: Box, p: int, v: TrackView, w: TrackView)
    requires b.Node? && |b.name| == 4 && Size(b) < TWO_32 && TypeOf(b).Container?
    requires Turns(b.children, p + BOX_HEADER_LENGTH, v, w)
    ensures Turns(Boxes(b, NoBox), p, v, w)
  {
    hide TypeOf;
    assert WellFormed(b) && Placed(b, true) && BoxAccepted(b, true);
    NothingTurns(p + Size(b), w);
    assert Inside(Boxes(b, NoBox), p, v) == Inside(NoBox, p + Size(b), InsideBox(b, p, v));
  }

  lemma DescriptionFirst(h: Parts, others: Boxes, p: int, v: TrackView, w: TrackView)
    requires Fitting(h) && Size(DescriptionBox(h)) < TWO_32
    requires Turns(others, p + Size(DescriptionBox(h)), v.(isAudio := true), w)
    ensures Turns(Boxes(DescriptionBox(h), others), p, v, w)
  {
    hide Table, LeafOk, LeafAccepted, TypeOf, Turns, StsdBytes, AudioAccepted, IsMp4a, AllSizes, RunStarts, Size;
    Types(DescriptionBox(h));
    StsdRead(h.entries, p + 8, v);
    TableFirst(DescriptionBox(h), others, p, v, w);
  }

  lemma TimesFirst(h: Parts, others: Boxes, p: int, v: TrackView, w: TrackView)
    requires Fitting(h) && Size(TimeBox(h)) < TWO_32 && v.sttsCounts == []
    requires Turns(others, p + Size(TimeBox(h)), v.(sttsCounts := h.counts), w)
    ensures Turns(Boxes(TimeBox(h), others), p, v, w)
  {
    hide Table, LeafOk, TypeOf, Turns, StsdBytes, SttsBytes, AudioAccepted, IsMp4a, AllSizes, RunStarts, Size;
    Types(TimeBox(h));
    SttsRead(h.counts, h.deltas, p + 8, v);
    TableFirst(TimeBox(h), others, p, v, w);
  }

  lemma RunsFirst(h: Parts, others: Boxes, p: int, v: TrackView, w: TrackView)
    requires Fitting(h) && Size(RunBox(h)) < TWO_32
    requires Turns(others, p + Size(RunBox(h)),
                   v.(firstChunk := RunStarts(Counts(h.chunks)), perChunk := RunCounts(Counts(h.chunks))), w)
    ensures Turns(Boxes(RunBox(h), others), p, v, w)
  {
    hide Table, LeafOk, TypeOf, Turns, StsdBytes, StscBytes, AudioAccepted, IsMp4a, AllSizes, RunStarts, RunCounts;
    hide Size;
    Types(RunBox(h));
    RunsFitFields(h.chunks);
    StscRead(RunStarts(Counts(h.chunks)), RunCounts(Counts(h.chunks)), h.descriptions, p + 8, v);
    TableFirst(RunBox(h), others, p, v, w);
  }

  lemma SizesFirst(h: Parts, others: Boxes, p: int, v: TrackView, w: TrackView)
    requires Fitting(h) && Size(SizeBox(h)) < TWO_32 && v.sizesAt == 0
    requires Turns(others, p + Size(SizeBox(h)),
                   v.(sampleSize := h.common, sampleCount := |AllSizes(h.chunks)|,
                      sizesAt := if h.common == 0 then p + 20 else 0), w)
    ensures Turns(Boxes(SizeBox(h), others), p, v, w)
  {
    hide Table, LeafOk, TypeOf, Turns, StsdBytes, StszBytes, AudioAccepted, IsMp4a, AllSizes, RunStarts, Words, Size;
    Types(SizeBox(h));
    StszRead(h.common, |AllSizes(h.chunks)|, ListedSizes(h), p + 8, v);
    TableFirst(SizeBox(h), others, p, v, w);
  }

  lemma OffsetsLast(h: Parts, p: int, v: TrackView)
    requires Fitting(h) && Size(OffsetBox(h)) < TWO_32
    ensures var offsets := OffsetsOf(h.chunks);
      var w := v.(chunkCount := |offsets|, offsetsAt := p + 16,
                  offsets := offsets[..Min(|offsets|, MAX_NUM_STCO_LOAD)]);
      Turns(Boxes(OffsetBox(h), NoBox), p, v, w)
  {
    hide Table, LeafOk, TypeOf, Turns, StsdBytes, StcoBytes, AudioAccepted, IsMp4a, AllSizes, RunStarts, Words, Size;
    Types(OffsetBox(h));
    RunsFitFields(h.chunks);
    StcoRead(OffsetsOf(h.chunks), p + 8, v);
    var w := Table(Stco, OffsetBox(h).payload, p + 8, v);
    NothingTurns(p + Size(OffsetBox(h)), w);
    TableFirst(OffsetBox(h), NoBox, p, v, w);
  }

  lemma SizesAdd(h: Parts)
    requires Fitting(h)
    ensures SizeAll(SampleTables(h)) == Size(DescriptionBox(h)) + Size(TimeBox(h)) + Size(RunBox(h)) + Size(SizeBox(h))
                                        + Size(OffsetBox(h))
  {
    hide Size, DescriptionBox, TimeBox, RunBox, SizeBox, OffsetBox, Fitting;
    var last := Boxes(OffsetBox(h), NoBox);
    var fourth := Boxes(SizeBox(h), last);
    var third := Boxes(RunBox(h), fourth);
    assert SizeAll(last) == Size(OffsetBox(h)) + SizeAll(NoBox);
    assert SizeAll(fourth) == Size(SizeBox(h)) + SizeAll(last);
    assert SizeAll(third) == Size(RunBox(h)) + SizeAll(fourth);
    assert SizeAll(Boxes(TimeBox(h), third)) == Size(TimeBox(h)) + SizeAll(third);
  }

  lemma TablesTurn(h: Parts, p: int)
    requires Fitting(h) && SizeAll(SampleTables(h)) < TWO_31
    ensures Turns(SampleTables(h), p, EMPTY_TRACK, View(h, p))
  {
    hide Turns, DescriptionBox, TimeBox, RunBox, SizeBox, OffsetBox, AllSizes, RunStarts, RunCounts, Fitting, Size;
    hide SizeAll;
    SizesAdd(h);
    var counts := Counts(h.chunks);
    var v1 := EMPTY_TRACK.(isAudio := true);
    var v2 := v1.(sttsCounts := h.counts);
    var v3 := v2.(firstChunk := RunStarts(counts), perChunk := RunCounts(counts));
    var v4 := v3.(sampleSize := h.common, sampleCount := |AllSizes(h.chunks)|,
                  sizesAt := if h.common == 0 then SizeBoxAt(h, p) + 20 else 0);
    var w := View(h, p);
    var last := Boxes(OffsetBox(h), NoBox);
    OffsetsLast(h, OffsetBoxAt(h, p), v4);
    var fourth := Boxes(SizeBox(h), last);
    SizesFirst(h, last, SizeBoxAt(h, p), v3, w);
    var third := Boxes(RunBox(h), fourth);
    RunsFirst(h, fourth, p + Size(DescriptionBox(h)) + Size(TimeBox(h)), v2, w);
    TimesFirst(h, third, p + Size(DescriptionBox(h)), v1, w);
    DescriptionFirst(h, Boxes(TimeBox(h), third), p, EMPTY_TRACK, w);
  }
  // The boxes around them.

  function SampleTableBox(h: Parts): Box
    requires Fitting(h)
  {
    Node(STBL, SampleTables(h))
  }

  function MediaBox(h: Parts): Box
    requires Fitting(h)
  {
    Node(MDIA, Boxes(Leaf(MDHD, h.media), Boxes(Node(MINF, Boxes(SampleTableBox(h), NoBox)), NoBox)))
  }

  function TrackBox(h: Parts): Box
    requires Fitting(h)
  {
    Node(TRAK, Boxes(MediaBox(h), NoBox))
  }

  function Movie(h: Parts): Box
    requires Fitting(h)
  {
    Node(MOOV, Boxes(TrackBox(h), Boxes(Leaf(FREE, h.filler), NoBox)))
  }

  function Header(h: Parts): Boxes
    requires Fitting(h)
  {
    Boxes(Leaf(FTYP, h.brand), Boxes(Movie(h), NoBox))
  }

  /** Length of the header, and where its first table stands. */
  function HeaderLength(h: Parts): nat
    requires Fitting(h)
  {
    SizeAll(SampleTables(h)) + 64 + |h.brand| + |h.media| + |h.filler|
  }

  function TablesAt(h: Parts): nat {
    56 + |h.brand| + |h.media|
  }

  lemma TwoSizes(a: Box, b: Box)
    ensures SizeAll(Boxes(a, Boxes(b, NoBox))) == Size(a) + Size(b)
  {
    hide Size;
    assert SizeAll(NoBox) == 0;
    assert SizeAll(Boxes(b, NoBox)) == Size(b);
  }

  lemma OneSize(b: Box)
    ensures SizeAll(Boxes(b, NoBox)) == Size(b)
  {
    hide Size;
    assert SizeAll(NoBox) == 0;
  }

  lemma NodeSize(b: Box)
    ensures b.Node? ==> Size(b) == 8 + SizeAll(b.children)
    ensures b.Leaf? ==> Size(b) == 8 + |b.payload|
  {
  }

  lemma BoxSizes(h: Parts)
    requires Fitting(h)
    ensures var tables := SizeAll(SampleTables(h));
      && Size(SampleTableBox(h)) == tables + 8 && Size(MediaBox(h)) == tables + 32 + |h.media|
      && Size(TrackBox(h)) == tables + 40 + |h.media| && Size(Movie(h)) == tables + 56 + |h.media| + |h.filler|
      && SizeAll(Header(h)) == HeaderLength(h)
  {
    hide Size, SizeAll, SampleTables, Fitting;
    var minf, mdhd := Node(MINF, Boxes(SampleTableBox(h), NoBox)), Leaf(MDHD, h.media);
    var filler, ftyp := Leaf(FREE, h.filler), Leaf(FTYP, h.brand);
    NodeSize(SampleTableBox(h));
    OneSize(SampleTableBox(h));
    NodeSize(minf);
    NodeSize(mdhd);
    TwoSizes(mdhd, minf);
    NodeSize(MediaBox(h));
    OneSize(MediaBox(h));
    NodeSize(TrackBox(h));
    NodeSize(filler);
    TwoSizes(TrackBox(h), filler);
    NodeSize(Movie(h));
    NodeSize(ftyp);
    TwoSizes(ftyp, Movie(h));
  }

  /** From the media box down to the tables. */
  lemma MediaTurns(h: Parts, q: int)
    requires Fitting(h) && HeaderLength(h) < TWO_31
    ensures Turns(Boxes(MediaBox(h), NoBox), q, EMPTY_TRACK, View(h, q + 32 + |h.media|))
  {
    hide Turns, SampleTables, View, Size, SizeAll, Fitting, TypeOf;
    BoxSizes(h);
    var m := |h.media|;
    var stbl, mdhd := SampleTableBox(h), Leaf(MDHD, h.media);
    var minf, w := Node(MINF, Boxes(stbl, NoBox)), View(h, q + 32 + m);
    TablesTurn(h, q + 32 + m);
    Types(stbl);
    NodeTurns(stbl, q + 24 + m, EMPTY_TRACK, w);
    Types(minf);
    NodeSize(minf);
    OneSize(stbl);
    NodeTurns(minf, q + 16 + m, EMPTY_TRACK, w);
    Types(mdhd);
    NodeSize(mdhd);
    OtherFirst(mdhd, Boxes(minf, NoBox), q + 8, EMPTY_TRACK, w);
    Types(MediaBox(h));
    NodeTurns(MediaBox(h), q, EMPTY_TRACK, w);
  }

  /** Boxes fit for the top of a header, which describe the given tracks. */
  ghost predicate Describing(bs: Boxes, p: int, tracks: seq<TrackView>) {
    WellFormedAll(bs) && PlacedAll(bs, false) && AcceptedAll(bs, false) && TracksIn(bs, p) == tracks
  }

  lemma TrackIs(b: Box, p: int, w: TrackView)
    requires b.Node? && b.name == TRAK && Size(b) < TWO_32 && Turns(b.children, p + 8, EMPTY_TRACK, w)
    ensures WellFormed(b) && Placed(b, false) && BoxAccepted(b, false) && TracksInBox(b, p) == [w]
  {
    Types(b);
    hide TypeOf;
  }

  lemma TrackRead(h: Parts, p: int)
    requires Fitting(h) && HeaderLength(h) < TWO_31
    ensures var b := TrackBox(h);
      && WellFormed(b) && Placed(b, false) && BoxAccepted(b, false)
      && TracksInBox(b, p) == [View(h, p + 40 + |h.media|)]
  {
    hide Turns, View, Size, SizeAll, Fitting, MediaBox, WellFormed, Placed, BoxAccepted, TracksInBox;
    BoxSizes(h);
    MediaTurns(h, p + 8);
    TrackIs(TrackBox(h), p, View(h, p + 40 + |h.media|));
  }

  lemma FillerRead(b: Box)
    requires b.Leaf? && (b.name == FTYP || b.name == FREE) && Size(b) < TWO_32
    ensures WellFormed(b) && Placed(b, false) && BoxAccepted(b, false)
  {
    Types(b);
    hide TypeOf;
  }

  /** Boxes fit for a file, which describe the given tracks. */
  ghost predicate Opening(bs: Boxes, p: int, tracks: seq<TrackView>) {
    WellFormedAll(bs) && RootPlaced(bs) && RootAccepted(bs) && RootTracks(bs, p) == tracks
  }

  lemma NothingLeft(p: int)
    ensures Describing(NoBox, p, []) && Opening(NoBox, p, [])
  {
  }

  lemma LeavesPassed(b: Box, p: int)
    requires b.Leaf?
    ensures RootBoxPlaced(b) && RootBoxAccepted(b) && RootTracksOf(b, p) == []
    ensures Placed(b, false) ==> TracksInBox(b, p) == []
  {
  }

  lemma FirstInMovie(b: Box, others: Boxes, p: int, tracks: seq<TrackView>, all: seq<TrackView>)
    requires WellFormed(b) && Placed(b, false) && BoxAccepted(b, false)
    requires Describing(others, p + Size(b), tracks) && all == TracksInBox(b, p) + tracks
    ensures Describing(Boxes(b, others), p, all)
  {
    hide WellFormed, Placed, BoxAccepted, TracksInBox, Size;
    assert TracksIn(Boxes(b, others), p) == TracksInBox(b, p) + TracksIn(others, p + Size(b));
  }

  lemma TwoInMovie(a: Box, b: Box, p: int, v: TrackView)
    requires WellFormed(a) && Placed(a, false) && BoxAccepted(a, false) && TracksInBox(a, p) == [v]
    requires WellFormed(b) && Placed(b, false) && BoxAccepted(b, false) && b.Leaf?
    ensures Describing(Boxes(a, Boxes(b, NoBox)), p, [v])
  {
    hide *;
    LeavesPassed(b, p + Size(a));
    NothingLeft(p + Size(a) + Size(b));
    FirstInMovie(b, NoBox, p + Size(a), [], []);
    FirstInMovie(a, Boxes(b, NoBox), p, [], [v]);
  }

  lemma MovieNode(children: Boxes, p: int, tracks: seq<TrackView>)
    requires Describing(children, p + 8, tracks) && SizeAll(children) < TWO_31
    ensures var b := Node(MOOV, children);
      && WellFormed(b) && RootBoxPlaced(b) && RootBoxAccepted(b) && RootTracksOf(b, p) == tracks
      && Size(b) == SizeAll(children) + 8
  {
    Types(Node(MOOV, children));
    hide TypeOf;
  }

  lemma MovieRead(h: Parts, p: int)
    requires Fitting(h) && HeaderLength(h) < TWO_31
    ensures var b := Movie(h);
      && WellFormed(b) && RootBoxPlaced(b) && RootBoxAccepted(b)
      && RootTracksOf(b, p) == [View(h, p + 48 + |h.media|)]
  {
    hide Describing, TrackBox, View, Size, SizeAll, Fitting, WellFormed, RootBoxPlaced, RootBoxAccepted, RootTracksOf;
    hide Placed, BoxAccepted, TracksInBox;
    var filler, w := Leaf(FREE, h.filler), View(h, p + 48 + |h.media|);
    BoxSizes(h);
    TrackRead(h, p + 8);
    NodeSize(filler);
    FillerRead(filler);
    TwoInMovie(TrackBox(h), filler, p + 8, w);
    TwoSizes(TrackBox(h), filler);
    MovieNode(Boxes(TrackBox(h), Boxes(filler, NoBox)), p, [w]);
  }

  lemma FirstInFile(b: Box, others: Boxes, p: int, tracks: seq<TrackView>, all: seq<TrackView>)
    requires WellFormed(b) && RootBoxPlaced(b) && RootBoxAccepted(b)
    requires Opening(others, p + Size(b), tracks) && all == RootTracksOf(b, p) + tracks
    ensures Opening(Boxes(b, others), p, all)
  {
    hide WellFormed, RootBoxPlaced, RootBoxAccepted, RootTracksOf, Size;
    assert RootTracks(Boxes(b, others), p) == RootTracksOf(b, p) + RootTracks(others, p + Size(b));
  }

  lemma TwoInFile(a: Box, b: Box, v: TrackView)
    requires WellFormed(a) && a.Leaf?
    requires WellFormed(b) && RootBoxPlaced(b) && RootBoxAccepted(b) && RootTracksOf(b, Size(a)) == [v]
    ensures Opening(Boxes(a, Boxes(b, NoBox)), 0, [v])
  {
    hide *;
    LeavesPassed(a, 0);
    NothingLeft(Size(a) + Size(b));
    FirstInFile(b, NoBox, Size(a), [], [v]);
    FirstInFile(a, Boxes(b, NoBox), 0, [v], [v]);
  }

  lemma HeaderShape(a: Box, b: Box, v: TrackView)
    requires a.Leaf? && a.name == FTYP && b.Node? && b.name == MOOV && Opening(Boxes(a, Boxes(b, NoBox)), 0, [v])
    ensures var bs := Boxes(a, Boxes(b, NoBox));
      IsHeader(bs) && WellFormedAll(bs) && RootPlaced(bs) && Opens(bs) && RootTracks(bs, 0) == [v]
  {
    hide WellFormedAll, RootPlaced, RootAccepted, RootTracks, FromBytes;
    OtherNames();
    NodeNames();
  }

  /** The whole header is one the player takes for a header, with one track. */
  lemma HeaderRead(h: Parts)
    requires Fitting(h) && HeaderLength(h) < TWO_31
    ensures var bs := Header(h);
      && IsHeader(bs) && WellFormedAll(bs) && RootPlaced(bs) && Opens(bs) && SizeAll(bs) == HeaderLength(h)
      && RootTracks(bs, 0) == [View(h, TablesAt(h))]
  {
    hide View, WellFormed, WellFormedAll, RootPlaced, RootAccepted, RootTracks, Size, SizeAll, Fitting, IsHeader, Opens;
    hide RootBoxPlaced, RootTracksOf, RootBoxAccepted, Placed, BoxAccepted, TrackBox, HeaderLength, Opening;
    var first := Leaf(FTYP, h.brand);
    BoxSizes(h);
    NodeSize(first);
    SmallerThanHeader(h);
    FillerRead(first);
    MovieRead(h, Size(first));
    TwoInFile(first, Movie(h), View(h, TablesAt(h)));
    HeaderShape(first, Movie(h), View(h, TablesAt(h)));
  }

  lemma SmallerThanHeader(h: Parts)
    requires Fitting(h) && HeaderLength(h) < TWO_31
    ensures 8 + |h.brand| < TWO_32
  {
  }

  lemma WholeHas(s: seq<byte>)
    ensures Has(s, 0, s)
  {
  }

  lemma OnlyLoaded(s: seq<byte>, vs: seq<TrackView>, v: TrackView)
    requires AllLoaded(s, vs) && vs == [v]
    ensures Loaded(s, v)
  {
    hide Loaded;
    assert vs[0] == v;
  }

  /** The only track is the one a player takes. */
  lemma HeaderTrack(bs: Boxes, v: TrackView)
    requires RootPlaced(bs) && Opens(bs) && RootTracks(bs, 0) == [v] && v.isAudio
    ensures HasTrack(bs) && TrackOf(bs) == v
  {
    hide RootPlaced, Opens, RootTracks;
    assert RootTracks(bs, 0)[0].isAudio;
  }

  lemma HeaderRemains(bs: Boxes, stored: seq<byte>)
    requires WellFormedAll(bs) && stored == EncodeAll(bs)
    ensures Remaining(stored, 0, bs, [])
  {
    hide WellFormedAll, EncodeAll;
    assert stored[0..] == stored && EncodeAll(bs) + [] == EncodeAll(bs);
  }

  lemma TwoEncoded(a: Box, b: Box)
    requires WellFormed(a) && WellFormed(b)
    ensures var bs := Boxes(a, Boxes(b, NoBox)); WellFormedAll(bs) && EncodeAll(bs) == Encode(a) + Encode(b)
  {
    hide Encode, WellFormed;
    assert WellFormedAll(Boxes(b, NoBox));
    assert EncodeAll(Boxes(b, NoBox)) == Encode(b) + [];
  }
  // Reading the long tables where they stand in the stream.

  ghost predicate Stands(s: seq<byte>, p: int, b: Box) {
    WellFormed(b) && Has(s, p, Encode(b))
  }

  ghost predicate StandAll(s: seq<byte>, p: int, bs: Boxes) {
    WellFormedAll(bs) && Has(s, p, EncodeAll(bs))
  }

  lemma StepOver(s: seq<byte>, p: int, a: Box, others: Boxes)
    requires StandAll(s, p, Boxes(a, others))
    ensures Stands(s, p, a) && StandAll(s, p + Size(a), others)
  {
    hide Encode, EncodeAll, Has, WellFormed, Size;
    FirstBox(s, p, Boxes(a, others));
  }

  lemma StepInto(s: seq<byte>, p: int, b: Box)
    requires Stands(s, p, b)
    ensures b.Node? ==> StandAll(s, p + 8, b.children)
    ensures b.Leaf? ==> Has(s, p + 8, b.payload)
  {
    hide Encode, EncodeAll, Has;
    HeaderOf(s, p, b);
  }

  /** From the start of the stream down to the tables. */
  lemma TablesStand(s: seq<byte>, h: Parts)
    requires Fitting(h) && HeaderLength(h) < TWO_31 && StandAll(s, 0, Header(h))
    ensures StandAll(s, TablesAt(h), SampleTables(h))
  {
    hide StandAll, Stands, Size, SizeAll, SampleTables, Fitting, HeaderLength;
    var m, mdhd, ftyp := |h.media|, Leaf(MDHD, h.media), Leaf(FTYP, h.brand);
    var minf := Node(MINF, Boxes(SampleTableBox(h), NoBox));
    NodeSize(ftyp);
    NodeSize(mdhd);
    var p := 8 + |h.brand|;
    StepOver(s, 0, ftyp, Boxes(Movie(h), NoBox));
    StepOver(s, p, Movie(h), NoBox);
    StepInto(s, p, Movie(h));
    StepOver(s, p + 8, TrackBox(h), Boxes(Leaf(FREE, h.filler), NoBox));
    StepInto(s, p + 8, TrackBox(h));
    StepOver(s, p + 16, MediaBox(h), NoBox);
    StepInto(s, p + 16, MediaBox(h));
    StepOver(s, p + 24, mdhd, Boxes(minf, NoBox));
    StepOver(s, p + 32 + m, minf, NoBox);
    StepInto(s, p + 32 + m, minf);
    StepOver(s, p + 40 + m, SampleTableBox(h), NoBox);
    StepInto(s, p + 40 + m, SampleTableBox(h));
  }

  lemma LongTablesStand(s: seq<byte>, h: Parts, p: int)
    requires Fitting(h) && StandAll(s, p, SampleTables(h))
    ensures Has(s, SizeBoxAt(h, p) + 8, SizeBox(h).payload) && Has(s, OffsetBoxAt(h, p) + 8, OffsetBox(h).payload)
  {
    hide StandAll, Stands, Size, SizeAll, DescriptionBox, TimeBox, RunBox, Fitting, Has;
    var last := Boxes(OffsetBox(h), NoBox);
    var fourth := Boxes(SizeBox(h), last);
    var third := Boxes(RunBox(h), fourth);
    StepOver(s, p, DescriptionBox(h), Boxes(TimeBox(h), third));
    StepOver(s, p + Size(DescriptionBox(h)), TimeBox(h), third);
    StepOver(s, p + Size(DescriptionBox(h)) + Size(TimeBox(h)), RunBox(h), fourth);
    StepOver(s, SizeBoxAt(h, p), SizeBox(h), last);
    StepInto(s, SizeBoxAt(h, p), SizeBox(h));
    StepOver(s, OffsetBoxAt(h, p), OffsetBox(h), NoBox);
    StepInto(s, OffsetBoxAt(h, p), OffsetBox(h));
  }

  lemma OffsetsThere(s: seq<byte>, p: int, offsets: seq<int>)
    requires |offsets| < TWO_31 && AllSigned(offsets) && Has(s, p, StcoBytes(offsets))
    ensures 0 <= p && p + 8 + 4 * |offsets| <= |s| && Words(s, p + 8, 4, |offsets|) == offsets
  {
    hide StcoBytes, Words;
    StcoWords(offsets);
    WordsWithin(s, p, StcoBytes(offsets), 8, |offsets|);
  }

  lemma SizesThere(s: seq<byte>, p: int, common: int, count: nat, sizes: seq<int>)
    requires Signed32(common) && count < TWO_31 && AllSigned(sizes) && Has(s, p, StszBytes(common, count, sizes))
    ensures 0 <= p && p + 12 + 4 * |sizes| <= |s| && Words(s, p + 12, 4, |sizes|) == sizes
  {
    hide StszBytes, Words;
    StszWords(common, count, sizes);
    WordsWithin(s, p, StszBytes(common, count, sizes), 12, |sizes|);
  }

  lemma FlatFrom(s: seq<byte>, v: TrackView, t: Tables)
    requires v.firstChunk == t.firstChunk && v.perChunk == t.perChunk
    requires v.sampleSize == t.sampleSize && v.sampleCount == t.sampleCount >= 0 && v.chunkCount == |t.chunkOffset|
    requires 0 <= v.offsetsAt && v.offsetsAt + 4 * v.chunkCount <= |s| && 0 <= v.sizesAt
    requires Words(s, v.offsetsAt, 4, v.chunkCount) == t.chunkOffset
    requires if t.sampleSize == 0
             then v.sizesAt + 4 * v.sampleCount <= |s| && Words(s, v.sizesAt, 4, v.sampleCount) == t.sizes
             else t.sizes == []
    ensures TablesInStream(s, v) && FlatTables(s, v) == t
  {
    hide Words;
  }

  lemma OffsetsBack(s: seq<byte>, h: Parts, p: int)
    requires Fitting(h) && Has(s, OffsetBoxAt(h, p) + 8, OffsetBox(h).payload)
    ensures var offsets, at := OffsetsOf(h.chunks), OffsetBoxAt(h, p) + 16;
      0 <= at && at + 4 * |offsets| <= |s| && Words(s, at, 4, |offsets|) == offsets
  {
    hide Has, Words, StcoBytes, AllSizes, RunStarts, RunCounts, StsdBytes, AudioAccepted, OffsetBoxAt;
    RunsFitFields(h.chunks);
    OffsetsThere(s, OffsetBoxAt(h, p) + 8, OffsetsOf(h.chunks));
  }

  lemma SizesBack(s: seq<byte>, h: Parts, p: int)
    requires Fitting(h) && Has(s, SizeBoxAt(h, p) + 8, SizeBox(h).payload)
    ensures var sizes, at := ListedSizes(h), SizeBoxAt(h, p) + 20;
      0 <= at && at + 4 * |sizes| <= |s| && Words(s, at, 4, |sizes|) == sizes
  {
    hide Has, Words, StszBytes, AllSizes, RunStarts, RunCounts, StsdBytes, AudioAccepted, SizeBoxAt;
    SizesThere(s, SizeBoxAt(h, p) + 8, h.common, |AllSizes(h.chunks)|, ListedSizes(h));
  }

  /** Reading all tables of the track off the stream gives those that were made
      of the chunks. */
  lemma TablesReadBack(s: seq<byte>, h: Parts, p: int)
    requires Fitting(h) && StandAll(s, p, SampleTables(h))
    ensures TablesInStream(s, View(h, p)) && FlatTables(s, View(h, p)) == TablesOf(h.chunks, h.common)
  {
    hide Has, Words, AllSizes, RunStarts, RunCounts, StandAll, SizeBoxAt, OffsetBoxAt, SizeBox, OffsetBox, Fitting;
    hide TablesInStream, FlatTables;
    LongTablesStand(s, h, p);
    OffsetsBack(s, h, p);
    SizesBack(s, h, p);
    FlatFrom(s, View(h, p), TablesOf(h.chunks, h.common));
  }

  lemma HeaderStands(h: Parts, s: seq<byte>)
    requires Fitting(h) && WellFormedAll(Header(h)) && s == EncodeAll(Header(h))
    ensures StandAll(s, 0, Header(h))
  {
    hide EncodeAll, WellFormedAll, Header;
    WholeHas(s);
  }

  /** The header that was written can be played, by the tables of the chunks. */
  lemma HeaderPlayable(h: Parts, s: seq<byte>)
    requires Fitting(h) && HeaderLength(h) < TWO_31 && WellFormedAll(Header(h)) && s == EncodeAll(Header(h))
    ensures Playable(s, View(h, TablesAt(h))) && LaysOut(FlatTables(s, View(h, TablesAt(h))), LayoutOf(h.chunks))
  {
    hide FlatTables, TablesInStream, LaysOut, Consistent, TablesOf, StandAll, EncodeAll, WellFormedAll, Header, Listed;
    hide AudioAccepted, StsdBytes, Writable, AllSizes;
    HeaderStands(h, s);
    TablesStand(s, h);
    TablesReadBack(s, h, TablesAt(h));
    ChunksLaidOut(h.chunks, h.common);
    OffsetsNotNegative(h);
    hide HeaderLength;
  }

  lemma OffsetsNotNegative(h: Parts)
    requires Fitting(h)
    ensures var t := TablesOf(h.chunks, h.common);
      && (forall i :: 0 <= i < |t.chunkOffset| ==> 0 <= t.chunkOffset[i]) && 0 < t.sampleCount == Total(h.counts)
  {
    hide RunStarts, RunCounts, AllSizes;
    CountsBounded(h.chunks, 0);
  }

  /** What the player asks of a header holds of every one that is written so: it
      describes the samples where the chunks have them. */
  lemma HeaderDescribes(h: Parts, fileSize: nat)
    requires Fitting(h) && HeaderLength(h) < TWO_31 && LayoutOf(h.chunks).Ascending(fileSize)
    requires forall i :: 0 <= i < |AllStarts(h.chunks)| ==> HeaderLength(h) <= AllStarts(h.chunks)[i]
    ensures var bs := Header(h);
      && WellFormedAll(bs) && HasTrack(bs) && SizeAll(bs) == HeaderLength(h)
      && Describes(EncodeAll(bs), bs, [], LayoutOf(h.chunks), fileSize)
  {
    hide RootTracks, Opens, RootPlaced, WellFormedAll, EncodeAll, HasTrack, Playable, LaysOut, FlatTables, AllStarts;
    hide Remaining, IsHeader, Layout.Ascending, Header, Loaded, SizeAll, TrackOf, Fitting, HeaderLength;
    var bs := Header(h);
    HeaderRead(h);
    var stored := EncodeAll(bs);
    HeaderTrack(bs, View(h, TablesAt(h)));
    HeaderPlayable(h, stored);
    HeaderRemains(bs, stored);
  }
}
