// A concrete M4A file and what playing it shows: what the theorems about the
// player ask of a file can be met; one run plays it, and three more show the
// player not doing what a caller would expect.

module M4aExample {
  import opened Bytes
  import opened M4aTables
  import opened M4aDescriptors
  import opened M4aUnpacker
  import opened M4aBoxes
  import opened M4aBoxParser
  import opened M4aOpen
  import opened M4aSeek
  import opened M4aStream
  import opened M4aLayout
  import opened M4aWriter
  import opened M4aHeader
  import opened M4aPlayer

  // The header.

  function Audio(): Entry {
    AudioEntry(Zeros(28), EsdsBytes(Zeros(4), Zeros(3), Zeros(13), [0x12, 0x10], 22, 0, 17, 0, 2, 0))
  }

  /** Three samples of ten bytes, each in a chunk of its own. */
  function ThreeChunks(at: nat): seq<Chunk> {
    [Chunk(at, [10]), Chunk(at + 100, [10]), Chunk(at + 200, [10])]
  }

  function ThreeSamples(at: nat): Layout {
    Layout([at, at + 100, at + 200], [10, 10, 10])
  }

  /** A header of 292 + free bytes. */
  function Example(free: nat, at: nat): Parts {
    Parts(Zeros(16), Zeros(24), [Audio()], [3], [1024], [1], ThreeChunks(at), 10, Zeros(free))
  }

  lemma EsdsLength()
    ensures |EsdsBytes(Zeros(4), Zeros(3), Zeros(13), [0x12, 0x10], 22, 0, 17, 0, 2, 0)| == 28
  {
  }

  lemma AudioLength()
    ensures |Audio().body| == 64 && EntryFits(Audio()) && IsMp4a(Audio()) && |EntryBytes(Audio())| == 72
  {
    EsdsLength();
    hide EsdsBytes, Word;
  }

  lemma OneEntry(e: Entry)
    requires EntryFits(e)
    ensures EntriesFit([e]) && StsdBytes([e]) == FULL + Word(1) + EntryBytes(e)
    ensures IsMp4a(e) && Mp4aVerdict(StsdBytes([e]), 16).Accepted? ==> AudioAccepted(StsdBytes([e]), 8, [e])
  {
    hide EntryBytes, Word, Mp4aVerdict;
    var none: seq<Entry> := [];
    assert [e][1..] == none;
    assert Entries([e]) == EntryBytes(e) + Entries(none) && Entries(none) == [];
    assert AudioAccepted(StsdBytes([e]), 16 + |e.body|, none);
  }

  lemma EntryBehind(s: seq<byte>, e: Entry)
    requires EntryFits(e) && s == FULL + Word(1) + EntryBytes(e)
    ensures |s| == 16 + |e.body| && s[16..] == e.body + []
  {
    hide Word;
  }

  lemma AudioFits()
    ensures EntriesFit([Audio()]) && IsMp4a(Audio()) && |StsdBytes([Audio()])| == 80
    ensures AudioAccepted(StsdBytes([Audio()]), 8, [Audio()])
  {
    hide EsdsBytes, Mp4aVerdict, AudioAccepted, StsdBytes, EntryBytes, EntriesFit, IsMp4a, Word;
    EsdsLength();
    AudioLength();
    OneEntry(Audio());
    EntryBehind(StsdBytes([Audio()]), Audio());
    AudioEntryAccepted(StsdBytes([Audio()]), 16, Zeros(28), [], Zeros(4), Zeros(3), Zeros(13), [0x12, 0x10],
                       22, 0, 17, 0, 2, 0);
  }

  // The tables of the three chunks.

  lemma ChunksAre(at: nat)
    ensures AllSizes(ThreeChunks(at)) == [10, 10, 10] && LayoutOf(ThreeChunks(at)) == ThreeSamples(at)
    ensures Counts(ThreeChunks(at)) == [1, 1, 1]
  {
    var c := ThreeChunks(at);
    assert c[..2] == [Chunk(at, [10]), Chunk(at + 100, [10])] && c[..2][..1] == [Chunk(at, [10])];
    assert forall i :: 0 <= i < 3 ==> ChunkStarts(c[i].offset, [10]) == [c[i].offset] by {
      assert [10][..0] == [];
    }
    assert AllSizes(c[..2][..1]) == [10] && AllStarts(c[..2][..1]) == [at];
    assert AllSizes(c[..2]) == [10, 10] && AllStarts(c[..2]) == [at, at + 100];
  }

  lemma OneRun()
    ensures RunStarts([1, 1, 1]) == [1] && RunCounts([1, 1, 1]) == [1] && Total([3]) == 3
  {
    assert [1, 1, 1][..2] == [1, 1] && [1, 1][..1] == [1] && [1][..0] == [];
    assert Total([3][..0]) == 0 by { assert [3][..0] == []; }
  }

  lemma ExampleFits(free: nat, at: nat)
    requires at + 200 < TWO_31
    ensures Fitting(Example(free, at))
  {
    AudioFits();
    ChunksAre(at);
    OneRun();
    hide AudioAccepted, StsdBytes, EntriesFit, IsMp4a, AllSizes, RunStarts, RunCounts, Total, Audio, Zeros;
  }

  lemma ExampleLength(free: nat, at: nat)
    requires at + 200 < TWO_31
    ensures Fitting(Example(free, at)) && HeaderLength(Example(free, at)) == 292 + free
  {
    ExampleFits(free, at);
    AudioFits();
    ChunksAre(at);
    OneRun();
    hide AudioAccepted, StsdBytes, EntriesFit, IsMp4a, AllSizes, RunStarts, RunCounts, Total, Audio, SizeAll, Size;
    var h := Example(free, at);
    SizesAdd(h);
    BoxLengths(h);
  }

  /** The boxes of one table each, by the lengths of what they hold. */
  lemma BoxLengths(h: Parts)
    requires Fitting(h)
    ensures Size(DescriptionBox(h)) == 8 + |StsdBytes(h.entries)| && Size(TimeBox(h)) == 16 + 8 * |h.counts|
    ensures Size(RunBox(h)) == 16 + 12 * |RunStarts(Counts(h.chunks))| && Size(OffsetBox(h)) == 16 + 4 * |h.chunks|
    ensures Size(SizeBox(h)) == 20 + 4 * |ListedSizes(h)|
  {
    hide StsdBytes, SttsBytes, StscBytes, StszBytes, StcoBytes, AudioAccepted, EntriesFit, AllSizes, RunStarts;
    hide RunCounts, Words, LeafOk, Table, Total, Count, IsMp4a;
    RunsFitFields(h.chunks);
    SttsRead(h.counts, h.deltas, 0, EMPTY_TRACK);
    StscWords(RunStarts(Counts(h.chunks)), RunCounts(Counts(h.chunks)), h.descriptions);
    StszWords(h.common, |AllSizes(h.chunks)|, ListedSizes(h));
    StcoWords(OffsetsOf(h.chunks));
  }

  // Files with such a header.

  function ExampleHeader(free: nat, at: nat): Boxes
    requires at + 200 < TWO_31
  {
    ExampleFits(free, at);
    Header(Example(free, at))
  }

  lemma ExampleDescribes(free: nat, at: nat, fileSize: nat)
    requires at + 200 < TWO_31 && 292 + free <= at && at + 210 <= fileSize
    ensures var bs := ExampleHeader(free, at);
      && SizeAll(bs) == 292 + free && WellFormedAll(bs) && HasTrack(bs)
      && Describes(EncodeAll(bs), bs, [], ThreeSamples(at), fileSize)
  {
    hide Fitting, Header, HeaderLength, AllSizes, AllStarts, WellFormedAll, HasTrack, Describes, EncodeAll, SizeAll;
    ExampleLength(free, at);
    ChunksAre(at);
    assert AllStarts(ThreeChunks(at)) == LayoutOf(ThreeChunks(at)).start;
    HeaderDescribes(Example(free, at), fileSize);
  }

  /** A file of the given size that begins with the header. */
  function ExampleFile(free: nat, at: nat, fileSize: nat): (file: seq<byte>)
    requires at + 200 < TWO_31 && 292 + free <= at && at + 210 <= fileSize
    ensures |file| == fileSize
  {
    ExampleDescribes(free, at, fileSize);
    EncodeAll(ExampleHeader(free, at)) + Zeros(fileSize - (292 + free))
  }

  lemma HeaderShown(h: Parts)
    requires Fitting(h) && HeaderLength(h) < TWO_31 && |h.brand| == 16
    ensures var bs := Header(h);
      && WellFormedAll(bs) && |EncodeAll(bs)| == SizeAll(bs) == HeaderLength(h)
      && Be32(EncodeAll(bs), 0) == 24 && EncodeAll(bs)[4..8] == FTYP && EncodeAll(bs)[28..32] == MOOV
  {
    hide WellFormed, WellFormedAll, EncodeAll, Encode, Be32, RootBoxPlaced, RootBoxAccepted, RootTracksOf, Placed;
    hide BoxAccepted, Size, View, Fitting, HeaderLength, TrackBox;
    var first, movie := Leaf(FTYP, h.brand), Movie(h);
    NodeSize(first);
    FillerRead(first);
    MovieRead(h, 24);
    BoxSizes(h);
    TwoEncoded(first, movie);
    EncodedHeader(first);
    TwoBoxes(Encode(first) + Encode(movie), first, movie);
    assert (Encode(first) + Encode(movie))[4..8] == Encode(first)[4..8];
  }

  lemma ShownInFile(header: seq<byte>, file: seq<byte>, n: nat)
    requires 32 <= |header| <= |file| && file[..|header|] == header && MIN_START_SIZE <= n <= |file|
    requires Be32(header, 0) == 24 && header[4..8] == FTYP && header[28..32] == MOOV
    ensures MediaPlayM4A.StartsHeader(file[..n]) && Be32(file[..n], 0) == 24
  {
    OtherNames();
    NodeNames();
    SamePrefix(header, file, 32, 0);
    SamePrefix(file[..n], file, 32, 0);
    SamePrefix(header, file, 32, 24);
    SamePrefix(file[..n], file, 32, 24);
    hide Be32, FromBytes;
  }

  lemma FileBegins(free: nat, at: nat, fileSize: nat, n: nat)
    requires at + 200 < TWO_31 && 292 + free <= at && at + 210 <= fileSize && MIN_START_SIZE <= n <= fileSize
    ensures var file, bs := ExampleFile(free, at, fileSize), ExampleHeader(free, at);
      && SizeAll(bs) == 292 + free && HasTrack(bs)
      && Describes(file[..SizeAll(bs)], bs, [], ThreeSamples(at), fileSize)
      && MediaPlayM4A.StartsHeader(file[..n]) && Be32(file[..n], 0) == 24
  {
    hide Describes, HasTrack, MediaPlayM4A.StartsHeader, Be32, Header, EncodeAll, SizeAll, WellFormedAll, Fitting;
    hide HeaderLength;
    ExampleDescribes(free, at, fileSize);
    ExampleLength(free, at);
    HeaderShown(Example(free, at));
    var file, header := ExampleFile(free, at, fileSize), EncodeAll(ExampleHeader(free, at));
    assert file[..292 + free] == header;
    ShownInFile(header, file, n);
  }

  // Runs.

  /** A player about to play the given file. */
  method NewPlayer(asc: AudioConfig, ghost file: seq<byte>, ghost l: Layout) returns (p: MediaPlayM4A)
    ensures fresh(p) && fresh(p.unpacker) && fresh(p.track)
    ensures fresh(p.track.stszTable) && fresh(p.track.stcoChunkOffset)
    ensures p.Idle() && p.codec == [] && p.asc == asc && p.configOk && p.file == file && p.l == l
  {
    p := new MediaPlayM4A(asc, true, 0, 0);
    p.file, p.l := file, l;
  }

  /** A run as it should be: a file of 3000 bytes in three pieces, of which the
      first brings the header along. */
  method WholeFilePlays(asc: AudioConfig) returns (p: MediaPlayM4A)
    ensures p.file == ExampleFile(708, 2500, 3000) && p.l == ThreeSamples(2500) && p.l.Ascending(3000)
    ensures p.codec == Frames(p.l, p.file, asc, 0, 3)
  {
    hide Describes, HasTrack, MediaPlayM4A.StartsHeader, ExampleHeader, ExampleFile, Frames, Be32, SizeAll;
    hide Layout.Ascending;
    var file := ExampleFile(708, 2500, 3000);
    ghost var bs := ExampleHeader(708, 2500);
    FileBegins(708, 2500, 3000, 1024);
    p := NewPlayer(asc, file, ThreeSamples(2500));
    ghost var pieces := [file[..1024]] + [file[1024..2048]] + [file[2048..]];
    MediaPlayM4A.StorableBehind(pieces[1..], 1024, 1000);
    p.PlayFile(file[..1024], [file[1024..2048]], file[2048..], 2048, bs);
  }

  /** The last of two pieces completes a header of 2000 bytes: none of the three
      samples is sent, though the header can be played. */
  method HeaderInLastPiece(asc: AudioConfig) returns (p: MediaPlayM4A)
    ensures p.file == ExampleFile(1708, 2500, 3000) && p.l == ThreeSamples(2500)
    ensures p.Usable(ExampleHeader(1708, 2500)) && p.codec == []
  {
    hide Describes, HasTrack, MediaPlayM4A.StartsHeader, ExampleHeader, ExampleFile, Frames, Be32, SizeAll;
    hide Layout.Ascending;
    var file := ExampleFile(1708, 2500, 3000);
    ghost var bs := ExampleHeader(1708, 2500);
    FileBegins(1708, 2500, 3000, 1500);
    p := NewPlayer(asc, file, ThreeSamples(2500));
    ghost var pieces: seq<seq<byte>> := [file[..1500]] + [] + [file[1500..]];
    assert pieces[1..] == [file[1500..]];
    assert MediaPlayM4A.Storable(pieces[1..][1..], 3000, 2000);
    p.PlayFile(file[..1500], [], file[1500..], 1500, bs);
  }

  /** A file whose ftyp box has 24 bytes and whose moov box 524280. */
  function LargeFile(): (file: seq<byte>)
    ensures |file| == 525000
  {
    ExampleFile(524012, 524400, 525000)
  }

  /** It passes the size check of the caller, but its header does not fit the
      buffer: however it is cut into pieces, none of its samples is sent. */
  method HeaderTooLarge(asc: AudioConfig, first: seq<byte>, middle: seq<seq<byte>>, last: seq<byte>, ghost to: int)
    returns (p: MediaPlayM4A)
    requires MIN_START_SIZE <= |first| <= 525000 && first == LargeFile()[..|first|]
    requires CutsUp(middle, LargeFile(), |first|, to) && last == LargeFile()[to..]
    ensures p.file == LargeFile() && p.l == ThreeSamples(524400)
    ensures p.Usable(ExampleHeader(524012, 524400)) && p.codec == []
  {
    hide Describes, HasTrack, MediaPlayM4A.StartsHeader, ExampleHeader, ExampleFile, Frames, Be32, SizeAll;
    hide Layout.Ascending;
    hide CutsUp, MediaPlayM4A.Stores, MediaPlayM4A.SomeBehind;
    ghost var bs := ExampleHeader(524012, 524400);
    FileBegins(524012, 524400, 525000, |first|);
    p := NewPlayer(asc, LargeFile(), ThreeSamples(524400));
    MediaPlayM4A.NoRoomNoStore([first] + middle, 0, 524304);
    p.PlayFile(first, middle, last, to, bs);
  }

  /** A first piece of 1320 bytes brings the header and all three samples along,
      none of them sent yet. A seek back to 1250 stays at sample 0, though sample
      1 starts at 1200. */
  method SeekMisses(asc: AudioConfig) returns (p: MediaPlayM4A, ret: int)
    ensures p.file == ExampleFile(0, 1100, 2000) && p.l == ThreeSamples(1100)
    ensures ret == p.filePos == 1100 && p.sampleId == 0
    ensures !GreatestBefore(p.l, 1250, p.sampleId) && GreatestBefore(p.l, 1250, 1)
  {
    hide Describes, HasTrack, MediaPlayM4A.StartsHeader, ExampleHeader, ExampleFile, Be32, SizeAll, Layout.Ascending;
    hide MediaPlayM4A.Started, MediaPlayM4A.Streaming, MediaPlayM4A.MayWalk;
    var file := ExampleFile(0, 1100, 2000);
    ghost var bs := ExampleHeader(0, 1100);
    FileBegins(0, 1100, 2000, 1320);
    p := NewPlayer(asc, file, ThreeSamples(1100));
    var started := p.FileStart(file[..1320], bs);
    p.ShowWalk();
    ret := p.FileSeek(1250);
    SampleOneMissed();
  }
}
