// Messages from the download handler to the player: a stream without its ID3v2
// tag, framed and read.

module MediaFraming {
  import opened Bytes
  import opened MediaBuffer

  const FRAME_SIZE: nat := 1024
  const MESSAGE_SIZE: nat := 16
  const ID3V2_HEADER_SIZE: nat := 10

  datatype MediaType = MP3 | AAC | M4A | WAV | SPEECH | TS | HLS | AMR | NoType

  /** The enumeration's values. */
  function TypeCode(t: MediaType): nat {
    match t
    case MP3 => 0
    case AAC => 1
    case M4A => 2
    case WAV => 3
    case SPEECH => 4
    case TS => 5
    case HLS => 6
    case AMR => 7
    case NoType => 8
  }

  datatype Command = PlayerStart | PlayerContinue | PlayerStop

  function CommandCode(c: Command): nat {
    match c
    case PlayerStart => 0
    case PlayerContinue => 1
    case PlayerStop => 2
  }

  // The ID3v2 tag; characters are unsigned.

  predicate Id3v2Match(buf: seq<byte>)
    requires |buf| >= ID3V2_HEADER_SIZE
  {
    && buf[0] == 'I' as int && buf[1] == 'D' as int && buf[2] == '3' as int
    && buf[3] != 0xff && buf[4] != 0xff
    && buf[6] < 0x80 && buf[7] < 0x80 && buf[8] < 0x80 && buf[9] < 0x80
  }

  function Id3v2HeaderLen(buf: seq<byte>): (len: nat)
    requires |buf| >= ID3V2_HEADER_SIZE
    ensures len >= ID3V2_HEADER_SIZE
  {
    (buf[6] as int) % 0x80 * 0x20_0000 + (buf[7] as int) % 0x80 * 0x4000 + (buf[8] as int) % 0x80 * 0x80
      + (buf[9] as int) % 0x80
      + ID3V2_HEADER_SIZE
      + (if (buf[3] == 3 || buf[3] == 4) && (buf[5] as int) / 0x40 % 2 == 1 then ID3V2_HEADER_SIZE else 0)
  }

  /** A size as an ID3v2 header writes it: seven bits a byte. */
  function SyncSafe(n: nat): (b: seq<byte>)
    requires n < 0x1000_0000
    ensures |b| == 4
  {
    var a := n / 0x80;
    var b := a / 0x80;
    [b / 0x80, b % 0x80, a % 0x80, n % 0x80]
  }

  lemma SyncSafeValue(n: nat)
    requires n < 0x1000_0000
    ensures var b := SyncSafe(n);
      && b[0] < 0x80 && b[1] < 0x80 && b[2] < 0x80 && b[3] < 0x80
      && (b[0] as int) * 0x20_0000 + (b[1] as int) * 0x4000 + (b[2] as int) * 0x80 + (b[3] as int) == n
  {
    var a := n / 0x80;
    var b := a / 0x80;
    assert n == a * 0x80 + n % 0x80 && a == b * 0x80 + a % 0x80 && b == b / 0x80 * 0x80 + b % 0x80;
  }

  /** The header of a tag of n bytes is recognised and its length is that of
      header and tag, with ten more for the flag of an extended header. */
  lemma TagLengthOfSize(n: nat, version: byte, revision: byte, tagFlags: byte, more: seq<byte>)
    requires n < 0x1000_0000 && version != 0xff && revision != 0xff && more != []
    ensures var buf := ['I' as int, 'D' as int, '3' as int, version, revision, tagFlags] + SyncSafe(n) + more;
            TagLength(MP3, buf)
              == 10 + n + if (version == 3 || version == 4) && (tagFlags as int) / 0x40 % 2 == 1 then 10 else 0
  {
    SyncSafeValue(n);
    hide SyncSafe;
    var head: seq<byte> := ['I' as int, 'D' as int, '3' as int, version, revision, tagFlags];
    var buf := head + SyncSafe(n) + more;
    assert forall k :: 0 <= k < 6 ==> buf[k] == head[k];
    assert forall k :: 0 <= k < 4 ==> buf[6 + k] == SyncSafe(n)[k];
    TagLengthRead(n, buf);
  }

  lemma TagLengthRead(n: nat, buf: seq<byte>)
    requires |buf| > ID3V2_HEADER_SIZE && buf[3] != 0xff && buf[4] != 0xff
    requires buf[0] == 'I' as int && buf[1] == 'D' as int && buf[2] == '3' as int
    requires buf[6] < 0x80 && buf[7] < 0x80 && buf[8] < 0x80 && buf[9] < 0x80
    requires (buf[6] as int) * 0x20_0000 + (buf[7] as int) * 0x4000 + (buf[8] as int) * 0x80 + (buf[9] as int) == n
    ensures TagLength(MP3, buf)
         == 10 + n + if (buf[3] == 3 || buf[3] == 4) && (buf[5] as int) / 0x40 % 2 == 1 then 10 else 0
  {
  }

  /** Length of the tag a stream's first piece announces; -1 if none. */
  function TagLength(media: MediaType, first: seq<byte>): (skip: int)
    ensures skip == -1 || skip >= ID3V2_HEADER_SIZE
  {
    if media == MP3 && |first| > ID3V2_HEADER_SIZE && Id3v2Match(first) then Id3v2HeaderLen(first) else -1
  }

  /** A whole ID3v2 header: the letters, a version, flags and a size of n. */
  function TagHeader(version: byte, revision: byte, tagFlags: byte, n: nat): (h: seq<byte>)
    requires n < 0x1000_0000
    ensures |h| == ID3V2_HEADER_SIZE
  {
    [0x49, 0x44, 0x33, version, revision, tagFlags] + SyncSafe(n)
  }

  /** The first piece starts with such a header, and goes on behind it. */
  ghost predicate StartsTag(first: seq<byte>) {
    |first| > ID3V2_HEADER_SIZE
    && exists version: byte, revision: byte, tagFlags: byte, n: nat ::
         version != 0xff && revision != 0xff && n < 0x1000_0000
         && first[..ID3V2_HEADER_SIZE] == TagHeader(version, revision, tagFlags, n)
  }

  /** A tag is skipped exactly from an mp3 stream that starts with one. */
  lemma TagExactly(media: MediaType, first: seq<byte>)
    ensures TagLength(media, first) >= 0 <==> media == MP3 && StartsTag(first)
    ensures TagLength(media, first) < 0 ==> TagLength(media, first) == -1
  {
    if media == MP3 && |first| > ID3V2_HEADER_SIZE {
      if Id3v2Match(first) { MatchStartsTag(first); }
      if StartsTag(first) { StartsTagMatch(first); }
    }
  }

  lemma StartsTagMatch(first: seq<byte>)
    requires StartsTag(first)
    ensures Id3v2Match(first)
  {
    var version: byte, revision: byte, tagFlags: byte, n: nat :|
      version != 0xff && revision != 0xff && n < 0x1000_0000
      && first[..ID3V2_HEADER_SIZE] == TagHeader(version, revision, tagFlags, n);
    var h := TagHeader(version, revision, tagFlags, n);
    SyncSafeValue(n);
    hide SyncSafe;
    assert forall k :: 0 <= k < ID3V2_HEADER_SIZE ==> first[k] == first[..ID3V2_HEADER_SIZE][k] == h[k];
    assert forall k :: 0 <= k < 4 ==> h[6 + k] == SyncSafe(n)[k];
  }

  lemma MatchStartsTag(first: seq<byte>)
    requires |first| > ID3V2_HEADER_SIZE && Id3v2Match(first)
    ensures StartsTag(first)
  {
    var n := (first[6] as int) * 0x20_0000 + (first[7] as int) * 0x4000 + (first[8] as int) * 0x80 + (first[9] as int);
    SizeWritten(first[6], first[7], first[8], first[9]);
    hide SyncSafe;
    var h := TagHeader(first[3], first[4], first[5], n);
    assert forall k :: 0 <= k < 4 ==> h[6 + k] == SyncSafe(n)[k];
    assert first[..ID3V2_HEADER_SIZE] == h;
  }

  lemma SizeWritten(a: byte, b: byte, c: byte, d: byte)
    requires a < 0x80 && b < 0x80 && c < 0x80 && d < 0x80
    ensures var n := (a as int) * 0x20_0000 + (b as int) * 0x4000 + (c as int) * 0x80 + (d as int);
      n < 0x1000_0000 && SyncSafe(n) == [a, b, c, d]
  {
    var n := (a as int) * 0x20_0000 + (b as int) * 0x4000 + (c as int) * 0x80 + (d as int);
    var m := (a as int) * 0x4000 + (b as int) * 0x80 + (c as int);
    assert n == m * 0x80 + (d as int) && n / 0x80 == m && n % 0x80 == d;
    var k := (a as int) * 0x80 + (b as int);
    assert m == k * 0x80 + (c as int) && m / 0x80 == k && m % 0x80 == c;
  }

  // The handler.

  datatype Piece = First(buf: seq<byte>) | Mid(buf: seq<byte>) | Last(buf: seq<byte>)

  datatype Frame = Frame(cmd: Command, media: MediaType, flags: nat, payload: seq<byte>)

  /** What the handler keeps between calls. */
  datatype Handler = Handler(skipLen: int, media: MediaType)

  /** What surrounds a download; supported is false only where the format
      check of the first piece refuses it. */
  datatype Context = Context(source: MediaType, isLocal: bool, supported: bool, flags: nat)

  /** A piece the handler takes. */
  predicate Accepted(c: Context, p: Piece) {
    && |p.buf| <= FRAME_SIZE
    && (p.First? ==> (c.isLocal || p.buf != []) && c.supported)
    && (p.Mid? ==> p.buf != [])
  }

  function CommandOf(p: Piece): Command {
    match p
    case First(_) => PlayerStart
    case Mid(_) => PlayerContinue
    case Last(_) => PlayerStop
  }

  /** The handler's state while a piece is dealt with. */
  function Entered(h: Handler, c: Context, p: Piece): Handler {
    if p.First? then
      var media := if c.source == SPEECH then MP3 else c.source;
      Handler(TagLength(media, p.buf), media)
    else h
  }

  /** One call: the new state and the frame sent, if any. */
  function Handle(h: Handler, c: Context, p: Piece): (Handler, seq<Frame>) {
    if !Accepted(c, p) then (h, [])
    else
      var e := Entered(h, c, p);
      if e.skipLen >= |p.buf| then (e.(skipLen := e.skipLen - |p.buf|), [])
      else if e.skipLen > -1 then (e.(skipLen := -1), [Frame(PlayerStart, e.media, c.flags, p.buf[e.skipLen..])])
      else (e, [Frame(CommandOf(p), e.media, c.flags, p.buf)])
  }

  function HandleAll(h: Handler, c: Context, pieces: seq<Piece>): seq<Frame>
    decreases |pieces|
  {
    if pieces == [] then []
    else
      var (next, frames) := Handle(h, c, pieces[0]);
      frames + HandleAll(next, c, pieces[1..])
  }

  function Mids(bufs: seq<seq<byte>>): seq<Piece> {
    seq(|bufs|, i requires 0 <= i < |bufs| => Mid(bufs[i]))
  }

  /** A download in pieces. */
  function Pieces(first: seq<byte>, mids: seq<seq<byte>>, last: seq<byte>): seq<Piece> {
    [First(first)] + Mids(mids) + [Last(last)]
  }

  predicate PieceSizes(first: seq<byte>, mids: seq<seq<byte>>, last: seq<byte>) {
    1 <= |first| <= FRAME_SIZE && |last| <= FRAME_SIZE && MidSizes(mids)
  }

  predicate MidSizes(mids: seq<seq<byte>>) {
    forall i :: 0 <= i < |mids| ==> 1 <= |mids[i]| <= FRAME_SIZE
  }

  function Payloads(frames: seq<Frame>): seq<byte> {
    if frames == [] then [] else frames[0].payload + Payloads(frames[1..])
  }

  /** The player's protocol: a start, continues, one stop. */
  predicate WellFramed(frames: seq<Frame>) {
    |frames| >= 2 && frames[0].cmd == PlayerStart && Continued(frames[1..])
  }

  predicate Continued(frames: seq<Frame>) {
    && frames != [] && frames[|frames| - 1].cmd == PlayerStop
    && forall i :: 0 <= i < |frames| - 1 ==> frames[i].cmd == PlayerContinue
  }

  // Behind the tag every piece is sent whole.

  lemma MidsTail(mids: seq<seq<byte>>, last: seq<byte>)
    requires mids != []
    ensures MidSizes(mids) ==> 1 <= |mids[0]| <= FRAME_SIZE && MidSizes(mids[1..])
    ensures Flat(mids) == mids[0] + Flat(mids[1..])
    ensures (Mids(mids) + [Last(last)])[0] == Mid(mids[0])
    ensures (Mids(mids) + [Last(last)])[1..] == Mids(mids[1..]) + [Last(last)]
    ensures Mids(mids) + [Last(last)] == [Mid(mids[0])] + (Mids(mids[1..]) + [Last(last)])
  {
  }

  /** Pieces from somewhere behind the first on, when the tag is done. */
  lemma {:induction false} SentWhole(h: Handler, c: Context, mids: seq<seq<byte>>, last: seq<byte>)
    requires h.skipLen == -1 && |last| <= FRAME_SIZE && MidSizes(mids)
    ensures var f := HandleAll(h, c, Mids(mids) + [Last(last)]);
            Continued(f) && Payloads(f) == Flat(mids) + last
    decreases |mids|
  {
    hide MidSizes;
    if mids == [] {
      LastWhole(h, c, last);
    } else {
      MidsTail(mids, last);
      hide Mids, Flat, HandleAll, Handle, Payloads, Continued;
      SentWhole(h, c, mids[1..], last);
      MidWhole(h, c, mids[0], Mids(mids[1..]) + [Last(last)]);
      Assoc(mids[0], Flat(mids[1..]), last);
    }
  }

  lemma LastWhole(h: Handler, c: Context, last: seq<byte>)
    requires h.skipLen == -1 && |last| <= FRAME_SIZE
    ensures var f := HandleAll(h, c, Mids([]) + [Last(last)]);
            Continued(f) && Payloads(f) == Flat([]) + last
  {
    var ps := Mids([]) + [Last(last)];
    assert ps == [Last(last)] && ps[1..] == [];
    OneFrame(Frame(PlayerStop, h.media, c.flags, last), []);
    assert [] + last == last;
  }

  /** A piece in the middle, behind the tag. */
  lemma MidWhole(h: Handler, c: Context, mid: seq<byte>, rest: seq<Piece>)
    requires h.skipLen == -1 && 1 <= |mid| <= FRAME_SIZE && Continued(HandleAll(h, c, rest))
    ensures var f, r := HandleAll(h, c, [Mid(mid)] + rest), HandleAll(h, c, rest);
            Continued(f) && Payloads(f) == mid + Payloads(r)
  {
    var ps, r := [Mid(mid)] + rest, HandleAll(h, c, rest);
    assert ps[0] == Mid(mid) && ps[1..] == rest;
    var f := Frame(PlayerContinue, h.media, c.flags, mid);
    assert Handle(h, c, ps[0]) == (h, [f]);
    OneFrame(f, r);
    ContinuedMore(f, r);
    hide Continued, Payloads;
  }

  lemma ContinuedMore(f: Frame, rest: seq<Frame>)
    requires f.cmd == PlayerContinue && Continued(rest)
    ensures Continued([f] + rest)
  {
    assert forall i :: 1 <= i < |[f] + rest| ==> ([f] + rest)[i] == rest[i - 1];
  }

  lemma OneFrame(f: Frame, rest: seq<Frame>)
    ensures Payloads([f] + rest) == f.payload + Payloads(rest)
    ensures Payloads([]) == []
    ensures [f] + [] == [f]
  {
    assert ([f] + rest)[1..] == rest;
  }

  function Dropped(s: seq<byte>, n: nat): seq<byte> {
    if n <= |s| then s[n..] else []
  }

  lemma DropFirst(a: seq<byte>, b: seq<byte>, n: nat)
    ensures n <= |a| ==> Dropped(a + b, n) == a[n..] + b
    ensures n >= |a| ==> Dropped(a + b, n) == Dropped(b, n - |a|)
  {
  }

  /** Frames of pieces that come while part of the tag is still to be skipped. */
  lemma {:induction false} SentBehindTag(h: Handler, c: Context, mids: seq<seq<byte>>, last: seq<byte>)
    requires h.skipLen >= 0 && |last| <= FRAME_SIZE && MidSizes(mids)
    ensures var f := HandleAll(h, c, Mids(mids) + [Last(last)]);
            && Payloads(f) == Dropped(Flat(mids) + last, h.skipLen)
            && (WellFramed(f) <==> h.skipLen < |Flat(mids)|)
    decreases |mids|
  {
    assert Flat([]) == [];
    hide MidSizes, Mids, Flat, HandleAll, Handle, Dropped, Payloads, WellFramed, Continued;
    var k := h.skipLen;
    if mids == [] {
      LastBehindTag(h, c, last);
    } else {
      var rest := Mids(mids[1..]) + [Last(last)];
      MidsTail(mids, last);
      Assoc(mids[0], Flat(mids[1..]), last);
      DropFirst(mids[0], Flat(mids[1..]) + last, k);
      FirstMid(h, c, mids[0], rest);
      if k >= |mids[0]| {
        SentBehindTag(h.(skipLen := k - |mids[0]|), c, mids[1..], last);
      } else {
        SentWhole(h.(skipLen := -1), c, mids[1..], last);
      }
    }
  }

  lemma LastBehindTag(h: Handler, c: Context, last: seq<byte>)
    requires h.skipLen >= 0 && |last| <= FRAME_SIZE
    ensures var f := HandleAll(h, c, Mids([]) + [Last(last)]);
            Payloads(f) == Dropped(Flat([]) + last, h.skipLen) && !WellFramed(f)
  {
    var ps := Mids([]) + [Last(last)];
    assert ps == [Last(last)] && ps[1..] == [];
    OneFrame(Frame(PlayerStart, h.media, c.flags, Dropped(last, h.skipLen)), []);
    assert [] + last == last;
  }

  /** A piece while part of the tag is still to be skipped: dropped, or the
      start with what is behind the tag. */
  lemma FirstMid(h: Handler, c: Context, mid: seq<byte>, rest: seq<Piece>)
    requires h.skipLen >= 0 && 1 <= |mid| <= FRAME_SIZE
    ensures var f := HandleAll(h, c, [Mid(mid)] + rest);
      if h.skipLen >= |mid| then f == HandleAll(h.(skipLen := h.skipLen - |mid|), c, rest)
      else var r := HandleAll(h.(skipLen := -1), c, rest);
           Continued(r) ==> WellFramed(f) && Payloads(f) == mid[h.skipLen..] + Payloads(r)
  {
    hide *;
    var k := h.skipLen;
    HandleStep(h, c, Mid(mid), rest);
    if k >= |mid| {
      var r := HandleAll(h.(skipLen := k - |mid|), c, rest);
      MidInTag(h, c, mid);
      assert [] + r == r;
    } else {
      var f, r := Frame(PlayerStart, h.media, c.flags, mid[k..]), HandleAll(h.(skipLen := -1), c, rest);
      MidPastTag(h, c, mid);
      if Continued(r) { StartedFrames(f, r); }
    }
  }

  lemma HandleStep(h: Handler, c: Context, p: Piece, rest: seq<Piece>)
    ensures HandleAll(h, c, [p] + rest) == Handle(h, c, p).1 + HandleAll(Handle(h, c, p).0, c, rest)
  {
    hide Handle;
    var ps := [p] + rest;
    assert ps[0] == p && ps[1..] == rest;
  }

  lemma MidInTag(h: Handler, c: Context, mid: seq<byte>)
    requires h.skipLen >= |mid| && 1 <= |mid| <= FRAME_SIZE
    ensures Handle(h, c, Mid(mid)) == (h.(skipLen := h.skipLen - |mid|), [])
  {
  }

  lemma MidPastTag(h: Handler, c: Context, mid: seq<byte>)
    requires 0 <= h.skipLen < |mid| && 1 <= |mid| <= FRAME_SIZE
    ensures Handle(h, c, Mid(mid))
         == (h.(skipLen := -1), [Frame(PlayerStart, h.media, c.flags, mid[h.skipLen..])])
  {
  }

  lemma StartedFrames(f: Frame, rest: seq<Frame>)
    requires f.cmd == PlayerStart && Continued(rest)
    ensures WellFramed([f] + rest) && Payloads([f] + rest) == f.payload + Payloads(rest)
  {
    assert ([f] + rest)[1..] == rest;
  }

  /** The tag's length as far as it is skipped: none is none. */
  function TagToSkip(c: Context, first: seq<byte>): nat {
    var skip := TagLength(if c.source == SPEECH then MP3 else c.source, first);
    if skip == -1 then 0 else skip
  }

  /** The frames of a download carry the stream without its tag, and keep the
      player's protocol exactly when the tag ends before the last piece. */
  lemma FramedStream(h: Handler, c: Context, first: seq<byte>, mids: seq<seq<byte>>, last: seq<byte>)
    requires c.supported && PieceSizes(first, mids, last)
    ensures var f := HandleAll(h, c, Pieces(first, mids, last));
            && Payloads(f) == Dropped(first + (Flat(mids) + last), TagToSkip(c, first))
            && (WellFramed(f) <==> TagToSkip(c, first) < |first| + |Flat(mids)|)
  {
    PiecesAre(first, mids, last);
    hide TagLength, HandleAll, Handle, Dropped, Payloads, WellFramed, Continued, Flat, Pieces, Mids;
    var rest := Mids(mids) + [Last(last)];
    DropFirst(first, Flat(mids) + last, TagToSkip(c, first));
    FirstPiece(h, c, first, rest);
    var e := Entered(h, c, First(first));
    if e.skipLen >= |first| {
      SentBehindTag(e.(skipLen := e.skipLen - |first|), c, mids, last);
    } else {
      SentWhole(e.(skipLen := -1), c, mids, last);
    }
  }


  lemma {:induction false} LaterAlike(h: Handler, c: Context, pieces: seq<Piece>)
    requires forall p :: p in pieces ==> !p.First?
    ensures forall f :: f in HandleAll(h, c, pieces) ==> f.media == h.media && f.flags == c.flags
    decreases |pieces|
  {
    if pieces != [] {
      assert pieces[0] in pieces;
      LaterAlike(Handle(h, c, pieces[0]).0, c, pieces[1..]);
    }
  }

  /** Every frame has the type of what is downloaded, speech being mp3, and the
      flags of the download. */
  lemma FramesAlike(h: Handler, c: Context, first: seq<byte>, mids: seq<seq<byte>>, last: seq<byte>)
    requires c.supported && PieceSizes(first, mids, last)
    ensures forall f :: f in HandleAll(h, c, Pieces(first, mids, last)) ==>
      f.media == (if c.source == SPEECH then MP3 else c.source) && f.flags == c.flags
  {
    var ps := Pieces(first, mids, last);
    assert ps[0] == First(first) && ps[1..] == Mids(mids) + [Last(last)];
    hide TagLength;
    LaterAlike(Handle(h, c, First(first)).0, c, ps[1..]);
  }

  lemma LettersNeeded(first: seq<byte>)
    requires StartsTag(first)
    ensures [0x49, 0x44, 0x33] <= first
  {
    hide Id3v2HeaderLen, SyncSafe;
    StartsTagMatch(first);
    hide StartsTag;
    assert first[0] == 'I' as int && first[1] == 'D' as int && first[2] == '3' as int;
  }

  lemma NothingToSkip(c: Context, first: seq<byte>)
    requires !([0x49, 0x44, 0x33] <= first) || (c.source != MP3 && c.source != SPEECH)
    ensures TagToSkip(c, first) == 0
  {
    hide TagLength, StartsTag;
    TagExactly(if c.source == SPEECH then MP3 else c.source, first);
    if StartsTag(first) { LettersNeeded(first); }
  }

  /** A stream whose first piece does not start with the letters ID3, or is no
      mp3, is sent whole. */
  lemma UntaggedWhole(h: Handler, c: Context, first: seq<byte>, mids: seq<seq<byte>>, last: seq<byte>)
    requires c.supported && PieceSizes(first, mids, last)
    requires !([0x49, 0x44, 0x33] <= first) || (c.source != MP3 && c.source != SPEECH)
    ensures var f := HandleAll(h, c, Pieces(first, mids, last));
            Payloads(f) == first + (Flat(mids) + last) && WellFramed(f)
  {
    hide TagToSkip, HandleAll, Payloads, WellFramed, Flat, Pieces, PieceSizes;
    assert 1 <= |first| by { NotEmpty(first, mids, last); }
    NothingToSkip(c, first);
    FramedStream(h, c, first, mids, last);
  }

  lemma NotEmpty(first: seq<byte>, mids: seq<seq<byte>>, last: seq<byte>)
    ensures PieceSizes(first, mids, last) ==> 1 <= |first|
  {
  }

  /** A tag of twenty bytes, eleven of them in the first piece and nine in the
      last: the player gets no stop. */
  lemma TagEndsInLast(h: Handler)
    ensures var first := ['I' as int, 'D' as int, '3' as int, 3, 0, 0] + SyncSafe(10) + [0];
            !WellFramed(HandleAll(h, Context(MP3, false, true, 0), Pieces(first, [], seq(12, _ => 7))))
  {
    var first := ['I' as int, 'D' as int, '3' as int, 3, 0, 0] + SyncSafe(10) + [0];
    TagLengthOfSize(10, 3, 0, 0, [0]);
    assert |first| == 11;
    FramedStream(h, Context(MP3, false, true, 0), first, [], seq(12, _ => 7));
  }

  lemma PiecesAre(first: seq<byte>, mids: seq<seq<byte>>, last: seq<byte>)
    ensures Pieces(first, mids, last) == [First(first)] + (Mids(mids) + [Last(last)])
  {
  }

  /** The first piece: all tag, or the start with what is behind the tag. */
  lemma FirstPiece(h: Handler, c: Context, first: seq<byte>, rest: seq<Piece>)
    requires c.supported && 1 <= |first| <= FRAME_SIZE
    ensures var f, e, k := HandleAll(h, c, [First(first)] + rest), Entered(h, c, First(first)), TagToSkip(c, first);
      if e.skipLen >= |first| then f == HandleAll(e.(skipLen := e.skipLen - |first|), c, rest)
      else var r := HandleAll(e.(skipLen := -1), c, rest);
           k < |first| && (Continued(r) ==> WellFramed(f) && Payloads(f) == first[k..] + Payloads(r))
  {
    hide TagLength;
    var ps, e, k := [First(first)] + rest, Entered(h, c, First(first)), TagToSkip(c, first);
    assert ps[0] == First(first) && ps[1..] == rest;
    if e.skipLen >= |first| {
      var r := HandleAll(e.(skipLen := e.skipLen - |first|), c, rest);
      assert [] + r == r;
    } else {
      var f, r := Frame(PlayerStart, e.media, c.flags, first[k..]), HandleAll(e.(skipLen := -1), c, rest);
      assert first[0..] == first;
      if Continued(r) { StartedFrames(f, r); }
      hide Payloads, WellFramed, Continued;
    }
  }

  // Messages as bytes: four little-endian words, then the payload.

  datatype Message = Message(cmd: int, media: int, flags: int, payload: seq<byte>)

  function MessageOf(f: Frame): Message {
    Message(CommandCode(f.cmd), TypeCode(f.media), f.flags, f.payload)
  }

  predicate Sendable(f: Frame) {
    f.flags < TWO_31 && |f.payload| <= FRAME_SIZE
  }

  function Header(f: Frame): (b: seq<byte>)
    requires Sendable(f)
    ensures |b| == MESSAGE_SIZE
  {
    Le32Bytes(CommandCode(f.cmd)) + Le32Bytes(TypeCode(f.media)) + Le32Bytes(|f.payload|) + Le32Bytes(f.flags)
  }

  function Word(s: seq<byte>, k: nat): int
    requires 4 * k + 4 <= |s|
  {
    AsInt32(Le32(s, 4 * k))
  }

  /** What the player makes of the bytes it reads: none when the size is too
      large for its buffer or the bytes do not make a whole message. */
  function DecodedMessages(s: seq<byte>): seq<Message>
    decreases |s|
  {
    if |s| < MESSAGE_SIZE then []
    else
      var size := Word(s, 2);
      if size > FRAME_SIZE || |s| - MESSAGE_SIZE < size then []
      else
        var n := if size > 0 then size else 0;
        [Message(Word(s, 0), Word(s, 1), Word(s, 3), s[MESSAGE_SIZE..MESSAGE_SIZE + n])]
          + DecodedMessages(s[MESSAGE_SIZE + n..])
  }

  /** What the handler hands to the buffer for its frames. */
  function Chunks(frames: seq<Frame>): seq<seq<byte>>
    requires forall i :: 0 <= i < |frames| ==> Sendable(frames[i])
  {
    if frames == [] then [] else [Header(frames[0]), frames[0].payload] + Chunks(frames[1..])
  }

  function Messages(frames: seq<Frame>): seq<Message> {
    if frames == [] then [] else [MessageOf(frames[0])] + Messages(frames[1..])
  }

  /** Commands and media types keep their codes apart. */
  lemma CodesTell(c: Command, c': Command, t: MediaType, t': MediaType)
    ensures CommandCode(c) == CommandCode(c') <==> c == c'
    ensures TypeCode(t) == TypeCode(t') <==> t == t'
    ensures CommandCode(PlayerStart) < CommandCode(PlayerContinue) < CommandCode(PlayerStop) == 2
    ensures TypeCode(t) <= 8 && TypeCode(MP3) == 0 && TypeCode(NoType) == 8
  {
  }

  /** So the player's messages determine the frames. */
  lemma {:induction false} MessagesTell(a: seq<Frame>, b: seq<Frame>)
    requires Messages(a) == Messages(b)
    ensures a == b
    decreases |a|
  {
    if a != [] {
      assert b != [] && Messages(a)[0] == MessageOf(a[0]);
      assert Messages(b)[0] == MessageOf(b[0]);
      CodesTell(a[0].cmd, b[0].cmd, a[0].media, b[0].media);
      assert Messages(a)[1..] == Messages(a[1..]) && Messages(b)[1..] == Messages(b[1..]);
      MessagesTell(a[1..], b[1..]);
      assert a == [a[0]] + a[1..] && b == [b[0]] + b[1..];
    }
  }

  lemma WordIn(a: seq<byte>, u: int, b: seq<byte>, k: nat)
    requires 0 <= u < TWO_31 && |a| == 4 * k
    ensures Word(a + Le32Bytes(u) + b, k) == u
  {
    var s, w := a + Le32Bytes(u) + b, Le32Bytes(u);
    assert s[4 * k] == w[0] && s[4 * k + 1] == w[1] && s[4 * k + 2] == w[2] && s[4 * k + 3] == w[3];
    hide Le32Bytes;
  }

  lemma HeaderWords(f: Frame, rest: seq<byte>)
    requires Sendable(f)
    ensures var s := Header(f) + rest;
            && Word(s, 0) == CommandCode(f.cmd) && Word(s, 1) == TypeCode(f.media)
            && Word(s, 2) == |f.payload| && Word(s, 3) == f.flags
  {
    var c, t, n, g := Le32Bytes(CommandCode(f.cmd)), Le32Bytes(TypeCode(f.media)), Le32Bytes(|f.payload|),
        Le32Bytes(f.flags);
    var s := Header(f) + rest;
    assert s == [] + c + (t + n + g + rest);
    assert s == c + t + (n + g + rest);
    assert s == (c + t) + n + (g + rest);
    assert s == (c + t + n) + g + rest;
    hide Le32Bytes, Word;
    WordIn([], CommandCode(f.cmd), t + n + g + rest, 0);
    WordIn(c, TypeCode(f.media), n + g + rest, 1);
    WordIn(c + t, |f.payload|, g + rest, 2);
    WordIn(c + t + n, f.flags, rest, 3);
  }

  /** Reading the bytes back gives the messages that were sent. */
  lemma {:induction false} DecodeChunks(frames: seq<Frame>)
    requires forall i :: 0 <= i < |frames| ==> Sendable(frames[i])
    ensures DecodedMessages(Flat(Chunks(frames))) == Messages(frames)
    decreases |frames|
  {
    if frames != [] {
      var f, rest := frames[0], Chunks(frames[1..]);
      DecodeChunks(frames[1..]);
      FlatTwo(Header(f), f.payload, rest);
      HeaderWords(f, f.payload + Flat(rest));
      DecodeOne(f, Flat(rest));
      hide Flat, DecodedMessages, Header, Word;
    }
  }

  lemma FlatTwo(a: seq<byte>, b: seq<byte>, rest: seq<seq<byte>>)
    ensures Flat([a, b] + rest) == a + (b + Flat(rest))
  {
    assert ([a, b] + rest)[1..] == [b] + rest;
    assert ([b] + rest)[1..] == rest;
  }

  lemma DecodeOne(f: Frame, rest: seq<byte>)
    requires Sendable(f)
    ensures DecodedMessages(Header(f) + (f.payload + rest)) == [MessageOf(f)] + DecodedMessages(rest)
  {
    HeaderWords(f, f.payload + rest);
    var s := Header(f) + (f.payload + rest);
    assert s[MESSAGE_SIZE..] == f.payload + rest;
    DecodedFirst(s);
    hide Header, Word, DecodedMessages;
    assert (f.payload + rest)[..|f.payload|] == f.payload && (f.payload + rest)[|f.payload|..] == rest;
    var d := DecodedMessages(s);
    assert d == [d[0]] + d[1..];
  }

  /** Data handler: its statics and the chunks it has handed to the buffer. */
  class DataHandler {
    var skipLen: int
    var mediaType: MediaType
    var written: seq<seq<byte>>

    constructor ()
      ensures skipLen == -1 && mediaType == NoType && written == []
    {
      skipLen, mediaType, written := -1, NoType, [];
    }

    ghost function State(): Handler
      reads this
    {
      Handler(skipLen, mediaType)
    }

    method Send(f: Frame)
      requires Sendable(f)
      modifies this`written
      ensures written == old(written) + Chunks([f])
    {
      assert Chunks([f]) == [Header(f), f.payload] by { NoChunks(f); }
      written := written + [Header(f)];
      written := written + [f.payload];
    }

    method MediaDataOut(c: Context, p: Piece) returns (ret: int)
      requires c.flags < TWO_31
      modifies this
      ensures ret == -1 <==> |p.buf| <= FRAME_SIZE && !Accepted(c, p)
      ensures var (next, frames) := Handle(old(State()), c, p);
              State() == next && |frames| <= 1 && (forall i :: 0 <= i < |frames| ==> Sendable(frames[i]))
              && written == old(written) + Chunks(frames)
    {
      hide Chunks, TagLength, Id3v2Match, Id3v2HeaderLen;
      NothingSent();
      ret := 0;
      if |p.buf| > FRAME_SIZE { return; }
      var cmd, buf := PlayerStop, p.buf;
      match p {
        case First(_) =>
          if !c.isLocal && |buf| < 1 { return -1; }
          if !c.supported { return -1; }
          cmd := PlayerStart;
          mediaType := if c.source == SPEECH then MP3 else c.source;
          skipLen := TagLength(mediaType, buf);
        case Mid(_) =>
          if |buf| < 1 { return -1; }
          cmd := PlayerContinue;
        case Last(_) =>
      }
      if skipLen > -1 {
        if skipLen >= |buf| {
          skipLen := skipLen - |buf|;
          return;
        }
        cmd := PlayerStart;
        buf := buf[skipLen..];
        skipLen := -1;
      }
      Send(Frame(cmd, mediaType, c.flags, buf));
    }
  }

  lemma NoChunks(f: Frame)
    requires Sendable(f)
    ensures Chunks([f]) == [Header(f), f.payload]
  {
    assert [f][1..] == [];
    NothingSent();
  }

  lemma NothingSent()
    ensures Chunks([]) == []
  {
  }

  /** The message at the front of the buffer, as handle_event_play reads it. */
  method ReadMessage(b: MediaPlayBuffer) returns (done: bool, m: Message)
    requires b.Valid() && b.buffer.Length >= FRAME_SIZE && |b.View().contents| >= MESSAGE_SIZE
    requires |b.View().contents| - MESSAGE_SIZE >= Word(b.View().contents, 2)
    modifies b
    ensures b.Valid() && done == (DecodedMessages(old(b.View()).contents) != [])
    ensures done ==> m == DecodedMessages(old(b.View()).contents)[0]
    ensures done ==> DecodedMessages(b.View().contents) == DecodedMessages(old(b.View()).contents)[1..]
    ensures !done ==> b.View().contents == old(b.View()).contents[MESSAGE_SIZE..]
  {
    ghost var s := b.View().contents;
    var ok, header := b.TryRead(MESSAGE_SIZE);
    var size := Word(header, 2);
    assert forall k: nat :: k < 4 ==> Word(header, k) == Word(s, k);
    assert size == Word(s, 2);
    DecodedFirst(s);
    hide DecodedMessages, Word;
    m := Message(Word(header, 0), Word(header, 1), Word(header, 3), []);
    if size > FRAME_SIZE { return false, m; }
    if size > 0 {
      var payload;
      ok, payload := b.TryRead(size);
      m := m.(payload := payload);
    }
    done := true;
  }

  lemma DecodedFirst(s: seq<byte>)
    requires |s| >= MESSAGE_SIZE && |s| - MESSAGE_SIZE >= Word(s, 2)
    ensures var size := Word(s, 2);
            var rest := s[MESSAGE_SIZE..];
            var d := DecodedMessages(s);
            && (size > FRAME_SIZE ==> d == [])
            && (0 < size <= FRAME_SIZE ==>
              d != [] && d[0] == Message(Word(s, 0), Word(s, 1), Word(s, 3), rest[..size])
              && d[1..] == DecodedMessages(rest[size..]))
            && (size <= 0 ==>
              d != [] && d[0] == Message(Word(s, 0), Word(s, 1), Word(s, 3), []) && d[1..] == DecodedMessages(rest))
  {
    var size, rest := Word(s, 2), s[MESSAGE_SIZE..];
    hide Word;
    if size > 0 {
      if size <= FRAME_SIZE {
        assert s[MESSAGE_SIZE..MESSAGE_SIZE + size] == rest[..size] && s[MESSAGE_SIZE + size..] == rest[size..];
      }
    } else {
      assert s[MESSAGE_SIZE..MESSAGE_SIZE] == [];
    }
  }

  // End to end.

  lemma {:induction false} AllAccepted(chunks: seq<seq<byte>>, size: nat)
    requires forall i :: 0 <= i < |chunks| ==> |chunks[i]| <= size
    ensures Flat(AcceptedChunks(chunks, size)) == Flat(chunks)
    decreases |chunks|
  {
    if chunks != [] {
      AllAccepted(chunks[1..], size);
      var rest := AcceptedChunks(chunks[1..], size);
      if chunks[0] != [] {
        assert ([chunks[0]] + rest)[1..] == rest;
      } else {
        assert [] + rest == rest && [] + Flat(rest) == Flat(rest);
      }
    }
  }

  lemma {:induction false} ChunkSizes(frames: seq<Frame>, size: nat)
    requires size >= FRAME_SIZE && forall i :: 0 <= i < |frames| ==> Sendable(frames[i])
    ensures forall i :: 0 <= i < |Chunks(frames)| ==> |Chunks(frames)[i]| <= size
  {
    hide Header;
    if frames != [] { ChunkSizes(frames[1..], size); }
  }

  lemma {:induction false} AllSendable(h: Handler, c: Context, pieces: seq<Piece>)
    requires c.flags < TWO_31 && h.skipLen >= -1
    ensures forall i :: 0 <= i < |HandleAll(h, c, pieces)| ==> Sendable(HandleAll(h, c, pieces)[i])
    decreases |pieces|
  {
    hide TagLength;
    if pieces != [] {
      AllSendable(Handle(h, c, pieces[0]).0, c, pieces[1..]);
    }
  }

  /** From pieces to payloads: whatever the interleaving of the two threads,
      once all is written and read the player has the messages that were sent;
      they carry the stream without its tag and keep its protocol exactly when
      the tag ends before the last piece. */
  lemma StreamEndToEnd(h: Handler, c: Context, first: seq<byte>, mids: seq<seq<byte>>, last: seq<byte>,
                       sizes: seq<nat>, es: seq<Event>, size: nat)
    requires c.supported && c.flags < TWO_31 && h.skipLen >= -1 && PieceSizes(first, mids, last) && size >= FRAME_SIZE
    ensures var f := HandleAll(h, c, Pieces(first, mids, last));
            && (forall i :: 0 <= i < |f| ==> Sendable(f[i]))
            && Payloads(f) == Dropped(first + (Flat(mids) + last), TagToSkip(c, first))
            && (WellFramed(f) <==> TagToSkip(c, first) < |first| + |Flat(mids)|)
            && (Runs(Start(Chunks(f), sizes), es, size) ==>
                  var s := After(Start(Chunks(f), sizes), es, size);
                  s.writer.todo == [] && s.shared.contents == [] ==> DecodedMessages(Flat(s.got)) == Messages(f))
  {
    hide HandleAll, Payloads, Flat, Dropped, Fifo, Runs, After, DecodedMessages, Messages, TagToSkip, WellFramed;
    hide Sendable, Chunks, AcceptedChunks, Start, PieceSizes;
    FramedStream(h, c, first, mids, last);
    AllSendable(h, c, Pieces(first, mids, last));
    var f := HandleAll(h, c, Pieces(first, mids, last));
    ChunkSizes(f, size);
    AllAccepted(Chunks(f), size);
    DecodeChunks(f);
    if Runs(Start(Chunks(f), sizes), es, size) {
      FifoUnderInterleaving(Chunks(f), sizes, es, size);
    }
  }
}
