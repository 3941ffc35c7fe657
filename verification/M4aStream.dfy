// What the M4A player owes its codec: header and bytes of every sample that has
// arrived in full, whatever pieces the file comes in.

module M4aStream {
  import opened Bytes
  import opened M4aTables

  const ADTS_HEAD_SIZE: int := 7

  /** The fields of the AAC audio specific config that an ADTS header repeats. */
  datatype AudioConfig = AudioConfig(objectType: nat, frequencyIndex: nat, channels: nat)

  /** The 7-byte ADTS header of a frame of the given length, header included. */
  function AdtsHeader(asc: AudioConfig, frameSize: nat): (h: seq<byte>)
    ensures |h| == ADTS_HEAD_SIZE
  {
    [ 0xFF,
      0xF1,
      (asc.objectType + 3) % 4 * 0x40 + asc.frequencyIndex % 0x10 * 4 + asc.channels / 4 % 2,
      asc.channels % 4 * 0x40 + frameSize / 0x800 % 4,
      frameSize / 8 % 0x100,
      frameSize % 8 * 0x20 + 0x1F,
      0x3C ]
  }

  /** Frame length as an ADTS reader extracts it: 13 bits across three bytes. */
  function AdtsFrameLength(h: seq<byte>): int
    requires |h| == ADTS_HEAD_SIZE
  {
    (h[3] as int) % 4 * 0x800 + (h[4] as int) * 8 + (h[5] as int) / 0x20
  }

  /** Splitting a length at bits 3 and 11. */
  lemma LengthBits(n: nat)
    ensures n / 0x800 % 4 * 0x800 + n / 8 % 0x100 * 8 + n % 8 == n % 0x2000
  {
    assert n / 8 / 0x100 == n / 0x800;
    assert n / 0x800 / 4 == n / 0x2000;
  }

  /** The header carries its frame's length exactly when it fits 13 bits. */
  lemma AdtsLengthRoundTrip(asc: AudioConfig, frameSize: nat)
    ensures AdtsFrameLength(AdtsHeader(asc, frameSize)) == frameSize <==> frameSize < 0x2000
  {
    LengthBits(frameSize);
    var m := frameSize / 0x800;
    assert (asc.channels % 4 * 0x40 + m % 4) % 4 == m % 4;
  }

  // The other fields of the header, at their bits (sections 1.A.2.2.1 and
  // 1.A.2.2.2 of ISO/IEC 14496-3).

  function AdtsSyncword(h: seq<byte>): int
    requires |h| == ADTS_HEAD_SIZE
  {
    (h[0] as int) * 0x10 + (h[1] as int) / 0x10
  }

  /** ID, 0 for MPEG-4. */
  function AdtsId(h: seq<byte>): int
    requires |h| == ADTS_HEAD_SIZE
  {
    (h[1] as int) / 8 % 2
  }

  function AdtsLayer(h: seq<byte>): int
    requires |h| == ADTS_HEAD_SIZE
  {
    (h[1] as int) / 2 % 4
  }

  /** 1 when no checksum follows the header. */
  function AdtsProtectionAbsent(h: seq<byte>): int
    requires |h| == ADTS_HEAD_SIZE
  {
    (h[1] as int) % 2
  }

  /** The object type less one: 0 for main, 1 for low complexity. */
  function AdtsProfile(h: seq<byte>): int
    requires |h| == ADTS_HEAD_SIZE
  {
    (h[2] as int) / 0x40
  }

  function AdtsFrequencyIndex(h: seq<byte>): int
    requires |h| == ADTS_HEAD_SIZE
  {
    (h[2] as int) / 4 % 0x10
  }

  function AdtsChannels(h: seq<byte>): int
    requires |h| == ADTS_HEAD_SIZE
  {
    (h[2] as int) % 2 * 4 + (h[3] as int) / 0x40
  }

  /** The private, original, home and two copyright bits. */
  predicate AdtsFlagsClear(h: seq<byte>)
    requires |h| == ADTS_HEAD_SIZE
  {
    (h[2] as int) / 2 % 2 == 0 && (h[3] as int) / 4 % 0x10 == 0
  }

  function AdtsBufferFullness(h: seq<byte>): int
    requires |h| == ADTS_HEAD_SIZE
  {
    (h[5] as int) % 0x20 * 0x40 + (h[6] as int) / 4
  }

  /** Raw data blocks in the frame, less one. */
  function AdtsBlocks(h: seq<byte>): int
    requires |h| == ADTS_HEAD_SIZE
  {
    (h[6] as int) % 4
  }

  /** What an ADTS reader finds in the header of any frame: profile, frequency
      and channels are those of the configuration exactly when each fits its
      field. */
  lemma AdtsFieldsRead(asc: AudioConfig, frameSize: nat)
    ensures var h := AdtsHeader(asc, frameSize);
      && AdtsSyncword(h) == 0xFFF && AdtsId(h) == 0 && AdtsLayer(h) == 0 && AdtsProtectionAbsent(h) == 1
      && AdtsFlagsClear(h) && AdtsBlocks(h) == 0
      && (AdtsProfile(h) == asc.objectType - 1 <==> 1 <= asc.objectType <= 4)
      && (AdtsFrequencyIndex(h) == asc.frequencyIndex <==> asc.frequencyIndex < 0x10)
      && (AdtsChannels(h) == asc.channels <==> asc.channels < 8)
  {
    FieldsOfThird((asc.objectType + 3) % 4, asc.frequencyIndex % 0x10, asc.channels / 4 % 2);
    FieldsOfFourth(asc.channels % 4, frameSize / 0x800 % 4);
    ChannelBits(asc.channels);
    var h := AdtsHeader(asc, frameSize);
    assert AdtsProfile(h) == (asc.objectType + 3) % 4 && AdtsFrequencyIndex(h) == asc.frequencyIndex % 0x10;
  }

  lemma FieldsOfThird(a: nat, b: nat, c: nat)
    requires a < 4 && b < 0x10 && c < 2
    ensures var x := a * 0x40 + b * 4 + c; x / 0x40 == a && x / 4 % 0x10 == b && x % 2 == c && x / 2 % 2 == 0
  {
  }

  lemma FieldsOfFourth(a: nat, b: nat)
    requires a < 4 && b < 4
    ensures var x := a * 0x40 + b; x / 0x40 == a && x / 4 % 0x10 == 0
  {
  }

  lemma ChannelBits(n: nat)
    ensures n / 4 % 2 * 4 + n % 4 == n % 8
  {
    assert n / 4 / 2 == n / 8;
  }

  /** Configurations that fit their fields and have equal headers are equal. */
  lemma AdtsDetermines(a: AudioConfig, b: AudioConfig, frameSize: nat)
    requires 1 <= a.objectType <= 4 && a.frequencyIndex < 0x10 && a.channels < 8
    requires 1 <= b.objectType <= 4 && b.frequencyIndex < 0x10 && b.channels < 8
    requires AdtsHeader(a, frameSize) == AdtsHeader(b, frameSize)
    ensures a == b
  {
    AdtsFieldsRead(a, frameSize);
    AdtsFieldsRead(b, frameSize);
    hide AdtsHeader, AdtsProfile, AdtsFrequencyIndex, AdtsChannels;
  }

  /** The buffer fullness is meant to be 0x7FF, which stands for a variable rate,
      but the shift of its lower part drops two ones. */
  lemma FullnessMissesBits(asc: AudioConfig, frameSize: nat)
    ensures AdtsBufferFullness(AdtsHeader(asc, frameSize)) == 0x7CF
  {
    assert (frameSize % 8 * 0x20 + 0x1F) % 0x20 == 0x1F;
  }

  /** Where the samples of a track lie in the file. */
  datatype Layout = Layout(start: seq<int>, size: seq<int>) {
    /** Samples follow each other in the file without overlapping. */
    ghost predicate Ascending(fileSize: nat) {
      && |start| == |size|
      && (forall i :: 0 <= i < |start| ==> 0 <= start[i] && 0 <= size[i])
      && (forall i, j :: 0 <= i < j < |start| ==> start[i] + size[i] <= start[j])
      && (forall i :: 0 <= i < |start| ==> start[i] + size[i] <= fileSize)
    }
  }

  /** The layout that a track's flat tables describe. */
  ghost predicate LaysOut(t: Tables, l: Layout)
    requires Consistent(t)
  {
    && |l.start| == |l.size| == t.sampleCount
    && (forall i {:trigger Position(t, i)} ::
          0 <= i < t.sampleCount ==> l.start[i] == Position(t, i) && l.size[i] == SampleSize(t, i))
  }

  /** The first sample, counted from i, that does not lie wholly below pos. */
  function Pending(l: Layout, pos: int, i: int): (j: int)
    requires |l.start| == |l.size| && 0 <= i <= |l.start|
    ensures i <= j <= |l.start|
    ensures j < |l.start| ==> l.start[j] + l.size[j] > pos
    decreases |l.start| - i
  {
    if i < |l.start| && l.start[i] + l.size[i] <= pos then Pending(l, pos, i + 1) else i
  }

  /** Header and bytes of sample i. */
  function Frame(l: Layout, file: seq<byte>, asc: AudioConfig, i: int): seq<byte>
    requires l.Ascending(|file|) && 0 <= i < |l.start|
  {
    AdtsHeader(asc, l.size[i] + ADTS_HEAD_SIZE) + file[l.start[i]..l.start[i] + l.size[i]]
  }

  /** Headers and bytes of samples a, a+1, ..., b-1. */
  function Frames(l: Layout, file: seq<byte>, asc: AudioConfig, a: int, b: int): seq<byte>
    requires l.Ascending(|file|) && 0 <= a <= b <= |l.start|
    decreases b
  {
    if a == b then [] else Frames(l, file, asc, a, b - 1) + Frame(l, file, asc, b - 1)
  }

  /** The samples before Pending are exactly those that have arrived in full. */
  lemma {:induction false} PendingIsMaximal(l: Layout, fileSize: nat, pos: int, i: int, k: int)
    requires l.Ascending(fileSize) && 0 <= i <= k < |l.start|
    ensures k < Pending(l, pos, i) <==> l.start[k] + l.size[k] <= pos
    decreases k - i
  {
    if i < k { PendingIsMaximal(l, fileSize, pos, i + 1, k); }
  }

  /** At the end of the file nothing is pending. */
  lemma {:induction false} NothingPending(l: Layout, fileSize: nat, i: int)
    requires l.Ascending(fileSize) && 0 <= i <= |l.start|
    ensures Pending(l, fileSize, i) == |l.start|
    decreases |l.start| - i
  {
    if i < |l.start| { NothingPending(l, fileSize, i + 1); }
  }

  lemma PendingStep(l: Layout, pos: int, i: int)
    requires |l.start| == |l.size| && 0 <= i < |l.start| && l.start[i] + l.size[i] <= pos
    ensures Pending(l, pos, i) == Pending(l, pos, i + 1)
  {
  }

  /** Any sample at all makes for something to send. */
  lemma FramesNotEmpty(l: Layout, file: seq<byte>, asc: AudioConfig, a: int, b: int)
    requires l.Ascending(|file|) && 0 <= a < b <= |l.start|
    ensures Frames(l, file, asc, a, b) != []
  {
    assert |Frame(l, file, asc, b - 1)| >= ADTS_HEAD_SIZE;
  }

  /** One more frame at the end of what was sent. */
  lemma FramesStep(l: Layout, file: seq<byte>, asc: AudioConfig, sent: seq<byte>, a: int, b: int)
    requires l.Ascending(|file|) && 0 <= a <= b < |l.start|
    ensures sent + Frames(l, file, asc, a, b) + Frame(l, file, asc, b) == sent + Frames(l, file, asc, a, b + 1)
  {
    hide Frame;
    Assoc(sent, Frames(l, file, asc, a, b), Frame(l, file, asc, b));
  }

  /** Sending on arrival of p bytes and again on arrival of q sends what a
      single delivery of q bytes would. */
  lemma {:induction false} PendingResumes(l: Layout, p: int, q: int, i: int)
    requires |l.start| == |l.size| && 0 <= i <= |l.start| && p <= q
    ensures Pending(l, q, Pending(l, p, i)) == Pending(l, q, i)
    decreases |l.start| - i
  {
    if i < |l.start| && l.start[i] + l.size[i] <= p { PendingResumes(l, p, q, i + 1); }
  }

  lemma {:induction false} FramesSplit(l: Layout, file: seq<byte>, asc: AudioConfig, a: int, b: int, c: int)
    requires l.Ascending(|file|) && 0 <= a <= b <= c <= |l.start|
    ensures Frames(l, file, asc, a, c) == Frames(l, file, asc, a, b) + Frames(l, file, asc, b, c)
    decreases c
  {
    hide Frame;
    if b < c {
      FramesSplit(l, file, asc, a, b, c - 1);
      Assoc(Frames(l, file, asc, a, b), Frames(l, file, asc, b, c - 1), Frame(l, file, asc, c - 1));
    }
  }

  /** What an ADTS reader makes of a stream: it goes from header to header by the
      frame length, which counts the header, and takes what is between. */
  function AdtsPayloads(s: seq<byte>): seq<seq<byte>> {
    if |s| < ADTS_HEAD_SIZE then []
    else
      var n := AdtsFrameLength(s[..ADTS_HEAD_SIZE]);
      if n < ADTS_HEAD_SIZE || n > |s| then [] else [s[ADTS_HEAD_SIZE..n]] + AdtsPayloads(s[n..])
  }

  /** The bytes of samples a, a+1, ..., b-1. */
  function SampleBytes(l: Layout, file: seq<byte>, a: int, b: int): seq<seq<byte>>
    requires l.Ascending(|file|) && 0 <= a <= b <= |l.start|
  {
    seq(b - a, k requires 0 <= k < b - a => file[l.start[a + k]..l.start[a + k] + l.size[a + k]])
  }

  lemma FrameRead(asc: AudioConfig, bytes: seq<byte>, rest: seq<byte>)
    ensures var s := AdtsHeader(asc, |bytes| + 7) + bytes + rest;
      if |bytes| + 7 < 0x2000 then AdtsPayloads(s) == [bytes] + AdtsPayloads(rest)
      else forall more :: AdtsPayloads(s) != [bytes] + more
  {
    var h := AdtsHeader(asc, |bytes| + 7);
    var s := h + bytes + rest;
    AdtsLengthRoundTrip(asc, |bytes| + 7);
    LengthShorter(asc, |bytes| + 7);
    hide AdtsHeader, AdtsFrameLength;
    assert s[..7] == h;
    if |bytes| + 7 < 0x2000 {
      assert s[7..|bytes| + 7] == bytes && s[|bytes| + 7..] == rest;
    } else {
      forall more ensures AdtsPayloads(s) != [bytes] + more {
        if AdtsPayloads(s) != [] { assert |AdtsPayloads(s)[0]| < |bytes| == |([bytes] + more)[0]|; }
      }
    }
  }

  /** A length that does not fit is read as a shorter one. */
  lemma LengthShorter(asc: AudioConfig, n: nat)
    ensures 0 <= AdtsFrameLength(AdtsHeader(asc, n))
    ensures n >= 0x2000 ==> AdtsFrameLength(AdtsHeader(asc, n)) < 0x2000
  {
  }

  lemma FirstFrame(l: Layout, file: seq<byte>, asc: AudioConfig, a: int, b: int)
    requires l.Ascending(|file|) && 0 <= a < b <= |l.start|
    ensures var bytes := file[l.start[a]..l.start[a] + l.size[a]];
      && |bytes| == l.size[a]
      && Frames(l, file, asc, a, b) == AdtsHeader(asc, |bytes| + 7) + bytes + Frames(l, file, asc, a + 1, b)
      && SampleBytes(l, file, a, b) == [bytes] + SampleBytes(l, file, a + 1, b)
  {
    hide AdtsHeader;
    FramesSplit(l, file, asc, a, a + 1, b);
    assert Frames(l, file, asc, a, a + 1) == [] + Frame(l, file, asc, a);
  }

  /** An ADTS reader finds in what was sent exactly the samples, each whole,
      exactly when all of their frames are shorter than 2^13 bytes. */
  lemma {:induction false} FramesReadBack(l: Layout, file: seq<byte>, asc: AudioConfig, a: int, b: int)
    requires l.Ascending(|file|) && 0 <= a <= b <= |l.start|
    ensures AdtsPayloads(Frames(l, file, asc, a, b)) == SampleBytes(l, file, a, b)
       <==> forall i :: a <= i < b ==> l.size[i] + 7 < 0x2000
    decreases b - a
  {
    hide AdtsHeader, AdtsPayloads, Frames, SampleBytes;
    if a == b {
      NoFrames(l, file, asc, a);
    } else {
      FirstFrame(l, file, asc, a, b);
      FramesReadBack(l, file, asc, a + 1, b);
      var bytes := file[l.start[a]..l.start[a] + l.size[a]];
      FrameRead(asc, bytes, Frames(l, file, asc, a + 1, b));
      SameTail(bytes, AdtsPayloads(Frames(l, file, asc, a + 1, b)), SampleBytes(l, file, a + 1, b));
    }
  }

  lemma NoFrames(l: Layout, file: seq<byte>, asc: AudioConfig, a: int)
    requires l.Ascending(|file|) && 0 <= a <= |l.start|
    ensures AdtsPayloads(Frames(l, file, asc, a, a)) == [] == SampleBytes(l, file, a, a)
  {
  }

  lemma SameTail<T>(x: T, a: seq<T>, b: seq<T>)
    ensures [x] + a == [x] + b <==> a == b
  {
    assert ([x] + a)[1..] == a && ([x] + b)[1..] == b;
  }

  /** Streaming further extends what was streamed to what a single delivery
      up to the new position would have sent. */
  lemma StreamFurther(l: Layout, file: seq<byte>, asc: AudioConfig, sent: seq<byte>, base: int, i: int, p: int, q: int)
    requires l.Ascending(|file|) && 0 <= base <= i <= |l.start| && p <= q
    requires i == base || i == Pending(l, p, base)
    requires forall k :: 0 <= k < i ==> l.start[k] + l.size[k] <= p
    ensures var j := Pending(l, q, i);
      && j == Pending(l, q, base)
      && sent + Frames(l, file, asc, base, i) + Frames(l, file, asc, i, j) == sent + Frames(l, file, asc, base, j)
      && (forall k :: 0 <= k < j ==> l.start[k] + l.size[k] <= q)
  {
    hide Frame;
    var j := Pending(l, q, i);
    PendingResumes(l, p, q, base);
    FramesSplit(l, file, asc, base, i, j);
    Assoc(sent, Frames(l, file, asc, base, i), Frames(l, file, asc, i, j));
    forall k | 0 <= k < j ensures l.start[k] + l.size[k] <= q {
      if i <= k { PendingIsMaximal(l, |file|, q, i, k); }
    }
  }

  /** What is sent when the file arrives in pieces ending at the given positions. */
  function Streamed(l: Layout, file: seq<byte>, asc: AudioConfig, i: int, cuts: seq<int>): seq<byte>
    requires l.Ascending(|file|) && 0 <= i <= |l.start|
    decreases |cuts|
  {
    if cuts == [] then []
    else
      var j := Pending(l, cuts[0], i);
      Frames(l, file, asc, i, j) + Streamed(l, file, asc, j, cuts[1..])
  }

  /** However a file is cut into pieces, the codec receives the same bytes. */
  lemma {:induction false} CutIndependence(l: Layout, file: seq<byte>, asc: AudioConfig, i: int, cuts: seq<int>)
    requires l.Ascending(|file|) && 0 <= i <= |l.start|
    requires cuts != [] && forall a, b :: 0 <= a < b < |cuts| ==> cuts[a] <= cuts[b]
    ensures Streamed(l, file, asc, i, cuts) == Frames(l, file, asc, i, Pending(l, cuts[|cuts| - 1], i))
    decreases |cuts|
  {
    hide Frames, Pending;
    var j := Pending(l, cuts[0], i);
    if |cuts| == 1 {
      assert Streamed(l, file, asc, j, cuts[1..]) == [];
    } else {
      CutIndependence(l, file, asc, j, cuts[1..]);
      CutStep(l, file, asc, i, cuts[0], cuts[|cuts| - 1]);
    }
  }

  /** Two deliveries send what the second alone would. */
  lemma CutStep(l: Layout, file: seq<byte>, asc: AudioConfig, i: int, p: int, q: int)
    requires l.Ascending(|file|) && 0 <= i <= |l.start| && p <= q
    ensures var j := Pending(l, p, i);
      Frames(l, file, asc, i, j) + Frames(l, file, asc, j, Pending(l, q, j))
        == Frames(l, file, asc, i, Pending(l, q, i))
  {
    hide Frame, Frames, Pending;
    var j := Pending(l, p, i);
    PendingResumes(l, p, q, i);
    FramesSplit(l, file, asc, i, j, Pending(l, q, j));
  }

  /** The pieces are, one after the other, the file from pos to the position to. */
  ghost predicate CutsUp(pieces: seq<seq<byte>>, file: seq<byte>, pos: int, to: int) {
    && 0 <= pos <= to <= |file|
    && if pieces == [] then pos == to
       else pos + |pieces[0]| <= to && pieces[0] == file[pos..pos + |pieces[0]|]
            && CutsUp(pieces[1..], file, pos + |pieces[0]|, to)
  }

  /** Where the non-empty pieces end, the first starting at pos. */
  function Ends(pieces: seq<seq<byte>>, pos: int): seq<int> {
    if pieces == [] then []
    else (if pieces[0] == [] then [] else [pos + |pieces[0]|]) + Ends(pieces[1..], pos + |pieces[0]|)
  }

  /** Some piece that is not empty starts behind the header, the first of the
      pieces starting at pos. */
  predicate DataBehind(pieces: seq<seq<byte>>, pos: int, header: int) {
    pieces != []
    && ((pieces[0] != [] && header <= pos) || DataBehind(pieces[1..], pos + |pieces[0]|, header))
  }

  /** Some piece is not empty. */
  predicate HasData(pieces: seq<seq<byte>>) {
    exists k :: 0 <= k < |pieces| && pieces[k] != []
  }

  lemma {:induction false} BehindIsAny(pieces: seq<seq<byte>>, pos: int, header: int)
    requires header <= pos
    ensures DataBehind(pieces, pos, header) <==> HasData(pieces)
    decreases |pieces|
  {
    if pieces != [] {
      BehindIsAny(pieces[1..], pos + |pieces[0]|, header);
      HasDataStep(pieces);
    }
  }

  lemma HasDataStep(pieces: seq<seq<byte>>)
    requires pieces != []
    ensures HasData(pieces) <==> pieces[0] != [] || HasData(pieces[1..])
  {
    if HasData(pieces) && pieces[0] == [] {
      var k :| 0 <= k < |pieces| && pieces[k] != [];
      assert pieces[1..][k - 1] != [];
    }
    if HasData(pieces[1..]) {
      var k :| 0 <= k < |pieces[1..]| && pieces[1..][k] != [];
      assert pieces[k + 1] != [];
    }
  }

  /** Without a byte in them pieces do not move the position. */
  lemma {:induction false} NothingMoves(pieces: seq<seq<byte>>, file: seq<byte>, pos: int, to: int)
    requires CutsUp(pieces, file, pos, to) && !HasData(pieces)
    ensures pos == to
    decreases |pieces|
  {
    if pieces != [] {
      HasDataStep(pieces);
      NothingMoves(pieces[1..], file, pos + |pieces[0]|, to);
    }
  }

  /** Pieces end in order, the last of them where all end. */
  lemma {:induction false} EndsAscend(pieces: seq<seq<byte>>, file: seq<byte>, pos: int, to: int)
    requires CutsUp(pieces, file, pos, to)
    ensures var e := Ends(pieces, pos);
      && (e != [] <==> HasData(pieces)) && (e != [] ==> e[|e| - 1] == to)
      && (forall a :: 0 <= a < |e| ==> pos <= e[a])
      && (forall a, b :: 0 <= a < b < |e| ==> e[a] <= e[b])
    decreases |pieces|
  {
    if pieces != [] {
      var next := pos + |pieces[0]|;
      EndsAscend(pieces[1..], file, next, to);
      HasDataStep(pieces);
      if !HasData(pieces[1..]) { NothingMoves(pieces[1..], file, next, to); }
    }
  }

  /** What the pieces send: from sample i on, every sample that the end of a
      piece completes, in order; and the sample j is pending afterwards. */
  ghost predicate Sent(l: Layout, file: seq<byte>, asc: AudioConfig, pieces: seq<seq<byte>>, pos: int, to: int,
                       i: int, j: int, c0: seq<byte>, c1: seq<byte>)
  {
    && l.Ascending(|file|) && 0 <= i <= j <= |l.start|
    && c1 == c0 + Streamed(l, file, asc, i, Ends(pieces, pos))
    && j == if HasData(pieces) then Pending(l, to, i) else i
  }

  lemma SentNothing(l: Layout, file: seq<byte>, asc: AudioConfig, pos: int, i: int, c: seq<byte>)
    requires l.Ascending(|file|) && 0 <= i <= |l.start|
    ensures Sent(l, file, asc, [], pos, pos, i, i, c, c)
  {
    assert c + [] == c;
  }

  /** A piece and the pieces behind it. */
  lemma SentMore(l: Layout, file: seq<byte>, asc: AudioConfig, pieces: seq<seq<byte>>, pos: int, to: int,
                 i: int, j: int, k: int, c0: seq<byte>, c1: seq<byte>, c2: seq<byte>)
    requires l.Ascending(|file|) && 0 <= i <= j <= |l.start| && pieces != [] && CutsUp(pieces, file, pos, to)
    requires var next := pos + |pieces[0]|;
      if pieces[0] == [] then j == i && c1 == c0
      else j == Pending(l, next, i) && c1 == c0 + Frames(l, file, asc, i, j)
    requires Sent(l, file, asc, pieces[1..], pos + |pieces[0]|, to, j, k, c1, c2)
    ensures Sent(l, file, asc, pieces, pos, to, i, k, c0, c2)
  {
    hide Frames, Pending, HasData;
    var next := pos + |pieces[0]|;
    var e := Ends(pieces[1..], next);
    HasDataStep(pieces);
    if pieces[0] == [] {
      assert Ends(pieces, pos) == e;
    } else {
      assert Ends(pieces, pos)[0] == next && Ends(pieces, pos)[1..] == e;
      Assoc(c0, Frames(l, file, asc, i, j), Streamed(l, file, asc, j, e));
      PendingResumes(l, next, to, i);
      if !HasData(pieces[1..]) { NothingMoves(pieces[1..], file, next, to); }
    }
  }

  /** All together the pieces send what one piece would. */
  lemma SentAsOne(l: Layout, file: seq<byte>, asc: AudioConfig, pieces: seq<seq<byte>>, pos: int, to: int,
                  i: int, j: int, c0: seq<byte>, c1: seq<byte>)
    requires CutsUp(pieces, file, pos, to) && Sent(l, file, asc, pieces, pos, to, i, j, c0, c1)
    ensures l.Ascending(|file|) && 0 <= i <= j <= |l.start|
    ensures c1 == c0 + Frames(l, file, asc, i, j) && j == if HasData(pieces) then Pending(l, to, i) else i
    ensures !HasData(pieces) ==> c1 == c0
  {
    hide Pending, HasData;
    EndsAscend(pieces, file, pos, to);
    if HasData(pieces) {
      CutIndependence(l, file, asc, i, Ends(pieces, pos));
    }
  }
}
