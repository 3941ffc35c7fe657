// How the table boxes of a track are written (sections 8.5 to 8.7 of ISO/IEC
// 14496-12), and that they are read back.

module M4aWriter {
  import opened Bytes
  import opened M4aDescriptors
  import opened M4aUnpacker
  import opened M4aBoxes
  import opened M4aOpen

  const FULL: seq<byte> := [0, 0, 0, 0]     // version and flags

  predicate Signed32(w: int) {
    -TWO_31 <= w < TWO_31
  }

  predicate AllSigned(ws: seq<int>) {
    forall i :: 0 <= i < |ws| ==> Signed32(ws[i])
  }

  /** A 32-bit value, big-endian. */
  function Word(w: int): (s: seq<byte>)
    requires Signed32(w)
    ensures |s| == 4 && AsInt32(Be32(s, 0)) == w
  {
    Be32Bytes(if w < 0 then w + TWO_32 else w)
  }

  /** A full box with a count and as many rows. */
  function RowsBytes(rows: seq<seq<byte>>): seq<byte>
    requires |rows| < TWO_31
  {
    FULL + Word(|rows|) + Joined(rows)
  }

  lemma OneMore(width: nat, n: nat)
    ensures width * (n + 1) == width * n + width && width * 0 == 0 <= width * n
  {
  }

  lemma {:induction false} RowsLength(rows: seq<seq<byte>>, width: nat)
    requires forall j :: 0 <= j < |rows| ==> |rows[j]| == width
    ensures |Joined(rows)| == width * |rows|
    decreases |rows|
  {
    OneMore(width, 0);
    if rows != [] {
      RowsLength(rows[..|rows| - 1], width);
      OneMore(width, |rows| - 1);
    }
  }

  lemma {:induction false} RowAt(rows: seq<seq<byte>>, width: nat, i: nat)
    requires i < |rows| && forall j :: 0 <= j < |rows| ==> |rows[j]| == width
    ensures 0 <= width * i <= width * i + width <= |Joined(rows)|
    ensures Joined(rows)[width * i..width * i + width] == rows[i]
    decreases |rows|
  {
    var at, init, last := width * i, rows[..|rows| - 1], rows[|rows| - 1];
    OneMore(width, i);
    RowsLength(init, width);
    var a := Joined(init);
    assert Joined(rows) == a + last;
    hide Joined;
    if i < |init| {
      RowAt(init, width, i);
      SliceLeft(a, last, at, at + width);
    } else {
      SliceRight(a, last);
    }
  }

  lemma SliceLeft(a: seq<byte>, b: seq<byte>, from: nat, to: nat)
    requires from <= to <= |a|
    ensures (a + b)[from..to] == a[from..to]
  {
  }

  lemma SliceRight(a: seq<byte>, b: seq<byte>)
    ensures (a + b)[|a|..|a| + |b|] == b
  {
  }

  lemma {:induction false} WordsAre(s: seq<byte>, at: nat, stride: nat, ws: seq<int>)
    requires forall i :: 0 <= i < |ws| ==> at + stride * i + 4 <= |s| && AsInt32(Be32(s, at + stride * i)) == ws[i]
    ensures ws != [] ==> at + stride * (|ws| - 1) + 4 <= |s|
    ensures Words(s, at, stride, |ws|) == ws
    decreases |ws|
  {
    if ws != [] {
      var init := ws[..|ws| - 1];
      WordsAre(s, at, stride, init);
      assert ws == init + [ws[|ws| - 1]];
    }
  }

  /** One column of the rows behind a head. */
  lemma ColumnRead(head: seq<byte>, rows: seq<seq<byte>>, width: nat, col: nat, ws: seq<int>)
    requires |ws| == |rows| && col + 4 <= width
    requires forall i :: 0 <= i < |rows| ==> |rows[i]| == width && AsInt32(Be32(rows[i], col)) == ws[i]
    ensures var s, at := head + Joined(rows), |head| + col;
      && |s| == |head| + width * |rows|
      && (ws != [] ==> at + width * (|ws| - 1) + 4 <= |s|)
      && Words(s, at, width, |ws|) == ws
  {
    var s := head + Joined(rows);
    RowsLength(rows, width);
    forall i | 0 <= i < |ws|
      ensures |head| + col + width * i + 4 <= |s| && AsInt32(Be32(s, |head| + col + width * i)) == ws[i]
    {
      RowAt(rows, width, i);
      var at := width * i;
      assert forall k :: 0 <= k < width ==> s[|head| + at + k] == Joined(rows)[at..at + width][k] == rows[i][k];
      hide Joined;
      assert Be32(s, |head| + at + col) == Be32(rows[i], col);
    }
    hide Joined, Be32;
    WordsAre(s, |head| + col, width, ws);
  }

  lemma CountRead(rows: seq<seq<byte>>)
    requires |rows| < TWO_31
    ensures var s := RowsBytes(rows); |s| >= 8 && Count(s) == |rows| && s == (FULL + Word(|rows|)) + Joined(rows)
  {
    var s := RowsBytes(rows);
    assert s[4..8] == Word(|rows|);
    assert Be32(s, 4) == Be32(s[4..8], 0);
  }

  // The boxes.

  function StscRows(first: seq<int>, per: seq<int>, desc: seq<int>): (rows: seq<seq<byte>>)
    requires |first| == |per| == |desc| && AllSigned(first) && AllSigned(per) && AllSigned(desc)
    ensures |rows| == |first| && forall i :: 0 <= i < |rows| ==> |rows[i]| == 12
  {
    seq(|first|, i requires 0 <= i < |first| => Word(first[i]) + Word(per[i]) + Word(desc[i]))
  }

  /** For each run the first chunk, the samples per chunk and the description. */
  function StscBytes(first: seq<int>, per: seq<int>, desc: seq<int>): seq<byte>
    requires |first| == |per| == |desc| < TWO_31 && AllSigned(first) && AllSigned(per) && AllSigned(desc)
  {
    RowsBytes(StscRows(first, per, desc))
  }

  lemma ThreeWords(a: int, b: int, c: int)
    requires Signed32(a) && Signed32(b) && Signed32(c)
    ensures var row := Word(a) + Word(b) + Word(c);
      |row| == 12 && AsInt32(Be32(row, 0)) == a && AsInt32(Be32(row, 4)) == b && AsInt32(Be32(row, 8)) == c
  {
    var row := Word(a) + Word(b) + Word(c);
    assert row[0..4] == Word(a) && row[4..8] == Word(b) && row[8..12] == Word(c);
    assert Be32(row, 0) == Be32(row[0..4], 0) && Be32(row, 4) == Be32(row[4..8], 0);
    assert Be32(row, 8) == Be32(row[8..12], 0);
  }

  /** The runs are read back, each column into its place. */
  lemma StscRead(first: seq<int>, per: seq<int>, desc: seq<int>, p: int, v: TrackView)
    requires |first| == |per| == |desc| < TWO_31 && AllSigned(first) && AllSigned(per) && AllSigned(desc)
    ensures var s := StscBytes(first, per, desc);
      LeafOk(Stsc, s) && Table(Stsc, s, p, v) == v.(firstChunk := first, perChunk := per)
  {
    hide StscBytes, Words, Be32, EntriesOk, LastIsAudio;
    StscWords(first, per, desc);
  }

  lemma StscWords(first: seq<int>, per: seq<int>, desc: seq<int>)
    requires |first| == |per| == |desc| < TWO_31 && AllSigned(first) && AllSigned(per) && AllSigned(desc)
    ensures var s, n := StscBytes(first, per, desc), |first|;
      && |s| == 8 + 12 * n && Count(s) == n && Words(s, 8, 12, n) == first && Words(s, 12, 12, n) == per
  {
    hide RowsBytes, Joined, Word, Be32, Words, Count;
    var rows := StscRows(first, per, desc);
    forall i | 0 <= i < |rows|
      ensures AsInt32(Be32(rows[i], 0)) == first[i] && AsInt32(Be32(rows[i], 4)) == per[i]
    {
      ThreeWords(first[i], per[i], desc[i]);
    }
    CountRead(rows);
    ColumnRead(FULL + Word(|rows|), rows, 12, 0, first);
    ColumnRead(FULL + Word(|rows|), rows, 12, 4, per);
  }

  function SttsRows(counts: seq<int>, deltas: seq<int>): (rows: seq<seq<byte>>)
    requires |counts| == |deltas| && AllSigned(counts) && AllSigned(deltas)
    ensures |rows| == |counts| && forall i :: 0 <= i < |rows| ==> |rows[i]| == 8
  {
    seq(|counts|, i requires 0 <= i < |counts| => Word(counts[i]) + Word(deltas[i]))
  }

  /** For each run of samples their number and their duration. */
  function SttsBytes(counts: seq<int>, deltas: seq<int>): seq<byte>
    requires |counts| == |deltas| < TWO_31 && AllSigned(counts) && AllSigned(deltas)
  {
    RowsBytes(SttsRows(counts, deltas))
  }

  lemma TwoWords(a: int, b: int)
    requires Signed32(a) && Signed32(b)
    ensures var row := Word(a) + Word(b);
      |row| == 8 && AsInt32(Be32(row, 0)) == a && AsInt32(Be32(row, 4)) == b
  {
    var row := Word(a) + Word(b);
    assert row[0..4] == Word(a) && row[4..8] == Word(b);
    assert Be32(row, 0) == Be32(row[0..4], 0) && Be32(row, 4) == Be32(row[4..8], 0);
  }

  lemma SttsRead(counts: seq<int>, deltas: seq<int>, p: int, v: TrackView)
    requires |counts| == |deltas| < TWO_31 && AllSigned(counts) && AllSigned(deltas) && v.sttsCounts == []
    ensures var s := SttsBytes(counts, deltas);
      |s| == 8 + 8 * |counts| && LeafOk(Stts, s) && Table(Stts, s, p, v) == v.(sttsCounts := counts)
  {
    var rows := SttsRows(counts, deltas);
    forall i | 0 <= i < |rows| ensures AsInt32(Be32(rows[i], 0)) == counts[i] { TwoWords(counts[i], deltas[i]); }
    hide SttsRows, RowsBytes, Joined, Word, Be32, Words;
    CountRead(rows);
    ColumnRead(FULL + Word(|rows|), rows, 8, 0, counts);
  }

  function WordRows(ws: seq<int>): (rows: seq<seq<byte>>)
    requires AllSigned(ws)
    ensures |rows| == |ws|
    ensures forall i :: 0 <= i < |rows| ==> |rows[i]| == 4 && AsInt32(Be32(rows[i], 0)) == ws[i]
  {
    seq(|ws|, i requires 0 <= i < |ws| => Word(ws[i]))
  }

  function StcoBytes(offsets: seq<int>): seq<byte>
    requires |offsets| < TWO_31 && AllSigned(offsets)
  {
    RowsBytes(WordRows(offsets))
  }

  /** The offsets, of which the first 128 are kept, and where they all stand. */
  lemma StcoRead(offsets: seq<int>, p: int, v: TrackView)
    requires |offsets| < TWO_31 && AllSigned(offsets)
    ensures var s, n := StcoBytes(offsets), Min(|offsets|, MAX_NUM_STCO_LOAD);
      && LeafOk(Stco, s) && |s| == 8 + 4 * |offsets| && Words(s, 8, 4, |offsets|) == offsets
      && Table(Stco, s, p, v) == v.(chunkCount := |offsets|, offsetsAt := p + 8, offsets := offsets[..n])
  {
    hide StcoBytes, Words, Be32, EntriesOk, LastIsAudio;
    StcoWords(offsets);
    WordsPrefix(StcoBytes(offsets), 8, |offsets|, Min(|offsets|, MAX_NUM_STCO_LOAD));
  }

  lemma StcoWords(offsets: seq<int>)
    requires |offsets| < TWO_31 && AllSigned(offsets)
    ensures var s := StcoBytes(offsets);
      |s| == 8 + 4 * |offsets| && Count(s) == |offsets| && Words(s, 8, 4, |offsets|) == offsets
  {
    hide WordRows, RowsBytes, Joined, Word, Be32, Words, Count;
    var rows := WordRows(offsets);
    CountRead(rows);
    ColumnRead(FULL + Word(|rows|), rows, 4, 0, offsets);
  }

  /** A common size and the number of samples; the sizes one by one when there is
      no common one. */
  function StszBytes(common: int, count: nat, sizes: seq<int>): seq<byte>
    requires Signed32(common) && count < TWO_31 && AllSigned(sizes)
  {
    FULL + Word(common) + Word(count) + Joined(WordRows(sizes))
  }

  /** Sizes listed one by one are read where the table starts. */
  lemma StszRead(common: int, count: nat, sizes: seq<int>, p: int, v: TrackView)
    requires Signed32(common) && count < TWO_31 && AllSigned(sizes) && v.sizesAt == 0
    ensures var s := StszBytes(common, count, sizes);
      && LeafOk(Stsz, s) && |s| == 12 + 4 * |sizes| && Words(s, 12, 4, |sizes|) == sizes
      && Table(Stsz, s, p, v)
         == v.(sampleSize := common, sampleCount := count, sizesAt := if common == 0 then p + 12 else 0)
  {
    hide StszBytes, Words, Be32, EntriesOk, LastIsAudio, Count;
    StszWords(common, count, sizes);
  }

  lemma StszWords(common: int, count: nat, sizes: seq<int>)
    requires Signed32(common) && count < TWO_31 && AllSigned(sizes)
    ensures var s := StszBytes(common, count, sizes);
      && |s| == 12 + 4 * |sizes| && AsInt32(Be32(s, 4)) == common && AsInt32(Be32(s, 8)) == count
      && Words(s, 12, 4, |sizes|) == sizes
  {
    var s, head := StszBytes(common, count, sizes), FULL + Word(common) + Word(count);
    HeadWords(head, common, count, Joined(WordRows(sizes)));
    hide Be32, Words, WordRows, Joined, Word;
    ColumnRead(head, WordRows(sizes), 4, 0, sizes);
  }

  lemma HeadWords(head: seq<byte>, a: int, b: int, more: seq<byte>)
    requires Signed32(a) && Signed32(b) && head == FULL + Word(a) + Word(b)
    ensures |head| == 12 && AsInt32(Be32(head + more, 4)) == a && AsInt32(Be32(head + more, 8)) == b
  {
    var s := head + more;
    assert s[4..8] == Word(a) && s[8..12] == Word(b);
    assert Be32(s, 4) == Be32(s[4..8], 0) && Be32(s, 8) == Be32(s[8..12], 0);
  }
  // Sample descriptions.

  /** A sample entry: its name and what follows. */
  datatype Entry = Entry(name: seq<byte>, body: seq<byte>)

  predicate EntryFits(e: Entry) {
    |e.name| == 4 && 8 + |e.body| < TWO_31
  }

  predicate EntriesFit(es: seq<Entry>) {
    forall i :: 0 <= i < |es| ==> EntryFits(es[i])
  }

  predicate IsMp4a(e: Entry) {
    e.name == [0x6D, 0x70, 0x34, 0x61]
  }

  function EntryBytes(e: Entry): seq<byte>
    requires EntryFits(e)
  {
    Word(8 + |e.body|) + e.name + e.body
  }

  function Entries(es: seq<Entry>): seq<byte>
    requires EntriesFit(es)
  {
    if es == [] then [] else EntryBytes(es[0]) + Entries(es[1..])
  }

  function StsdBytes(es: seq<Entry>): seq<byte>
    requires EntriesFit(es) && |es| < TWO_31
  {
    FULL + Word(|es|) + Entries(es)
  }

  /** Every MPEG-4 audio entry, the first of them standing at a position, is
      accepted. */
  ghost predicate AudioAccepted(s: seq<byte>, at: nat, es: seq<Entry>)
    decreases |es|
  {
    es != [] ==>
      (IsMp4a(es[0]) ==> Mp4aVerdict(s, at + 8).Accepted?) && AudioAccepted(s, at + 8 + |es[0].body|, es[1..])
  }

  /** Only the name of that type of entry reads as it. */
  lemma Mp4aNameOnly(name: seq<byte>)
    requires |name| == 4
    ensures BoxNameToType(FromBytes(name)).Mp4a? <==> name == [0x6D, 0x70, 0x34, 0x61]
  {
    hide IsContainerName;
    AudioNames();
    if FromBytes(name) == "mp4a" {
      assert forall i :: 0 <= i < 4 ==> FromBytes(name)[i] == name[i] as char;
      assert "mp4a"[0] == 'm' && "mp4a"[1] == 'p' && "mp4a"[2] == '4' && "mp4a"[3] == 'a';
    }
  }

  lemma EntryHead(s: seq<byte>, at: nat, e: Entry, rest: seq<byte>)
    requires at <= |s| && EntryFits(e) && s[at..] == EntryBytes(e) + rest
    ensures at + 8 + |e.body| <= |s| && Be32(s, at) == 8 + |e.body| && s[at + 4..at + 8] == e.name
    ensures s[at + 8..] == e.body + rest && s[at + 8 + |e.body|..] == rest
  {
    var w, t := Word(8 + |e.body|), s[at..];
    assert t == w + e.name + e.body + rest;
    assert t[..4] == w && t[4..8] == e.name && t[8..] == e.body + rest && t[8 + |e.body|..] == rest;
    assert forall k :: 0 <= k < 4 ==> s[at + k] == t[k] == w[k];
    assert AsInt32(Be32(w, 0)) == 8 + |e.body| && Be32(s, at) == Be32(w, 0);
  }

  lemma EntryStep(s: seq<byte>, at: nat, size: nat, n: nat, audio: bool)
    requires at + 8 <= |s| && Be32(s, at) == size >= 8 && EntryVerdict(s, at).Accepted?
    requires EntriesOk(s, at + size, n) && EntriesAccepted(s, at + size, n)
    ensures EntriesOk(s, at, n + 1) && EntriesAccepted(s, at, n + 1)
    ensures LastIsAudio(s, at, n + 1, audio) == LastIsAudio(s, at + size, n, EntryType(s, at).Mp4a?)
  {
    hide EntryVerdict, EntryType, Be32;
  }

  lemma EntryRead(s: seq<byte>, at: nat, e: Entry)
    requires at + 8 <= |s| && s[at + 4..at + 8] == e.name && EntryFits(e)
    requires IsMp4a(e) ==> Mp4aVerdict(s, at + 8).Accepted?
    ensures EntryVerdict(s, at).Accepted? && (EntryType(s, at).Mp4a? <==> IsMp4a(e))
  {
    hide Mp4aVerdict, BoxNameToType, FromBytes;
    Mp4aNameOnly(e.name);
  }

  /** The entries are read to their end, and the last decides what the track is. */
  lemma {:induction false} EntriesRead(s: seq<byte>, at: nat, es: seq<Entry>, audio: bool)
    requires at <= |s| && EntriesFit(es) && s[at..] == Entries(es) && AudioAccepted(s, at, es)
    ensures EntriesOk(s, at, |es|) && EntriesAccepted(s, at, |es|)
    ensures LastIsAudio(s, at, |es|, audio) == if es == [] then audio else IsMp4a(es[|es| - 1])
    decreases |es|
  {
    hide *;
    if es == [] {
      NoEntries(s, at, audio);
    } else {
      FirstEntry(s, at, es);
      EntryHead(s, at, es[0], Entries(es[1..]));
      EntryRead(s, at, es[0]);
      EntriesRead(s, at + 8 + |es[0].body|, es[1..], IsMp4a(es[0]));
      EntryStep(s, at, 8 + |es[0].body|, |es| - 1, audio);
    }
  }

  lemma NoEntries(s: seq<byte>, at: nat, audio: bool)
    ensures EntriesOk(s, at, 0) && EntriesAccepted(s, at, 0) && LastIsAudio(s, at, 0, audio) == audio
  {
  }

  lemma FirstEntry(s: seq<byte>, at: nat, es: seq<Entry>)
    requires es != [] && EntriesFit(es) && AudioAccepted(s, at, es)
    ensures EntryFits(es[0]) && EntriesFit(es[1..]) && Entries(es) == EntryBytes(es[0]) + Entries(es[1..])
    ensures (IsMp4a(es[0]) ==> Mp4aVerdict(s, at + 8).Accepted?) && AudioAccepted(s, at + 8 + |es[0].body|, es[1..])
  {
    hide Mp4aVerdict, EntryBytes;
  }

  lemma StsdHead(es: seq<Entry>)
    requires EntriesFit(es) && |es| < TWO_31
    ensures var s := StsdBytes(es); 8 <= |s| && Count(s) == |es| && s[8..] == Entries(es)
  {
    var s := StsdBytes(es);
    assert s[4..8] == Word(|es|);
    assert Be32(s, 4) == Be32(s[4..8], 0);
  }

  /** So a track is an audio track exactly when its last entry is MPEG-4 audio. */
  lemma StsdRead(es: seq<Entry>, p: int, v: TrackView)
    requires EntriesFit(es) && |es| < TWO_31 && AudioAccepted(StsdBytes(es), 8, es)
    ensures var s := StsdBytes(es);
      && LeafOk(Stsd, s) && LeafAccepted(Stsd, s)
      && Table(Stsd, s, p, v) == v.(isAudio := if es == [] then v.isAudio else IsMp4a(es[|es| - 1]))
  {
    hide EntriesOk, EntriesAccepted, LastIsAudio, StsdBytes, Count, AudioAccepted, IsMp4a, EntriesFit, Words;
    StsdHead(es);
    EntriesRead(StsdBytes(es), 8, es, v.isAudio);
  }
  /** An MPEG-4 audio entry: 28 bytes of fields and an esds box. */
  function AudioEntry(fields: seq<byte>, esds: seq<byte>): Entry
    requires 8 + |esds| < TWO_31
  {
    Entry([0x6D, 0x70, 0x34, 0x61], fields + (Word(8 + |esds|) + [0x65, 0x73, 0x64, 0x73] + esds))
  }

  lemma FourParts(s: seq<byte>, at: nat, a: seq<byte>, w: seq<byte>, name: seq<byte>, x: seq<byte>)
    requires at <= |s| && |a| == 28 && |w| == |name| == 4 && s[at..] == a + w + name + x
    ensures at + 36 <= |s| && s[at + 28..at + 32] == w && s[at + 32..at + 36] == name && s == s[..at + 36] + x
  {
    var t := s[at..];
    assert t[28..32] == w && t[32..36] == name && t[36..] == x;
    assert s[at + 36..] == t[36..];
  }

  lemma AudioVerdict(s: seq<byte>, at: nat, fields: seq<byte>, esds: seq<byte>, rest: seq<byte>)
    requires |fields| == 28 && 8 + |esds| < TWO_31 && at <= |s|
    requires s[at..] == AudioEntry(fields, esds).body + rest
    ensures at + 36 <= |s| && s == s[..at + 36] + (esds + rest)
    ensures Mp4aVerdict(s, at) == EsdsVerdict(s, at + 36)
  {
    hide BoxNameToType, FromBytes, EsdsVerdict, Be32;
    var w, name: seq<byte> := Word(8 + |esds|), [0x65, 0x73, 0x64, 0x73];
    assert s[at..] == fields + w + name + (esds + rest);
    FourParts(s, at, fields, w, name, esds + rest);
    WordAt(s, at + 28, 8 + |esds|);
    AudioNames();
  }

  lemma WordAt(s: seq<byte>, p: nat, n: nat)
    requires n < TWO_31 && p + 4 <= |s| && s[p..p + 4] == Word(n)
    ensures Be32(s, p) == n
  {
    assert Be32(s, p) == Be32(s[p..p + 4], 0);
  }

  /** Written as ISO/IEC 14496-1 has it, and long enough, the entry is accepted. */
  lemma AudioEntryAccepted(s: seq<byte>, at: nat, fields: seq<byte>, rest: seq<byte>, version: seq<byte>,
                           id: seq<byte>, config: seq<byte>, specific: seq<byte>,
                           n: nat, j: nat, m: nat, k: nat, x: nat, i: nat)
    requires |fields| == 28 && |version| == 4 && |id| == 3 && |config| == 13 && j < 4 && k < 4 && i < 4
    requires Fits(n / 0x80, j) && Fits(m / 0x80, k) && Fits(x / 0x80, i)
    requires 20 <= n && 13 <= m
    requires var esds := EsdsBytes(version, id, config, specific, n, j, m, k, x, i);
      8 + |esds| < TWO_31 && at <= |s| && s[at..] == AudioEntry(fields, esds).body + rest
    ensures Mp4aVerdict(s, at) == Accepted
  {
    hide *;
    var esds := EsdsBytes(version, id, config, specific, n, j, m, k, x, i);
    AudioVerdict(s, at, fields, esds, rest);
    EsdsMore(version, id, config, specific, rest, n, j, m, k, x, i);
    EsdsAccepted(s[..at + 36], version, id, config, specific + rest, n, j, m, k, x, i);
  }
}
