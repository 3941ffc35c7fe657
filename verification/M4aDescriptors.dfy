// The descriptors inside an esds box (sections 7.2.6 and 8.3.3 of ISO/IEC 14496-1):
// which of them the parser accepts, and that every one that is written as the
// standard has it is read.

module M4aDescriptors {
  import opened Bytes

  const ES_DESCR_TAG: int := 3
  const DECODER_CONFIG_DESCR_TAG: int := 4
  const DEC_SPECIFIC_DESCR_TAG: int := 5
  const MIN_ES_DESCR_LENGTH: int := 20
  const MIN_DECODER_CONFIG_DESCR_LENGTH: int := 13

  /** What the reader of a sample entry finds. */
  datatype Verdict = Accepted | Refused | CutShort

  /** A descriptor length (section 8.3.3 of ISO/IEC 14496-1): up to four bytes
      of seven bits each, all but the last marked. None when s ends first. */
  datatype Length = Length(value: nat, next: nat) | NoLength

  function DescrLength(s: seq<byte>, at: nat, n: nat, value: nat): (d: Length)
    requires n < 4
    ensures d.Length? ==> at < d.next <= at + 4 - n && d.next <= |s|
    decreases 4 - n
  {
    if at >= |s| then NoLength
    else
      var b := s[at] as int;
      var v := value * 0x80 + b % 0x80;
      if b >= 0x80 && n + 1 < 4 then DescrLength(s, at + 1, n + 1, v) else Length(v, at + 1)
  }

  /** Whether the contents of an esds box at position at are accepted: an ES
      descriptor long enough, holding a decoder configuration long enough,
      holding a decoder-specific part. */
  function EsdsVerdict(s: seq<byte>, at: nat): Verdict {
    if at + 5 > |s| then CutShort
    else
      var es := DescrLength(s, at + 5, 0, 0);
      if es.NoLength? then CutShort
      else if es.value < MIN_ES_DESCR_LENGTH then Refused
      else ConfigVerdict(s, es.next + if s[at + 4] == ES_DESCR_TAG then 3 else 2)
  }

  function ConfigVerdict(s: seq<byte>, at: nat): Verdict {
    if at >= |s| then CutShort
    else if s[at] != DECODER_CONFIG_DESCR_TAG then Refused
    else
      var config := DescrLength(s, at + 1, 0, 0);
      if config.NoLength? then CutShort
      else if config.value < MIN_DECODER_CONFIG_DESCR_LENGTH then Refused
      else if config.next + 13 >= |s| then CutShort
      else if s[config.next + 13] != DEC_SPECIFIC_DESCR_TAG then Refused
      else if DescrLength(s, config.next + 14, 0, 0).NoLength? then CutShort
      else Accepted
  }

  /** n fits j bytes of seven bits. */
  predicate Fits(n: nat, j: nat) {
    if j == 0 then n == 0 else Fits(n / 0x80, j - 1)
  }

  /** j marked bytes of seven bits each. */
  function Marked(n: nat, j: nat): (s: seq<byte>)
    ensures |s| == j
  {
    if j == 0 then [] else Marked(n / 0x80, j - 1) + [0x80 + n % 0x80]
  }

  /** A length written in j + 1 bytes. */
  function LengthBytes(n: nat, j: nat): (s: seq<byte>)
    ensures |s| == j + 1
  {
    Marked(n / 0x80, j) + [n % 0x80]
  }

  lemma OneMarked(s: seq<byte>, at: nat, k: nat, n: nat)
    requires k + 1 < 4 && at < |s| && s[at] == 0x80 + n % 0x80
    ensures DescrLength(s, at, k, n / 0x80) == DescrLength(s, at + 1, k + 1, n)
  {
    assert n / 0x80 * 0x80 + n % 0x80 == n;
  }

  lemma {:induction false} MarkedRead(s: seq<byte>, at: nat, n: nat, j: nat)
    requires j < 4 && Fits(n, j) && at + j <= |s| && s[at..at + j] == Marked(n, j)
    ensures DescrLength(s, at, 0, 0) == DescrLength(s, at + j, j, n)
  {
    hide DescrLength;
    if j > 0 {
      assert s[at + j - 1] == s[at..at + j][j - 1] == 0x80 + n % 0x80;
      assert s[at..at + j - 1] == s[at..at + j][..j - 1];
      MarkedRead(s, at, n / 0x80, j - 1);
      OneMarked(s, at + j - 1, j - 1, n);
    }
  }

  /** A length written in one to four bytes is read back. */
  lemma LengthRoundTrip(before: seq<byte>, n: nat, j: nat, after: seq<byte>)
    requires j < 4 && Fits(n / 0x80, j)
    ensures DescrLength(before + LengthBytes(n, j) + after, |before|, 0, 0) == Length(n, |before| + j + 1)
  {
    var s, at := before + LengthBytes(n, j) + after, |before|;
    assert s[at..at + j] == Marked(n / 0x80, j) && s[at + j] == n % 0x80;
    MarkedRead(s, at, n / 0x80, j);
    hide Marked, LengthBytes, Fits;
    assert n / 0x80 * 0x80 + n % 0x80 == n;
  }

  /** A descriptor: its tag, its length in j + 1 bytes, and what follows. */
  function Descriptor(tag: byte, n: nat, j: nat, contents: seq<byte>): seq<byte> {
    [tag] + LengthBytes(n, j) + contents
  }

  /** The contents of an esds box: version and flags, then an ES descriptor of
      the announced length that holds an identifier and flags (three bytes) and
      a decoder configuration of thirteen bytes of fields, which holds a
      decoder-specific part. The tags of the three are 3, 4 and 5. */
  function EsdsBytes(version: seq<byte>, id: seq<byte>, fields: seq<byte>, specific: seq<byte>,
                     n: nat, j: nat, config: nat, k: nat, m: nat, i: nat): seq<byte>
  {
    version + Descriptor(3, n, j,
      id + Descriptor(4, config, k, fields + Descriptor(5, m, i, specific)))
  }

  lemma DescriptorShape(before: seq<byte>, tag: byte, n: nat, j: nat, contents: seq<byte>)
    requires j < 4 && Fits(n / 0x80, j)
    ensures var s := before + Descriptor(tag, n, j, contents);
      && |before| < |s| && s[|before|] == tag
      && DescrLength(s, |before| + 1, 0, 0) == Length(n, |before| + j + 2)
      && s == before + [tag] + LengthBytes(n, j) + contents
  {
    hide LengthBytes, DescrLength, Fits;
    var s := before + Descriptor(tag, n, j, contents);
    assert s == before + [tag] + LengthBytes(n, j) + contents;
    LengthRoundTrip(before + [tag], n, j, contents);
  }

  lemma ConfigAccepted(before: seq<byte>, fields: seq<byte>, specific: seq<byte>, config: nat, k: nat, m: nat, i: nat)
    requires |fields| == 13 && k < 4 && i < 4 && Fits(config / 0x80, k) && Fits(m / 0x80, i)
    ensures var third := fields + Descriptor(DEC_SPECIFIC_DESCR_TAG, m, i, specific);
      var v := ConfigVerdict(before + Descriptor(DECODER_CONFIG_DESCR_TAG, config, k, third), |before|);
      v == if MIN_DECODER_CONFIG_DESCR_LENGTH <= config then Accepted else Refused
  {
    hide DescrLength, LengthBytes, Fits, Descriptor;
    var last := Descriptor(DEC_SPECIFIC_DESCR_TAG, m, i, specific);
    DescriptorShape(before, DECODER_CONFIG_DESCR_TAG, config, k, fields + last);
    var b := before + [DECODER_CONFIG_DESCR_TAG] + LengthBytes(config, k);
    Assoc(b, fields, last);
    DescriptorShape(b + fields, DEC_SPECIFIC_DESCR_TAG, m, i, specific);
  }

  /** In whatever of the four forms the lengths are written, an esds box is
      accepted exactly when the two outer lengths reach the minimum. */
  lemma EsdsAccepted(before: seq<byte>, version: seq<byte>, id: seq<byte>, fields: seq<byte>, specific: seq<byte>,
                     n: nat, j: nat, config: nat, k: nat, m: nat, i: nat)
    requires |version| == 4 && |id| == 3 && |fields| == 13 && j < 4 && k < 4 && i < 4
    requires Fits(n / 0x80, j) && Fits(config / 0x80, k) && Fits(m / 0x80, i)
    ensures EsdsVerdict(before + EsdsBytes(version, id, fields, specific, n, j, config, k, m, i), |before|) ==
              if 20 <= n && 13 <= config then Accepted else Refused
  {
    hide DescrLength, LengthBytes, Fits, Descriptor, ConfigVerdict;
    var third := fields + Descriptor(DEC_SPECIFIC_DESCR_TAG, m, i, specific);
    var second := Descriptor(DECODER_CONFIG_DESCR_TAG, config, k, third);
    var first := Descriptor(ES_DESCR_TAG, n, j, id + second);
    Assoc(before, version, first);
    DescriptorShape(before + version, ES_DESCR_TAG, n, j, id + second);
    var b := before + version + [ES_DESCR_TAG] + LengthBytes(n, j);
    Assoc(b, id, second);
    ConfigAccepted(b + id, fields, specific, config, k, m, i);
  }

  /** Bytes behind an esds box are bytes behind its last descriptor. */
  lemma EsdsMore(version: seq<byte>, id: seq<byte>, fields: seq<byte>, specific: seq<byte>, more: seq<byte>,
                 n: nat, j: nat, config: nat, k: nat, m: nat, i: nat)
    ensures EsdsBytes(version, id, fields, specific, n, j, config, k, m, i) + more
         == EsdsBytes(version, id, fields, specific + more, n, j, config, k, m, i)
  {
    hide LengthBytes;
    DescriptorMore(DEC_SPECIFIC_DESCR_TAG, m, i, specific, more);
    var third := Descriptor(DEC_SPECIFIC_DESCR_TAG, m, i, specific);
    Assoc(fields, third, more);
    DescriptorMore(DECODER_CONFIG_DESCR_TAG, config, k, fields + third, more);
    var second := Descriptor(DECODER_CONFIG_DESCR_TAG, config, k, fields + third);
    Assoc(id, second, more);
    DescriptorMore(ES_DESCR_TAG, n, j, id + second, more);
    Assoc(version, Descriptor(ES_DESCR_TAG, n, j, id + second), more);
    hide Descriptor;
  }

  lemma DescriptorMore(tag: byte, n: nat, j: nat, contents: seq<byte>, more: seq<byte>)
    ensures Descriptor(tag, n, j, contents) + more == Descriptor(tag, n, j, contents + more)
  {
    hide LengthBytes;
    Assoc([tag] + LengthBytes(n, j), contents, more);
  }
}
