// String literals: the two passes of parse_string in cJSON.c, and the UTF-8 that
// they produce.

module JsonStrings {
  import opened Bytes
  import opened JsonText

  // UTF-8.

  /** Largest value of one, two and three byte sequences, plus one. */
  function Width(uc: nat): nat {
    if uc < 0x80 then 1 else if uc < 0x800 then 2 else if uc < 0x10000 then 3 else 4
  }

  predicate CodePoint(uc: int) {
    0 < uc < 0x110000 && !(0xD800 <= uc < 0xE000)
  }

  function Continuation(uc: nat): chr {
    0x80 + uc % 0x40
  }

  function FirstByteMark(len: nat): nat {
    if len == 2 then 0xC0 else if len == 3 then 0xE0 else if len == 4 then 0xF0 else 0
  }

  function Utf8(uc: nat): (s: chars)
    requires 0 < uc < 0x110000
    ensures |s| == Width(uc)
  {
    if uc < 0x80 then [uc]
    else if uc < 0x800 then [0xC0 + uc / 0x40, Continuation(uc)]
    else if uc < 0x10000 then [0xE0 + uc / 0x1000, Continuation(uc / 0x40), Continuation(uc)]
    else [0xF0 + uc / 0x40000, Continuation(uc / 0x1000), Continuation(uc / 0x40), Continuation(uc)]
  }

  predicate IsContinuation(b: chr) {
    0x80 <= b < 0xC0
  }

  /** The code point of one UTF-8 sequence, read by the table of section 3 of
      RFC 3629; -1 when it is too long for its value, a surrogate, out of range
      or no sequence at all. */
  function Scalar(s: chars): int {
    if |s| == 1 && s[0] < 0x80 then s[0]
    else if |s| == 2 && 0xC0 <= s[0] < 0xE0 && IsContinuation(s[1]) then
      AtLeast(0x80, (s[0] as int - 0xC0) * 0x40 + (s[1] as int - 0x80))
    else if |s| == 3 && 0xE0 <= s[0] < 0xF0 && IsContinuation(s[1]) && IsContinuation(s[2]) then
      AtLeast(0x800, (s[0] as int - 0xE0) * 0x1000 + (s[1] as int - 0x80) * 0x40 + (s[2] as int - 0x80))
    else if |s| == 4 && 0xF0 <= s[0] < 0xF8 && IsContinuation(s[1]) && IsContinuation(s[2]) && IsContinuation(s[3]) then
      AtLeast(0x10000,
        (s[0] as int - 0xF0) * 0x40000 + (s[1] as int - 0x80) * 0x1000 + (s[2] as int - 0x80) * 0x40
        + (s[3] as int - 0x80))
    else -1
  }

  function AtLeast(least: int, uc: int): int {
    if least <= uc && CodePoint(uc) then uc else -1
  }

  /** The bytes written for a code point are its one UTF-8 form. */
  lemma Utf8Correct(uc: nat, s: chars)
    requires CodePoint(uc)
    ensures s == Utf8(uc) <==> Scalar(s) == uc
  {
    Utf8Read(uc);
    if Scalar(s) == uc { Utf8Unique(s); }
  }

  lemma Utf8Read(uc: nat)
    requires CodePoint(uc)
    ensures Scalar(Utf8(uc)) == uc
  {
    var a, b, c := uc / 0x40, uc / 0x1000, uc / 0x40000;
    assert a / 0x40 == b && b / 0x40 == c;
    assert uc == a * 0x40 + uc % 0x40 && a == b * 0x40 + a % 0x40 && b == c * 0x40 + b % 0x40;
  }

  lemma Utf8Unique(s: chars)
    requires Scalar(s) > 0
    ensures s == Utf8(Scalar(s))
  {
    var uc := Scalar(s);
    if |s| == 2 {
      SplitAt(uc, s[0] as int - 0xC0, s[1] as int - 0x80);
    } else if |s| == 3 {
      SplitAt(uc / 0x40, s[0] as int - 0xE0, s[1] as int - 0x80);
      SplitAt(uc, (s[0] as int - 0xE0) * 0x40 + (s[1] as int - 0x80), s[2] as int - 0x80);
    } else if |s| == 4 {
      SplitAt(uc, (s[0] as int - 0xF0) * 0x1000 + (s[1] as int - 0x80) * 0x40 + (s[2] as int - 0x80),
        s[3] as int - 0x80);
      SplitAt(uc / 0x40, (s[0] as int - 0xF0) * 0x40 + (s[1] as int - 0x80), s[2] as int - 0x80);
      SplitAt(uc / 0x1000, s[0] as int - 0xF0, s[1] as int - 0x80);
    }
  }

  lemma SplitAt(n: int, q: int, r: int)
    requires 0 <= r < 0x40
    ensures n == q * 0x40 + r ==> n / 0x40 == q && n % 0x40 == r
  {
  }

  // Hexadecimal.

  function HexValue(c: chr): int {
    if ZERO <= c <= NINE then c - ZERO
    else if 65 <= c <= 70 then 10 + c - 65
    else if LOWER_A <= c <= 102 then 10 + c - LOWER_A
    else -1
  }

  /** Both cases are read, and nothing else. */
  lemma HexValueIs(c: chr, d: nat)
    requires d < 16
    ensures HexValue(c) == d <==> (if d < 10 then c == 48 + d else c == 97 + d - 10 || c == 65 + d - 10)
  {
  }

  predicate HexAhead(s: CString) {
    s.Char? && HexValue(s.head) >= 0
  }

  predicate FourHex(s: CString) {
    HexAhead(s) && HexAhead(s.tail) && HexAhead(s.tail.tail) && HexAhead(s.tail.tail.tail)
  }

  predicate PlainAhead(s: CString) {
    s.Char? && s.head != QUOTE && s.head != BACKSLASH
  }

  /** Four characters that neither end the literal nor start an escape. */
  predicate FourAhead(s: CString) {
    PlainAhead(s) && PlainAhead(s.tail) && PlainAhead(s.tail.tail) && PlainAhead(s.tail.tail.tail)
  }

  /** Four hexadecimal digits as a number; 0 if one of them is not. */
  function Hex4(s: CString): (u: nat)
    ensures u < 0x10000
  {
    if FourHex(s) then
      HexValue(s.head) * 0x1000 + HexValue(s.tail.head) * 0x100 + HexValue(s.tail.tail.head) * 0x10
        + HexValue(s.tail.tail.tail.head)
    else 0
  }

  function Skip4(s: CString): CString
    requires FourAhead(s)
  {
    s.tail.tail.tail.tail
  }

  // The first pass.

  predicate Stops(s: CString) {
    s.End? || s.head == QUOTE
  }

  /** Whether every escape up to the closing quote is whole: a \u one has four
      characters, hexadecimal or not, inside the literal. */
  predicate Escapes(s: CString) {
    Stops(s)
    || (if s.head != BACKSLASH then Escapes(s.tail)
        else s.tail.Char? && (if s.tail.head == LOWER_U then FourAhead(s.tail.tail) && Escapes(Skip4(s.tail.tail))
                              else Escapes(s.tail.tail)))
  }

  /** Where the first pass stops. */
  function Closing(s: CString): CString {
    if Stops(s) then s
    else if s.head == BACKSLASH && s.tail.Char? then Closing(s.tail.tail)
    else Closing(s.tail)
  }

  /** The length it counts. */
  function Counted(s: CString): nat {
    if Stops(s) then 0
    else if s.head == BACKSLASH && s.tail.Char? then 1 + Counted(s.tail.tail)
    else 1 + Counted(s.tail)
  }

  // The second pass, one character or escape at a time.

  function ShortEscape(letter: chr): chr {
    if letter == 98 then 8
    else if letter == 102 then 12
    else if letter == 110 then LF
    else if letter == 114 then CR
    else if letter == 116 then TAB
    else letter
  }

  /** The letters of section 7 of RFC 8259. */
  lemma ShortEscapesAre()
    ensures ShortEscape(98) == 8 && ShortEscape(102) == 12 && ShortEscape(110) == 10
    ensures ShortEscape(114) == 13 && ShortEscape(116) == 9
    ensures ShortEscape(34) == 34 && ShortEscape(92) == 92 && ShortEscape(47) == 47
  {
  }

  predicate High(uc: int) { 0xD800 <= uc < 0xDC00 }
  predicate Low(uc: int) { 0xDC00 <= uc < 0xE000 }

  function Combined(high: nat, low: nat): (uc: nat)
    requires High(high) && Low(low)
    ensures 0x10000 <= uc < 0x110000
  {
    0x10000 + high % 0x400 * 0x400 + low % 0x400
  }

  predicate UnitAhead(s: CString) {
    s.Char? && s.head == BACKSLASH && s.tail.Char? && s.tail.head == LOWER_U
  }

  /** What a \u escape turns into, given what follows its four digits. */
  function UnitText(uc: nat, next: CString): chars
    requires uc < 0x10000
  {
    if Low(uc) || uc == 0 then []
    else if High(uc) then
      if !UnitAhead(next) then []
      else
        var low := Hex4(next.tail.tail);
        if Low(low) then Utf8(Combined(uc, low)) else []
    else Utf8(uc)
  }

  /** Whether it takes the escape that follows with it. */
  predicate TakesNext(uc: nat, next: CString) {
    High(uc) && UnitAhead(next)
  }

  function Produced(s: CString): chars
    requires !Stops(s) && Escapes(s)
  {
    if s.head != BACKSLASH then [s.head]
    else if s.tail.head != LOWER_U then [ShortEscape(s.tail.head)]
    else UnitText(Hex4(s.tail.tail), Skip4(s.tail.tail))
  }

  function After(s: CString): (r: CString)
    requires !Stops(s) && Escapes(s)
    ensures r < s && Escapes(r)
  {
    if s.head != BACKSLASH then s.tail
    else if s.tail.head != LOWER_U then s.tail.tail
    else
      var next := Skip4(s.tail.tail);
      assert Escapes(next);
      if TakesNext(Hex4(s.tail.tail), next) then Skip4(next.tail.tail) else next
  }

  /** The string a literal stands for. */
  function Decoded(s: CString): chars
    requires Escapes(s)
  {
    if Stops(s) then [] else Produced(s) + Decoded(After(s))
  }

  /** Where the second pass stops. */
  function Ended(s: CString): CString
    requires Escapes(s)
  {
    if Stops(s) then s else Ended(After(s))
  }

  lemma FourPlain(s: CString)
    requires FourAhead(s)
    ensures Closing(s) == Closing(Skip4(s)) && Counted(s) == 4 + Counted(Skip4(s))
    ensures Escapes(s) == Escapes(Skip4(s))
  {
    var a := s.tail;
    var b := a.tail;
    assert Closing(a) == Closing(b) && Closing(b) == Closing(b.tail);
    assert Escapes(a) == Escapes(b) && Escapes(b) == Escapes(b.tail);
    assert Counted(a) == 1 + Counted(b) && Counted(b) == 1 + Counted(b.tail);
  }

  /** A step of the second pass keeps the closing quote and fits what the
      first pass counted for it. */
  lemma StepFits(s: CString)
    requires !Stops(s) && Escapes(s)
    ensures Closing(After(s)) == Closing(s)
    ensures |Produced(s)| + Counted(After(s)) <= Counted(s)
  {
    hide FourAhead, Hex4;
    if s.head == BACKSLASH && s.tail.head == LOWER_U {
      var next := Skip4(s.tail.tail);
      FourPlain(s.tail.tail);
      if TakesNext(Hex4(s.tail.tail), next) { FourPlain(next.tail.tail); }
    }
  }

  /** The second pass ends at the same quote and never outgrows the count. */
  lemma {:induction false} PassesAgree(s: CString)
    requires Escapes(s)
    ensures Ended(s) == Closing(s)
    ensures |Decoded(s)| <= Counted(s)
    decreases s
  {
    if !Stops(s) {
      StepFits(s);
      PassesAgree(After(s));
    }
  }

  // parse_string itself.

  /** Undefined stands for a \u escape with a quote, a backslash or the end of
      the text among its four characters: there the two passes can part, and the
      C code can read past the end of the text. */
  datatype Outcome<T> = Done(value: T, rest: CString) | Fail(at: CString) | Undefined

  function PastQuote(s: CString): CString {
    if s.End? then s else s.tail
  }

  /** Result of parsing a string literal at s: it must start with a quote, and
      may end with the text. */
  function StringAt(s: CString): Outcome<chars> {
    if s.End? || s.head != QUOTE then Fail(s)
    else if !Escapes(s.tail) then Undefined
    else Done(Decoded(s.tail), PastQuote(Ended(s.tail)))
  }

  /** Writes the UTF-8 form of uc at ptr2, last byte first. */
  method WriteUtf8(out: array<byte>, ptr2: nat, uc: nat) returns (next: nat)
    requires 0 < uc < 0x110000 && ptr2 + Width(uc) <= out.Length
    modifies out
    ensures next == ptr2 + Width(uc)
    ensures out[..next] == old(out[..ptr2]) + Utf8(uc)
  {
    var len := if uc < 0x80 then 1 else if uc < 0x800 then 2 else if uc < 0x10000 then 3 else 4;
    next := ptr2 + len;
    var at, u: nat := next, uc;
    if len >= 4 {
      at := at - 1;
      out[at] := Continuation(u);
      u := u / 0x40;
    }
    if len >= 3 {
      at := at - 1;
      out[at] := Continuation(u);
      u := u / 0x40;
    }
    if len >= 2 {
      at := at - 1;
      out[at] := Continuation(u);
      u := u / 0x40;
    }
    at := at - 1;
    out[at] := u + FirstByteMark(len);
  }

  /** Decodes a \u escape; s is behind its four digits. */
  method ParseUnit(out: array<byte>, ptr2: nat, unit: nat, s: CString) returns (next: nat, rest: CString)
    requires unit < 0x10000 && ptr2 + |UnitText(unit, s)| <= out.Length
    requires UnitAhead(s) ==> FourAhead(s.tail.tail)
    modifies out
    ensures next == ptr2 + |UnitText(unit, s)|
    ensures out[..next] == old(out[..ptr2]) + UnitText(unit, s)
    ensures rest == if TakesNext(unit, s) then Skip4(s.tail.tail) else s
  {
    hide FourAhead, Utf8, Hex4;
    next, rest := ptr2, s;
    if Low(unit) || unit == 0 { return; }
    var uc := unit;
    if High(unit) {
      if !UnitAhead(s) { return; }
      var low := Hex4(s.tail.tail);
      rest := Skip4(s.tail.tail);
      if !Low(low) { return; }
      uc := Combined(unit, low);
    }
    next := WriteUtf8(out, ptr2, uc);
  }

  /** The first pass: how long the string can be at most. */
  method CountLength(s: CString) returns (len: nat)
    requires Escapes(s)
    ensures len == Counted(s)
  {
    var ptr := s;
    len := 0;
    while !Stops(ptr)
      invariant Escapes(ptr) && len + Counted(ptr) == Counted(s)
      decreases ptr
    {
      len := len + 1;
      var c := ptr.head;
      ptr := ptr.tail;
      if c == BACKSLASH {
        if ptr.head == LOWER_U { FourPlain(ptr.tail); }
        ptr := ptr.tail;
      }
    }
  }

  /** One character or escape of the second pass. */
  method DecodeOne(out: array<byte>, ptr2: nat, ptr: CString) returns (next: nat, rest: CString)
    requires !Stops(ptr) && Escapes(ptr) && ptr2 + |Produced(ptr)| <= out.Length
    modifies out
    ensures rest == After(ptr) && next == ptr2 + |Produced(ptr)|
    ensures out[..next] == old(out[..ptr2]) + Produced(ptr)
  {
    hide FourAhead, Hex4, UnitText;
    if ptr.head != BACKSLASH {
      out[ptr2] := ptr.head;
      return ptr2 + 1, ptr.tail;
    }
    var c := ptr.tail.head;
    if c == LOWER_U {
      next, rest := ParseUnit(out, ptr2, Hex4(ptr.tail.tail), Skip4(ptr.tail.tail));
    } else {
      out[ptr2] := ShortEscape(c);
      next, rest := ptr2 + 1, ptr.tail.tail;
    }
  }

  lemma DecodedStep(done: seq<byte>, s: CString, all: chars)
    requires !Stops(s) && Escapes(s) && done + Decoded(s) == all
    ensures done + Produced(s) + Decoded(After(s)) == all
  {
    Assoc<byte>(done, Produced(s), Decoded(After(s)));
    hide Escapes, Produced, After;
  }

  /** The second pass over a literal whose counted length fits the buffer. */
  method DecodeInto(out: array<byte>, s: CString) returns (ptr2: nat, rest: CString)
    requires Escapes(s) && Counted(s) < out.Length
    modifies out
    ensures rest == Ended(s) && ptr2 == |Decoded(s)| < out.Length
    ensures out[..ptr2] == Decoded(s) && out[ptr2] == 0
  {
    ptr2, rest := 0, s;
    while !Stops(rest)
      invariant Escapes(rest) && ptr2 + Counted(rest) <= Counted(s)
      invariant out[..ptr2] + Decoded(rest) == Decoded(s)
      invariant Ended(rest) == Ended(s)
      decreases rest
    {
      hide Produced, After, Counted, Escapes;
      StepFits(rest);
      DecodedStep(out[..ptr2], rest, Decoded(s));
      ptr2, rest := DecodeOne(out, ptr2, rest);
    }
    assert out[..ptr2] == Decoded(s);
    out[ptr2] := 0;
  }

  /** Both passes over a literal: the buffer of the counted length is enough. */
  method ParseString(s: CString) returns (r: Outcome<chars>)
    ensures r == StringAt(s)
  {
    if s.End? || s.head != QUOTE { return Fail(s); }
    if !Escapes(s.tail) { return Undefined; }
    var len := CountLength(s.tail);
    var out := new byte[len + 1];
    var ptr2, rest := DecodeInto(out, s.tail);
    hide Decoded, Escapes;
    var text: chars := out[..ptr2];
    r := Done(text, PastQuote(rest));
  }
}
