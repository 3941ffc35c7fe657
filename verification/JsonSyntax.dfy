// JSON texts, those of RFC 8259 and those cJSON.c takes besides, and the tree
// each one stands for.

module JsonSyntax {
  import opened Bytes
  import opened Powers
  import opened JsonText
  import opened JsonStrings
  import opened JsonParser

  function Join(a: CString, rest: CString): CString {
    if a.End? then rest else Char(a.head, Join(a.tail, rest))
  }

  /** The texts of the standard; the wider ones the parser takes; those of the
      standard with comments in their white space. */
  datatype Grammar = Rfc8259 | Cjson | Commented

  // White space and comments.

  const STAR: chr := 42

  /** White space: the four characters of section 2, or everything up to the space. */
  predicate White(c: chr, g: Grammar) {
    c == SPACE || c == TAB || c == LF || c == CR || (g.Cjson? && c <= SPACE)
  }

  /** White space and comments. */
  datatype Gap =
    | NoGap
    | WhiteGap(c: chr, more: Gap)
    | LineGap(text: CString, more: Gap)       // from two slashes to the end of the line
    | BlockGap(text: CString, more: Gap)      // between slash-star and star-slash

  predicate OneLine(text: CString) {
    text.Char? ==> text.head != LF && OneLine(text.tail)
  }

  predicate NoClosing(text: CString) {
    text.Char? ==> !(text.head == STAR && At(text.tail, SLASH)) && NoClosing(text.tail)
  }

  /** A block comment whose text starts with a slash is left out: see
      SlashComment in JsonMinify. */
  predicate GapForm(gap: Gap) {
    match gap
    case NoGap => true
    case WhiteGap(c, more) => White(c, Commented) && GapForm(more)
    case LineGap(text, more) => OneLine(text) && GapForm(more)
    case BlockGap(text, more) => NoClosing(text) && !At(text, SLASH) && GapForm(more)
  }

  function GapThen(gap: Gap, rest: CString): CString {
    match gap
    case NoGap => rest
    case WhiteGap(c, more) => Char(c, GapThen(more, rest))
    case LineGap(text, more) => Char(SLASH, Char(SLASH, Join(text, Char(LF, GapThen(more, rest)))))
    case BlockGap(text, more) =>
      Char(SLASH, Char(STAR, Join(text, Char(STAR, Char(SLASH, GapThen(more, rest))))))
  }

  ghost predicate Blank(s: CString, g: Grammar) {
    if g.Commented? then exists gap :: GapForm(gap) && s == GapThen(gap, End)
    else s.Char? ==> White(s.head, g) && Blank(s.tail, g)
  }

  lemma {:induction false} SkipJoin(blank: CString, rest: CString)
    requires Blank(blank, Cjson)
    ensures Skip(Join(blank, rest)) == Skip(rest)
  {
    if blank.Char? { SkipJoin(blank.tail, rest); }
  }

  lemma {:induction false} BlankGap(s: CString) returns (gap: Gap)
    requires Blank(s, Rfc8259)
    ensures GapForm(gap) && s == GapThen(gap, End)
  {
    if s.End? { return NoGap; }
    gap := BlankGap(s.tail);
    gap := WhiteGap(s.head, gap);
  }

  lemma {:induction false} BlankCjson(s: CString)
    requires Blank(s, Rfc8259)
    ensures Blank(s, Cjson)
  {
    if s.Char? { BlankCjson(s.tail); }
  }

  lemma BlankWider(s: CString, g: Grammar)
    requires Blank(s, Rfc8259)
    ensures Blank(s, g)
  {
    BlankCjson(s);
    var gap := BlankGap(s);
  }

  // Numbers.

  predicate Digits(s: CString) {
    s.Char? ==> DigitAt(s) && Digits(s.tail)
  }

  /** Positional value: each digit times the power of ten of its place. */
  function Positional(s: CString): int {
    if s.End? then 0 else (s.head as int - ZERO as int) * Pow10(Len(s.tail)) + Positional(s.tail)
  }

  datatype Exponent = NoExponent | Exponent(mark: chr, sign: CString, digits: CString)

  datatype Numeral = Numeral(negative: bool, whole: CString, fraction: CString, exponent: Exponent)

  /** The parser also takes an exponent without digits. */
  predicate ExponentForm(e: Exponent, g: Grammar) {
    e.Exponent? ==>
      && (e.mark == 101 || e.mark == 69)
      && (e.sign == End || e.sign == Char(PLUS, End) || e.sign == Char(MINUS, End))
      && Digits(e.digits) && (e.digits.End? ==> g.Cjson?)
  }

  /** A whole part has a digit and no leading zero; the parser also takes one
      zero before other digits, and no digit at all behind a minus. */
  predicate WholeForm(negative: bool, whole: CString, g: Grammar) {
    && Digits(whole)
    && if g.Cjson? then (whole.End? ==> negative) && !(At(whole, ZERO) && At(whole.tail, ZERO))
       else whole.Char? && (whole.head == ZERO ==> whole.tail.End?)
  }

  /** An empty fraction stands for none. */
  predicate NumeralForm(n: Numeral, g: Grammar) {
    WholeForm(n.negative, n.whole, g) && Digits(n.fraction) && ExponentForm(n.exponent, g)
  }

  function ExponentThen(e: Exponent, rest: CString): CString {
    if e.NoExponent? then rest else Char(e.mark, Join(e.sign, Join(e.digits, rest)))
  }

  function FractionThen(f: CString, rest: CString): CString {
    if f.End? then rest else Char(DOT, Join(f, rest))
  }

  function NumeralThen(n: Numeral, rest: CString): CString {
    var digits := Join(n.whole, FractionThen(n.fraction, ExponentThen(n.exponent, rest)));
    if n.negative then Char(MINUS, digits) else digits
  }

  function ExponentMeaning(e: Exponent): int {
    if e.NoExponent? then 0 else Signed(e.sign == Char(MINUS, End), Positional(e.digits))
  }

  /** All digits without the point, and the power of ten that puts it back. */
  function NumeralMeaning(n: Numeral): Json {
    Number(Signed(n.negative, Positional(n.whole) * Pow10(Len(n.fraction)) + Positional(n.fraction)),
           ExponentMeaning(n.exponent) - Len(n.fraction))
  }

  predicate ExponentEnds(e: Exponent, rest: CString)
    requires e.Exponent?
  {
    !DigitAt(rest) && (e.sign.End? && e.digits.End? ==> !At(rest, PLUS) && !At(rest, MINUS))
  }

  predicate WholeEnds(whole: CString, rest: CString) {
    DigitAt(rest) ==> whole == Char(ZERO, End) && rest.head == ZERO
  }

  /** That the text behind a number does not continue it. Two zeros are two
      numbers. */
  predicate NumeralEnds(n: Numeral, rest: CString) {
    if n.exponent.Exponent? then ExponentEnds(n.exponent, rest)
    else
      && !ExponentAt(rest)
      && if n.fraction.Char? then !DigitAt(rest) else !FractionAt(rest) && WholeEnds(n.whole, rest)
  }

  /** What may follow a value in an array or an object, and so continues none. */
  predicate Follows(rest: CString) {
    rest.Char? ==> rest.head <= SPACE || rest.head == COMMA || rest.head == RBRACKET || rest.head == RBRACE
  }

  lemma DigitStep(n: int, d: int, p: int, r: int)
    ensures (n * 10 + d) * p + r == n * (10 * p) + (d * p + r)
  {
    assert (n * 10 + d) * p == n * 10 * p + d * p;
  }

  lemma {:induction false} DigitsEnd(digits: CString, rest: CString)
    requires Digits(digits) && !DigitAt(rest)
    ensures PastDigits(Join(digits, rest)) == rest && DigitCount(Join(digits, rest)) == Len(digits)
    decreases digits
  {
    if digits.Char? { DigitsEnd(digits.tail, rest); }
  }

  lemma PositionalStep(digits: CString)
    requires digits.Char? && Digits(digits)
    ensures Digits(digits.tail) && Pow10(Len(digits)) == 10 * Pow10(Len(digits.tail))
    ensures Positional(digits) == (digits.head as int - ZERO as int) * Pow10(Len(digits.tail)) + Positional(digits.tail)
  {
  }

  lemma AccumulatedStep(n: int, s: CString)
    ensures DigitAt(s) ==> Accumulated(n, s) == Accumulated(n * 10 + (s.head as int - ZERO as int), s.tail)
  {
  }

  lemma JoinStep(a: CString, rest: CString)
    ensures a.Char? ==> Join(a, rest) == Char(a.head, Join(a.tail, rest))
  {
  }

  lemma NoDigits(n: int, rest: CString)
    ensures !DigitAt(rest) ==> Accumulated(n, Join(End, rest)) == n && Positional(End) == 0 && Pow10(Len(End)) == 1
  {
  }

  /** Appending digits one by one gives the positional value. */
  lemma {:induction false} DigitsRead(n: int, digits: CString, rest: CString)
    requires Digits(digits) && !DigitAt(rest)
    ensures Accumulated(n, Join(digits, rest)) == n * Pow10(Len(digits)) + Positional(digits)
    ensures PastDigits(Join(digits, rest)) == rest
    ensures DigitCount(Join(digits, rest)) == Len(digits)
    decreases digits
  {
    hide Accumulated, Join, Positional, Pow10, Len, PastDigits, DigitCount;
    DigitsEnd(digits, rest);
    if digits.End? {
      NoDigits(n, rest);
    } else {
      var d := digits.head as int - ZERO as int;
      PositionalStep(digits);
      JoinStep(digits, rest);
      AccumulatedStep(n, Join(digits, rest));
      DigitsRead(n * 10 + d, digits.tail, rest);
      DigitStep(n, d, Pow10(Len(digits.tail)), Positional(digits.tail));
    }
  }

  lemma ExponentRead(e: Exponent, rest: CString)
    requires ExponentForm(e, Cjson) && e.Exponent? && ExponentEnds(e, rest)
    ensures ExponentAt(ExponentThen(e, rest))
    ensures ExponentValue(ExponentThen(e, rest).tail) == ExponentMeaning(e)
    ensures PastExponent(ExponentThen(e, rest).tail) == rest
  {
    DigitsRead(0, e.digits, rest);
    var digits := Join(e.digits, rest);
    assert e.sign.End? ==> !At(digits, PLUS) && !At(digits, MINUS);
    hide Accumulated, PastDigits, Positional;
    if e.sign != End { assert Join(e.sign, digits) == Char(e.sign.head, digits); }
  }

  lemma WholeRead(negative: bool, whole: CString, rest: CString)
    requires WholeForm(negative, whole, Cjson) && WholeEnds(whole, rest)
    ensures WholeValue(Join(whole, rest)) == Positional(whole) && PastWhole(Join(whole, rest)) == rest
  {
    if At(whole, ZERO) {
      if whole.tail.Char? { DigitsRead(0, whole.tail, rest); }
      JoinStep(whole, rest);
      assert Positional(whole) == Positional(whole.tail);
    } else {
      DigitsRead(0, whole, rest);
    }
  }

  lemma ExponentStarts(e: Exponent, rest: CString)
    requires ExponentForm(e, Cjson)
    ensures var s := ExponentThen(e, rest);
            if e.Exponent? then !DigitAt(s) && !FractionAt(s) && ExponentAt(s) else s == rest
  {
    hide Join, Digits;
  }

  lemma FractionStarts(f: CString, e: CString)
    requires Digits(f)
    ensures var s := FractionThen(f, e);
            if f.Char? then !DigitAt(s) && FractionAt(s) && s.tail == Join(f, e) else s == e
  {
  }

  lemma WholeStarts(w: CString, f: CString)
    ensures w.Char? && Digits(w) ==> DigitAt(Join(w, f))
  {
  }

  /** Where the parts of a number meet. */
  lemma PartsMeet(n: Numeral, e: CString, f: CString, rest: CString)
    requires NumeralForm(n, Cjson) && NumeralEnds(n, rest)
    requires e == ExponentThen(n.exponent, rest) && f == FractionThen(n.fraction, e)
    ensures WholeEnds(n.whole, f)
    ensures if n.fraction.End? then !FractionAt(e) else FractionAt(f) && f.tail == Join(n.fraction, e) && !DigitAt(e)
    ensures ExponentAt(e) <==> n.exponent.Exponent?
  {
    hide Join, Digits;
    ExponentStarts(n.exponent, rest);
    FractionStarts(n.fraction, e);
  }

  /** Every number is read to its end, with its value. */
  lemma NumeralRead(n: Numeral, rest: CString)
    requires NumeralForm(n, Cjson) && NumeralEnds(n, rest)
    ensures NumberAt(NumeralThen(n, rest)) == NumeralMeaning(n)
    ensures NumberEnd(NumeralThen(n, rest)) == rest
    ensures At(NumeralThen(n, rest), MINUS) || DigitAt(NumeralThen(n, rest))
  {
    assert ExponentMeaning(NoExponent) == 0 && ExponentThen(NoExponent, rest) == rest;
    var e := ExponentThen(n.exponent, rest);
    var f := FractionThen(n.fraction, e);
    PartsMeet(n, e, f, rest);
    hide Join, Digits, Accumulated, PastDigits, Positional, ExponentValue, PastExponent, ExponentMeaning, WholeValue,
        PastWhole, DigitAt, WholeEnds;
    hide DigitCount, ExponentThen, FractionThen, FractionAt, ExponentForm, ExponentAt, Mantissa, Scale, MantissaEnd,
        ExponentEnds;
    var w := Join(n.whole, f);
    WholeStarts(n.whole, f);
    WholeRead(n.negative, n.whole, f);
    if n.fraction.Char? { DigitsRead(Positional(n.whole), n.fraction, e); }
    MantissaRead(n, w, f, e);
    if n.exponent.Exponent? { ExponentRead(n.exponent, rest); }
  }

  lemma MantissaRead(n: Numeral, w: CString, f: CString, e: CString)
    requires NumeralForm(n, Cjson)
    requires f == FractionThen(n.fraction, e) && (n.negative || DigitAt(w))
    requires WholeValue(w) == Positional(n.whole) && PastWhole(w) == f
    requires if n.fraction.End? then !FractionAt(e) else
      && FractionAt(f) && PastDigits(f.tail) == e && DigitCount(f.tail) == Len(n.fraction)
      && Accumulated(Positional(n.whole), f.tail)
        == Positional(n.whole) * Pow10(Len(n.fraction)) + Positional(n.fraction)
    ensures var s := if n.negative then Char(MINUS, w) else w;
            && Mantissa(s) == Signed(n.negative, Positional(n.whole) * Pow10(Len(n.fraction)) + Positional(n.fraction))
            && Scale(s) == -(Len(n.fraction) as int) && MantissaEnd(s) == e
  {
    hide Accumulated, PastDigits, WholeValue, PastWhole, DigitCount;
    if n.fraction.End? {
      assert Pow10(0) == 1 && Positional(n.fraction) == 0;
    }
  }

  lemma NumeralWider(n: Numeral, g: Grammar)
    requires NumeralForm(n, Rfc8259)
    ensures NumeralForm(n, g)
  {
    hide Digits;
  }

  lemma FollowsEnds(n: Numeral, rest: CString)
    requires Follows(rest)
    ensures NumeralEnds(n, rest)
  {
  }

  // String literals, between their quotes.

  datatype Literal =
    | NoPiece
    | Plain(c: chr, more: Literal)
    | Short(letter: chr, more: Literal)
    | Unit(h0: chr, h1: chr, h2: chr, h3: chr, more: Literal)

  const SHORT_LETTERS: set<chr> := {QUOTE, BACKSLASH, SLASH, 98, 102, 110, 114, 116}

  predicate IsHex(c: chr) { HexValue(c) >= 0 }

  /** A character of the literal, other than a quote or a backslash; the standard
      has control characters escaped. */
  predicate PlainForm(c: chr, g: Grammar) {
    c != QUOTE && c != BACKSLASH && (g.Cjson? || c >= SPACE)
  }

  /** One of the four characters behind \u. */
  predicate HexForm(c: chr, g: Grammar) {
    if g.Cjson? then PlainForm(c, g) else IsHex(c)
  }

  /** The parser takes a backslash before any character, and \u before any four
      that neither end the literal nor start an escape. */
  predicate LiteralForm(l: Literal, g: Grammar) {
    match l
    case NoPiece => true
    case Plain(c, more) => PlainForm(c, g) && LiteralForm(more, g)
    case Short(letter, more) =>
      (if g.Cjson? then letter != LOWER_U else letter in SHORT_LETTERS) && LiteralForm(more, g)
    case Unit(a, b, c, d, more) =>
      HexForm(a, g) && HexForm(b, g) && HexForm(c, g) && HexForm(d, g) && LiteralForm(more, g)
  }

  function LiteralThen(l: Literal, rest: CString): CString {
    match l
    case NoPiece => rest
    case Plain(c, more) => Char(c, LiteralThen(more, rest))
    case Short(letter, more) => Char(BACKSLASH, Char(letter, LiteralThen(more, rest)))
    case Unit(a, b, c, d, more) =>
      Char(BACKSLASH, Char(LOWER_U, Char(a, Char(b, Char(c, Char(d, LiteralThen(more, rest)))))))
  }

  /** Four hexadecimal digits as a number; the parser takes anything else for 0. */
  function UnitValue(l: Literal): (u: nat)
    requires l.Unit?
    ensures u < 0x10000
  {
    if IsHex(l.h0) && IsHex(l.h1) && IsHex(l.h2) && IsHex(l.h3) then
      HexValue(l.h0) * 0x1000 + HexValue(l.h1) * 0x100 + HexValue(l.h2) * 0x10 + HexValue(l.h3)
    else 0
  }

  /** The code point of a surrogate pair. */
  function PairValue(l: Literal): nat
    requires l.Unit? && High(UnitValue(l)) && l.more.Unit? && Low(UnitValue(l.more))
  {
    0x10000 + (UnitValue(l) - 0xD800) * 0x400 + (UnitValue(l.more) - 0xDC00)
  }

  /** The bytes the standard means: UTF-16 units, a surrogate pair taken as one,
      become the UTF-8 of their code points, U+0000 included; a surrogate
      without its partner means nothing by itself. */
  function Meant(l: Literal): seq<byte> {
    match l
    case NoPiece => []
    case Plain(c, more) => [c] + Meant(more)
    case Short(letter, more) => [ShortEscape(letter)] + Meant(more)
    case Unit(_, _, _, _, more) =>
      var u := UnitValue(l);
      if u == 0 then [0] + Meant(more)
      else if Low(u) then Meant(more)
      else if !High(u) then Utf8(u) + Meant(more)
      else if more.Unit? && Low(UnitValue(more)) then Utf8(PairValue(l)) + Meant(more.more)
      else Meant(more)
  }

  /** The string the code reads. It differs in two things: U+0000 is dropped,
      and a high surrogate takes the unit that follows with it even when that is
      not its partner. */
  function Meaning(l: Literal): chars {
    match l
    case NoPiece => []
    case Plain(c, more) => [c] + Meaning(more)
    case Short(letter, more) => [ShortEscape(letter)] + Meaning(more)
    case Unit(_, _, _, _, more) =>
      var u := UnitValue(l);
      if u == 0 || Low(u) then Meaning(more)
      else if !High(u) then Utf8(u) + Meaning(more)
      else if !more.Unit? then Meaning(more)
      else if !Low(UnitValue(more)) then Meaning(more.more)
      else Utf8(PairValue(l)) + Meaning(more.more)
  }

  /** A unit that starts text: a code point of its own, or the first of a pair. */
  predicate StartsText(l: Literal)
    requires l.Unit?
  {
    var u := UnitValue(l);
    !Low(u) && (High(u) ==> l.more.Unit? && Low(UnitValue(l.more)))
  }

  /** The literal writes U+0000, or some high surrogate takes with it a unit that
      starts text and is not its partner. */
  predicate Loses(l: Literal) {
    match l
    case NoPiece => false
    case Plain(_, more) => Loses(more)
    case Short(_, more) => Loses(more)
    case Unit(_, _, _, _, more) =>
      if UnitValue(l) == 0 then true
      else if !High(UnitValue(l)) || !more.Unit? then Loses(more)
      else (!Low(UnitValue(more)) && StartsText(more)) || Loses(more.more)
  }

  /** The code's reading of a literal is what the standard means exactly when it
      writes no U+0000 and no unit that starts text is swallowed; otherwise text
      is missing. */
  lemma {:induction false} MeaningKept(l: Literal)
    requires LiteralForm(l, Rfc8259)
    ensures Meaning(l) == Meant(l) <==> !Loses(l)
    ensures |Meaning(l)| <= |Meant(l)|
    ensures Loses(l) ==> |Meaning(l)| < |Meant(l)|
    decreases l
  {
    hide UnitValue, Utf8, PairValue;
    match l
    case NoPiece =>
    case Plain(_, more) => MeaningKept(more);
    case Short(_, more) => MeaningKept(more);
    case Unit(_, _, _, _, more) =>
      MeaningKept(more);
      if more.Unit? {
        MeaningKept(more.more);
        if more.more.Unit? { MeaningKept(more.more.more); }
      }
  }

  /** No unit is zero, and every high surrogate is followed by its partner. */
  predicate Paired(l: Literal) {
    match l
    case NoPiece => true
    case Plain(_, more) => Paired(more)
    case Short(_, more) => Paired(more)
    case Unit(_, _, _, _, more) =>
      && UnitValue(l) != 0
      && if High(UnitValue(l)) then more.Unit? && Low(UnitValue(more)) && Paired(more.more) else Paired(more)
  }

  lemma {:induction false} PairedKept(l: Literal)
    requires LiteralForm(l, Rfc8259) && Paired(l)
    ensures Meaning(l) == Meant(l)
    decreases l
  {
    hide UnitValue, Utf8, PairValue;
    match l
    case NoPiece =>
    case Plain(_, more) => PairedKept(more);
    case Short(_, more) => PairedKept(more);
    case Unit(_, _, _, _, more) => if High(UnitValue(l)) { PairedKept(more.more); } else { PairedKept(more); }
  }

  /** \uD800\u0041, where the letter A is lost, \uD800\uD801\uDC00, where a whole
      pair is, and \u0000. */
  lemma TextLost()
    ensures var a := Unit(68, 56, ZERO, ZERO, Unit(ZERO, ZERO, 52, 49, NoPiece));
      LiteralForm(a, Rfc8259) && Meant(a) == [65] && Meaning(a) == []
    ensures var b := Unit(68, 56, ZERO, ZERO, Unit(68, 56, ZERO, 49, Unit(68, 67, ZERO, ZERO, NoPiece)));
      LiteralForm(b, Rfc8259) && Meant(b) == Utf8(0x10400) && Meaning(b) == []
    ensures var c := Unit(ZERO, ZERO, ZERO, ZERO, NoPiece);
      LiteralForm(c, Rfc8259) && Meant(c) == [0] && Meaning(c) == []
  {
    var last := Unit(68, 67, ZERO, ZERO, NoPiece);
    var pair := Unit(68, 56, ZERO, 49, last);
    assert UnitValue(last) == 0xDC00 && UnitValue(pair) == 0xD801;
    assert UnitValue(Unit(68, 56, ZERO, ZERO, pair)) == 0xD800;
    var letter := Unit(ZERO, ZERO, 52, 49, NoPiece);
    assert UnitValue(letter) == 65 && UnitValue(Unit(68, 56, ZERO, ZERO, letter)) == 0xD800;
    assert UnitValue(Unit(ZERO, ZERO, ZERO, ZERO, NoPiece)) == 0 && PairValue(pair) == 0x10400;
    hide UnitValue, PairValue;
    assert Meant(letter) == [65];
  }

  lemma UnitRead(l: Literal, rest: CString)
    requires l.Unit? && LiteralForm(l, Cjson)
    ensures var s := LiteralThen(l, rest).tail.tail;
            FourAhead(s) && Hex4(s) == UnitValue(l) && Skip4(s) == LiteralThen(l.more, rest)
  {
    hide HexValue;
  }

  /** A \\u escape, or two, of the second pass. */
  lemma UnitStep(l: Literal, q: CString)
    requires l.Unit? && LiteralForm(l, Cjson) && Stops(q)
    requires var s := LiteralThen(l.more, q); Escapes(s) && (l.more.Unit? ==> Escapes(LiteralThen(l.more.more, q)))
    ensures var s := LiteralThen(l, q);
      && Escapes(s) && !Stops(s)
      && After(s) == LiteralThen(if High(UnitValue(l)) && l.more.Unit? then l.more.more else l.more, q)
      && Produced(s) == UnitMeaning(l)
  {
    hide FourAhead, Hex4, Utf8, UnitValue, Skip4, HexValue;
    UnitRead(l, q);
    if l.more.Unit? { UnitRead(l.more, q); }
  }

  /** What a unit adds to the string. */
  function UnitMeaning(l: Literal): chars
    requires l.Unit?
  {
    var u := UnitValue(l);
    if u == 0 || Low(u) then []
    else if !High(u) then Utf8(u)
    else if l.more.Unit? && Low(UnitValue(l.more)) then
      Utf8(PairValue(l))
    else []
  }

  /** The code decodes every literal to this reading, up to its closing quote or
      the end of the text. */
  lemma {:induction false} LiteralRead(l: Literal, q: CString)
    requires LiteralForm(l, Cjson) && Stops(q)
    ensures var s := LiteralThen(l, q);
            Escapes(s) && Decoded(s) == Meaning(l) && Ended(s) == q
    decreases l
  {
    match l
    case NoPiece =>
    case Plain(_, more) => LiteralRead(more, q);
    case Short(_, more) => LiteralRead(more, q);
    case Unit(_, _, _, _, more) =>
      LiteralRead(more, q);
      if more.Unit? { LiteralRead(more.more, q); }
      UnitStep(l, q);
      MeaningStep(l);
      hide Escapes, Stops, After, Produced, LiteralThen, UnitValue, Meaning, UnitMeaning;
  }

  lemma MeaningStep(l: Literal)
    requires l.Unit?
    ensures Meaning(l) ==
              UnitMeaning(l) + Meaning(if High(UnitValue(l)) && l.more.Unit? then l.more.more else l.more)
  {
    hide UnitValue, Utf8;
    assert [] + Meaning(l.more) == Meaning(l.more);
    if l.more.Unit? { assert [] + Meaning(l.more.more) == Meaning(l.more.more); }
  }

  /** The code decodes a literal to what the standard means by it exactly when
      it loses nothing. */
  lemma LiteralMeant(l: Literal, rest: CString)
    requires LiteralForm(l, Rfc8259)
    ensures var s := LiteralThen(l, Char(QUOTE, rest));
            Escapes(s) && (Decoded(s) == Meant(l) <==> !Loses(l))
  {
    LiteralWider(l, Cjson);
    LiteralRead(l, Char(QUOTE, rest));
    MeaningKept(l);
    hide Escapes, Decoded, Meaning, Meant, Loses, LiteralThen, LiteralForm;
  }

  lemma {:induction false} LiteralWider(l: Literal, g: Grammar)
    requires LiteralForm(l, Rfc8259)
    ensures LiteralForm(l, g)
  {
    match l
    case NoPiece =>
    case Plain(_, more) => LiteralWider(more, g);
    case Short(_, more) => LiteralWider(more, g);
    case Unit(_, _, _, _, more) => LiteralWider(more, g);
  }

  // Whole texts.

  datatype Doc =
    | NullDoc
    | FalseDoc
    | TrueDoc
    | NumberDoc(numeral: Numeral)
    | StringDoc(literal: Literal)
    | EmptyArrayDoc(inner: CString)
    | ArrayDoc(items: ItemDocs)
    | EmptyObjectDoc(inner: CString)
    | ObjectDoc(members: MemberDocs)

  /** One or more items, each with the white space around it. */
  datatype ItemDocs =
    | LastItem(before: CString, value: Doc, after: CString)
    | MoreItems(before: CString, value: Doc, after: CString, more: ItemDocs)

  datatype MemberDocs =
    | LastMember(before: CString, name: Literal, beforeColon: CString, afterColon: CString, value: Doc, after: CString)
    | MoreMembers(before: CString, name: Literal, beforeColon: CString, afterColon: CString, value: Doc,
      after: CString, more: MemberDocs)

  ghost predicate DocForm(d: Doc, g: Grammar) {
    match d
    case NumberDoc(n) => NumeralForm(n, g)
    case StringDoc(l) => LiteralForm(l, g)
    case EmptyArrayDoc(inner) => Blank(inner, g)
    case ArrayDoc(items) => ItemsForm(items, g)
    case EmptyObjectDoc(inner) => Blank(inner, g)
    case ObjectDoc(members) => MembersForm(members, g)
    case _ => true
  }

  ghost predicate ItemsForm(d: ItemDocs, g: Grammar) {
    Blank(d.before, g) && DocForm(d.value, g) && Blank(d.after, g) && (d.MoreItems? ==> ItemsForm(d.more, g))
  }

  ghost predicate MembersForm(d: MemberDocs, g: Grammar) {
    && Blank(d.before, g) && LiteralForm(d.name, g) && Blank(d.beforeColon, g) && Blank(d.afterColon, g)
    && DocForm(d.value, g) && Blank(d.after, g) && (d.MoreMembers? ==> MembersForm(d.more, g))
  }

  /** The text of a document, then rest. */
  function DocThen(d: Doc, rest: CString): CString
    decreases d
  {
    match d
    case NullDoc => Onto(NULL_TEXT, rest)
    case FalseDoc => Onto(FALSE_TEXT, rest)
    case TrueDoc => Onto(TRUE_TEXT, rest)
    case NumberDoc(n) => NumeralThen(n, rest)
    case StringDoc(l) => Quoted(l, rest)
    case EmptyArrayDoc(inner) => Char(LBRACKET, Join(inner, Char(RBRACKET, rest)))
    case ArrayDoc(items) => Char(LBRACKET, ItemsThen(items, rest))
    case EmptyObjectDoc(inner) => Char(LBRACE, Join(inner, Char(RBRACE, rest)))
    case ObjectDoc(members) => Char(LBRACE, MembersThen(members, rest))
  }

  function Quoted(l: Literal, rest: CString): CString {
    Char(QUOTE, LiteralThen(l, Char(QUOTE, rest)))
  }

  function ItemsThen(d: ItemDocs, rest: CString): CString
    decreases d
  {
    Join(d.before, DocThen(d.value, Join(d.after,
      if d.LastItem? then Char(RBRACKET, rest) else Char(COMMA, ItemsThen(d.more, rest)))))
  }

  function MembersThen(d: MemberDocs, rest: CString): CString
    decreases d
  {
    Join(d.before, Quoted(d.name, Join(d.beforeColon, Char(COLON, Join(d.afterColon, DocThen(d.value, Join(d.after,
      if d.LastMember? then Char(RBRACE, rest) else Char(COMMA, MembersThen(d.more, rest)))))))))
  }

  /** The tree the code reads a document as. */
  function Tree(d: Doc): Json {
    match d
    case NullDoc => Null
    case FalseDoc => False
    case TrueDoc => True
    case NumberDoc(n) => NumeralMeaning(n)
    case StringDoc(l) => String(Meaning(l))
    case EmptyArrayDoc(_) => Array(NoItem)
    case ArrayDoc(items) => Array(ItemTrees(items))
    case EmptyObjectDoc(_) => Object(NoMember)
    case ObjectDoc(members) => Object(MemberTrees(members))
  }

  function ItemTrees(d: ItemDocs): Items {
    Item(Tree(d.value), if d.LastItem? then NoItem else ItemTrees(d.more))
  }

  function MemberTrees(d: MemberDocs): Members {
    Member(Meaning(d.name), Tree(d.value), if d.LastMember? then NoMember else MemberTrees(d.more))
  }

  /** The tree is the one that the standard means by a document. */
  predicate StandsFor(t: Json, d: Doc) {
    match d
    case NullDoc => t.Null?
    case FalseDoc => t.False?
    case TrueDoc => t.True?
    case NumberDoc(n) => t == NumeralMeaning(n)
    case StringDoc(l) => t.String? && t.text == Meant(l)
    case EmptyArrayDoc(_) => t == Array(NoItem)
    case ArrayDoc(items) => t.Array? && ItemsStandFor(t.items, items)
    case EmptyObjectDoc(_) => t == Object(NoMember)
    case ObjectDoc(members) => t.Object? && MembersStandFor(t.members, members)
  }

  predicate ItemsStandFor(t: Items, d: ItemDocs) {
    && t.Item? && StandsFor(t.value, d.value)
    && if d.LastItem? then t.more.NoItem? else ItemsStandFor(t.more, d.more)
  }

  predicate MembersStandFor(t: Members, d: MemberDocs) {
    && t.Member? && t.name == Meant(d.name) && StandsFor(t.value, d.value)
    && if d.LastMember? then t.more.NoMember? else MembersStandFor(t.more, d.more)
  }

  /** No string or name in the document loses anything. */
  predicate Whole(d: Doc) {
    match d
    case StringDoc(l) => !Loses(l)
    case ArrayDoc(items) => ItemsWhole(items)
    case ObjectDoc(members) => MembersWhole(members)
    case _ => true
  }

  predicate ItemsWhole(d: ItemDocs) {
    Whole(d.value) && (d.MoreItems? ==> ItemsWhole(d.more))
  }

  predicate MembersWhole(d: MemberDocs) {
    !Loses(d.name) && Whole(d.value) && (d.MoreMembers? ==> MembersWhole(d.more))
  }

  /** The tree the code reads is the one that is meant exactly when nothing in
      the document is lost. */
  lemma {:induction false} TreeMeant(d: Doc)
    requires DocForm(d, Rfc8259)
    ensures StandsFor(Tree(d), d) <==> Whole(d)
    decreases d, 1
  {
    hide Meaning, Meant, Loses, NumeralMeaning;
    match d
    case StringDoc(l) => MeaningKept(l);
    case ArrayDoc(items) => ItemTreesMeant(items);
    case ObjectDoc(members) => MemberTreesMeant(members);
    case _ =>
  }

  lemma {:induction false} ItemTreesMeant(d: ItemDocs)
    requires ItemsForm(d, Rfc8259)
    ensures ItemsStandFor(ItemTrees(d), d) <==> ItemsWhole(d)
    decreases d, 0
  {
    hide Tree, Whole, StandsFor;
    TreeMeant(d.value);
    if d.MoreItems? { ItemTreesMeant(d.more); }
  }

  lemma {:induction false} MemberTreesMeant(d: MemberDocs)
    requires MembersForm(d, Rfc8259)
    ensures MembersStandFor(MemberTrees(d), d) <==> MembersWhole(d)
    decreases d, 0
  {
    hide Tree, Whole, StandsFor, Meaning, Meant, Loses;
    MeaningKept(d.name);
    TreeMeant(d.value);
    if d.MoreMembers? { MemberTreesMeant(d.more); }
  }

  /** That the text behind a document does not continue it. */
  predicate EndsBefore(d: Doc, rest: CString) {
    d.NumberDoc? ==> NumeralEnds(d.numeral, rest)
  }

  lemma {:induction false} DocWider(d: Doc, g: Grammar)
    requires DocForm(d, Rfc8259)
    ensures DocForm(d, g)
    decreases d, 1
  {
    hide Blank, NumeralForm, LiteralForm;
    match d
    case NumberDoc(n) => NumeralWider(n, g);
    case StringDoc(l) => LiteralWider(l, g);
    case EmptyArrayDoc(inner) => BlankWider(inner, g);
    case ArrayDoc(items) => ItemsWider(items, g);
    case EmptyObjectDoc(inner) => BlankWider(inner, g);
    case ObjectDoc(members) => MembersWider(members, g);
    case _ =>
  }

  lemma {:induction false} ItemsWider(d: ItemDocs, g: Grammar)
    requires ItemsForm(d, Rfc8259)
    ensures ItemsForm(d, g)
    decreases d, 0
  {
    hide Blank, DocForm;
    BlankWider(d.before, g);
    DocWider(d.value, g);
    BlankWider(d.after, g);
    if d.MoreItems? { ItemsWider(d.more, g); }
  }

  lemma {:induction false} MembersWider(d: MemberDocs, g: Grammar)
    requires MembersForm(d, Rfc8259)
    ensures MembersForm(d, g)
    decreases d, 0
  {
    hide Blank, DocForm, LiteralForm;
    BlankWider(d.before, g);
    LiteralWider(d.name, g);
    BlankWider(d.beforeColon, g);
    BlankWider(d.afterColon, g);
    DocWider(d.value, g);
    BlankWider(d.after, g);
    if d.MoreMembers? { MembersWider(d.more, g); }
  }

  // The parser reads every document.

  lemma {:induction false} OntoMatches(word: chars, rest: CString)
    ensures Matches(Onto(word, rest), word) && Behind(Onto(word, rest), word) == rest
  {
    if word != [] { OntoMatches(word[1..], rest); }
  }

  lemma StringRead(l: Literal, rest: CString)
    requires LiteralForm(l, Cjson)
    ensures StringAt(Quoted(l, rest)) == Done(Meaning(l), rest)
  {
    LiteralRead(l, Char(QUOTE, rest));
    hide Escapes, Decoded, Ended, Meaning, LiteralThen;
  }

  lemma WordHead(s: CString, word: chars)
    requires word != []
    ensures Onto(word, s).Char? && Onto(word, s).head == word[0]
    ensures Matches(s, word) ==> s.Char? && s.head == word[0]
  {
  }

  /** The words are not numbers, strings, arrays or objects. */
  lemma NoWord(s: CString)
    requires s.Char?
        && (s.head == QUOTE || s.head == MINUS || ZERO <= s.head <= NINE || s.head == LBRACKET || s.head == LBRACE)
    ensures !Matches(s, NULL_TEXT) && !Matches(s, FALSE_TEXT) && !Matches(s, TRUE_TEXT)
  {
    hide Matches;
    WordHead(s, NULL_TEXT);
    WordHead(s, FALSE_TEXT);
    WordHead(s, TRUE_TEXT);
  }

  lemma WordsRead(rest: CString)
    ensures ValueAt(Onto(NULL_TEXT, rest)) == Done(Null, rest)
    ensures ValueAt(Onto(FALSE_TEXT, rest)) == Done(False, rest)
    ensures ValueAt(Onto(TRUE_TEXT, rest)) == Done(True, rest)
  {
    hide Matches, Onto, Behind, StringAt, NumberAt, NumberEnd, ArrayAt, ObjectAt;
    OntoMatches(NULL_TEXT, rest);
    OntoMatches(FALSE_TEXT, rest);
    OntoMatches(TRUE_TEXT, rest);
    WordHead(rest, FALSE_TEXT);
    WordHead(rest, TRUE_TEXT);
    WordHead(Onto(FALSE_TEXT, rest), NULL_TEXT);
    WordHead(Onto(TRUE_TEXT, rest), NULL_TEXT);
    WordHead(Onto(TRUE_TEXT, rest), FALSE_TEXT);
  }

  /** Which parser a value's first character selects. */
  lemma ValueCases(s: CString)
    ensures At(s, QUOTE) && StringAt(s).Done? ==> ValueAt(s) == Done(String(StringAt(s).value), StringAt(s).rest)
    ensures At(s, MINUS) || DigitAt(s) ==> ValueAt(s) == Done(NumberAt(s), NumberEnd(s))
    ensures At(s, LBRACKET) ==> ValueAt(s) == ArrayAt(s)
    ensures At(s, LBRACE) ==> ValueAt(s) == ObjectAt(s)
  {
    if At(s, QUOTE) || At(s, MINUS) || DigitAt(s) || At(s, LBRACKET) || At(s, LBRACE) { NoWord(s); }
    hide Matches, StringAt, NumberAt, NumberEnd, ArrayAt, ObjectAt;
  }

  lemma EmptyRead(inner: CString, rest: CString)
    requires Blank(inner, Cjson)
    ensures ArrayAt(Char(LBRACKET, Join(inner, Char(RBRACKET, rest)))) == Done(Array(NoItem), rest)
    ensures ObjectAt(Char(LBRACE, Join(inner, Char(RBRACE, rest)))) == Done(Object(NoMember), rest)
  {
    SkipJoin(inner, Char(RBRACKET, rest));
    SkipJoin(inner, Char(RBRACE, rest));
  }

  lemma {:induction false} SkipTwice(s: CString)
    ensures Skip(Skip(s)) == Skip(s)
  {
    if s.Char? { SkipTwice(s.tail); }
  }

  lemma ArrayStep(x: CString, items: Items, rest: CString)
    requires ItemsAt(Skip(x)) == Done(items, rest) && !At(Skip(x), RBRACKET)
    ensures ArrayAt(Char(LBRACKET, x)) == Done(Array(items), rest)
  {
    SkipTwice(x);
    hide ItemsAt, Skip;
  }

  lemma ObjectStep(x: CString, members: Members, rest: CString)
    requires MembersAt(Skip(x)) == Done(members, rest) && !At(Skip(x), RBRACE)
    ensures ObjectAt(Char(LBRACE, x)) == Done(Object(members), rest)
  {
    SkipTwice(x);
    hide MembersAt, Skip;
  }

  /** The parser reads every document to its end and builds its tree. */
  lemma {:induction false} DocRead(d: Doc, rest: CString)
    requires DocForm(d, Cjson) && EndsBefore(d, rest)
    ensures ValueAt(DocThen(d, rest)) == Done(Tree(d), rest)
    decreases d, 1
  {
    hide ValueAt, Matches, Onto, Join, Blank, Meaning, LiteralThen, NumeralThen, NumeralMeaning, NumeralForm;
    hide NumeralEnds;
    hide ItemsThen, MembersThen, ItemTrees, MemberTrees, StringAt, NumberAt, NumberEnd, ArrayAt, ObjectAt;
    ValueCases(DocThen(d, rest));
    match d
    case NumberDoc(n) => NumeralRead(n, rest);
    case StringDoc(l) => StringRead(l, rest);
    case EmptyArrayDoc(inner) => EmptyRead(inner, rest);
    case EmptyObjectDoc(inner) => EmptyRead(inner, rest);
    case ArrayDoc(items) =>
      ItemsRead(items, rest);
      ArrayStep(ItemsThen(items, rest), ItemTrees(items), rest);
    case ObjectDoc(members) =>
      MembersRead(members, rest);
      ObjectStep(MembersThen(members, rest), MemberTrees(members), rest);
    case _ => WordsRead(rest);
  }

  lemma AfterValue(d: Doc, after: CString, next: CString)
    requires Blank(after, Cjson) && (At(next, COMMA) || At(next, RBRACKET) || At(next, RBRACE))
    ensures EndsBefore(d, Join(after, next)) && Skip(Join(after, next)) == next
  {
    SkipJoin(after, next);
    assert Follows(Join(after, next));
    if d.NumberDoc? { FollowsEnds(d.numeral, Join(after, next)); }
    hide NumeralEnds;
  }

  lemma ItemStep(s: CString, v: Json, behind: CString, more: Items, rest: CString)
    requires ValueAt(s) == Done(v, behind) && ItemsTail(Skip(behind)) == Done(more, rest)
    ensures ItemsAt(s) == Done(Item(v, more), rest)
  {
    hide ValueAt, ItemsTail, Skip;
  }

  lemma TailStep(x: CString)
    ensures ItemsTail(Char(COMMA, x)) == ItemsAt(Skip(x))
    ensures ItemsTail(Char(RBRACKET, x)) == Done(NoItem, x)
  {
    hide ItemsAt, Skip;
  }

  lemma {:induction false} ItemsRead(d: ItemDocs, rest: CString)
    requires ItemsForm(d, Cjson)
    ensures ItemsAt(Skip(ItemsThen(d, rest))) == Done(ItemTrees(d), rest)
    ensures !At(Skip(ItemsThen(d, rest)), RBRACKET)
    decreases d, 0
  {
    hide ItemsAt, ItemsTail, ValueAt, Skip, Join, DocThen, Tree, Blank, DocForm, EndsBefore;
    var next := if d.LastItem? then Char(RBRACKET, rest) else Char(COMMA, ItemsThen(d.more, rest));
    if d.MoreItems? {
      ItemsRead(d.more, rest);
      TailStep(ItemsThen(d.more, rest));
    } else {
      TailStep(rest);
    }
    AfterValue(d.value, d.after, next);
    var behind := Join(d.after, next);
    DocRead(d.value, behind);
    NotClosing(d.value, behind);
    var value := DocThen(d.value, behind);
    SkipJoin(d.before, value);
    ItemStep(value, Tree(d.value), behind, if d.LastItem? then NoItem else ItemTrees(d.more), rest);
  }

  /** A value starts with neither white space nor a closing bracket or brace. */
  lemma NotClosing(d: Doc, rest: CString)
    requires DocForm(d, Cjson)
    ensures !At(DocThen(d, rest), RBRACKET) && !At(DocThen(d, rest), RBRACE)
    ensures Skip(DocThen(d, rest)) == DocThen(d, rest)
  {
    hide ItemsThen, MembersThen, LiteralThen;
  }

  lemma MemberStep(s: CString, name: chars, nameEnd: CString, v: Json, behind: CString, more: Members, rest: CString)
    requires StringAt(s) == Done(name, nameEnd) && At(Skip(nameEnd), COLON)
    requires ValueAt(Skip(Skip(nameEnd).tail)) == Done(v, behind) && MembersTail(Skip(behind)) == Done(more, rest)
    ensures MembersAt(s) == Done(Member(name, v, more), rest)
  {
    hide ValueAt, MembersTail, Skip, StringAt;
  }

  lemma MembersTailStep(x: CString)
    ensures MembersTail(Char(COMMA, x)) == MembersAt(Skip(x))
    ensures MembersTail(Char(RBRACE, x)) == Done(NoMember, x)
  {
    hide MembersAt, Skip;
  }

  lemma QuotedStarts(l: Literal, rest: CString)
    ensures Skip(Quoted(l, rest)) == Quoted(l, rest) && !At(Quoted(l, rest), RBRACE)
  {
    hide LiteralThen;
  }

  lemma {:induction false} MembersRead(d: MemberDocs, rest: CString)
    requires MembersForm(d, Cjson)
    ensures MembersAt(Skip(MembersThen(d, rest))) == Done(MemberTrees(d), rest)
    ensures !At(Skip(MembersThen(d, rest)), RBRACE)
    decreases d, 0
  {
    hide MembersAt, MembersTail, ValueAt, Skip, Join, DocThen, Tree, Blank, DocForm, Quoted, LiteralForm, Meaning,
        StringAt, EndsBefore;
    var next := if d.LastMember? then Char(RBRACE, rest) else Char(COMMA, MembersThen(d.more, rest));
    if d.MoreMembers? {
      MembersRead(d.more, rest);
      MembersTailStep(MembersThen(d.more, rest));
    } else {
      MembersTailStep(rest);
    }
    AfterValue(d.value, d.after, next);
    var behind := Join(d.after, next);
    DocRead(d.value, behind);
    NotClosing(d.value, behind);
    var value := DocThen(d.value, behind);
    SkipJoin(d.afterColon, value);
    var colon := Char(COLON, Join(d.afterColon, value));
    SkipJoin(d.beforeColon, colon);
    SkipColon(colon);
    var nameEnd := Join(d.beforeColon, colon);
    StringRead(d.name, nameEnd);
    QuotedStarts(d.name, nameEnd);
    SkipJoin(d.before, Quoted(d.name, nameEnd));
    MemberStep(Quoted(d.name, nameEnd), Meaning(d.name), nameEnd, Tree(d.value), behind,
      if d.LastMember? then NoMember else MemberTrees(d.more), rest);
  }

  lemma SkipColon(s: CString)
    ensures At(s, COLON) ==> Skip(s) == s
  {
  }

  /** Cut off after the value, the text of a document is read up to the end of
      what follows. */
  lemma TextRead(before: CString, d: Doc, rest: CString)
    requires Blank(before, Cjson) && DocForm(d, Cjson) && EndsBefore(d, rest)
    ensures ValueAt(Skip(Join(before, DocThen(d, rest)))) == Done(Tree(d), rest)
  {
    hide *;
    SkipJoin(before, DocThen(d, rest));
    NotClosing(d, rest);
    DocRead(d, rest);
  }

  lemma BlankEnds(d: Doc, after: CString)
    requires Blank(after, Cjson)
    ensures EndsBefore(d, Join(after, End)) && Skip(Join(after, End)) == End
  {
    SkipJoin(after, End);
    assert Follows(Join(after, End));
    if d.NumberDoc? { FollowsEnds(d.numeral, Join(after, End)); }
    hide NumeralEnds;
  }

  /** cJSON_Parse reads every text of RFC 8259, with any white space around it,
      and leaves nothing over. It rebuilds the tree that the standard means
      exactly when no string and no name in it loses anything. */
  lemma ParseReadsEveryText(before: CString, d: Doc, after: CString, requireNullTerminated: bool)
    requires Blank(before, Rfc8259) && DocForm(d, Rfc8259) && Blank(after, Rfc8259)
    ensures var r := TextAt(Join(before, DocThen(d, Join(after, End))), requireNullTerminated);
      && r == Done(Tree(d), if requireNullTerminated then End else Join(after, End))
      && (StandsFor(r.value, d) <==> Whole(d))
  {
    TreeMeant(d);
    DocWider(d, Cjson);
    BlankWider(before, Cjson);
    BlankWider(after, Cjson);
    hide ValueAt, Skip, Join, DocThen, Tree, DocForm, StandsFor, Whole, Blank, EndsBefore;
    BlankEnds(d, after);
    TextRead(before, d, Join(after, End));
  }
}
