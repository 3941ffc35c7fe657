// The recursive parser of cJSON.c: what each parser returns for every text, and
// the code.

module JsonParser {
  import opened Bytes
  import opened JsonText
  import opened JsonStrings

  /** Skips white space, which is every character up to the space. */
  function Skip(s: CString): (r: CString)
    ensures Len(r) <= Len(s)
  {
    if s.Char? && s.head <= SPACE then Skip(s.tail) else s
  }

  method SkipBlanks(s: CString) returns (r: CString)
    ensures r == Skip(s)
  {
    r := s;
    while r.Char? && r.head <= SPACE
      invariant Skip(r) == Skip(s)
      decreases r
    {
      r := r.tail;
    }
  }

  predicate At(s: CString, c: chr) {
    s.Char? && s.head == c
  }

  predicate DigitAt(s: CString) {
    s.Char? && ZERO <= s.head <= NINE
  }

  // Numbers.

  /** A run of digits appended to n, its end and its length. */
  function Accumulated(n: int, s: CString): int
    decreases s
  {
    if DigitAt(s) then Accumulated(n * 10 + (s.head as int - ZERO as int), s.tail) else n
  }

  function PastDigits(s: CString): (r: CString)
    ensures Len(r) <= Len(s)
  {
    if DigitAt(s) then PastDigits(s.tail) else s
  }

  function DigitCount(s: CString): nat {
    if DigitAt(s) then 1 + DigitCount(s.tail) else 0
  }

  method ParseDigits(n: int, s: CString) returns (m: int, count: nat, rest: CString)
    ensures m == Accumulated(n, s) && count == DigitCount(s) && rest == PastDigits(s)
  {
    m, count, rest := n, 0, s;
    while DigitAt(rest)
      invariant Accumulated(m, rest) == Accumulated(n, s)
      invariant count + DigitCount(rest) == DigitCount(s)
      invariant PastDigits(rest) == PastDigits(s)
      decreases rest
    {
      m := m * 10 + (rest.head as int - ZERO as int);
      count := count + 1;
      rest := rest.tail;
    }
  }

  /** Past an optional character. */
  function Past(s: CString, c: chr): (r: CString)
    ensures Len(r) <= Len(s)
  {
    if At(s, c) then s.tail else s
  }

  predicate FractionAt(s: CString) {
    At(s, DOT) && DigitAt(s.tail)
  }

  predicate ExponentAt(s: CString) {
    s.Char? && (s.head == 101 || s.head == 69)
  }

  /** The digits before a fraction; a leading zero is passed over. */
  function WholeValue(s: CString): int {
    var s := Past(s, ZERO);
    if At(s, ZERO) then 0 else Accumulated(0, s)
  }

  function PastWhole(s: CString): (r: CString)
    ensures Len(r) <= Len(s)
  {
    var s := Past(s, ZERO);
    if At(s, ZERO) then s else PastDigits(s)
  }

  function ExponentValue(s: CString): int {
    if At(s, PLUS) then Accumulated(0, s.tail)
    else if At(s, MINUS) then -Accumulated(0, s.tail)
    else Accumulated(0, s)
  }

  function PastExponent(s: CString): (r: CString)
    ensures Len(r) <= Len(s)
  {
    if At(s, PLUS) || At(s, MINUS) then PastDigits(s.tail) else PastDigits(s)
  }

  function Signed(negative: bool, n: int): int {
    if negative then -n else n
  }

  /** Behind the sign, the digits and the fraction. */
  function MantissaEnd(s: CString): (r: CString)
    ensures Len(r) <= Len(s)
  {
    var w := PastWhole(Past(s, MINUS));
    if FractionAt(w) then PastDigits(w.tail) else w
  }

  function Mantissa(s: CString): int {
    var b := Past(s, MINUS);
    var w := PastWhole(b);
    Signed(At(s, MINUS), if FractionAt(w) then Accumulated(WholeValue(b), w.tail) else WholeValue(b))
  }

  function Scale(s: CString): int {
    var w := PastWhole(Past(s, MINUS));
    if FractionAt(w) then -(DigitCount(w.tail) as int) else 0
  }

  /** A number: every text that starts with a digit or a minus has one. */
  function NumberAt(s: CString): Json {
    var e := MantissaEnd(s);
    Number(Mantissa(s), Scale(s) + if ExponentAt(e) then ExponentValue(e.tail) else 0)
  }

  function NumberEnd(s: CString): (r: CString)
    ensures Len(r) <= Len(s)
  {
    var e := MantissaEnd(s);
    if ExponentAt(e) then PastExponent(e.tail) else e
  }

  method ParseNumber(s: CString) returns (value: Json, num: CString)
    ensures value == NumberAt(s) && num == NumberEnd(s)
  {
    hide Mantissa, Scale, MantissaEnd, ExponentValue, PastExponent;
    var n, scale, subscale := 0, 0, 0;
    n, scale, num := ParseMantissa(s);
    if ExponentAt(num) {
      subscale, num := ParseExponent(num.tail);
    }
    value := Number(n, scale + subscale);
  }

  method ParseMantissa(s: CString) returns (n: int, scale: int, num: CString)
    ensures n == Mantissa(s) && scale == Scale(s) && num == MantissaEnd(s)
  {
    hide Accumulated, PastDigits, DigitCount, WholeValue, PastWhole;
    num := s;
    var sign := 1;
    var count: nat;
    scale := 0;
    if At(num, MINUS) { sign, num := -1, num.tail; }
    n, num := ParseWhole(num);
    if FractionAt(num) {
      n, count, num := ParseDigits(n, num.tail);
      scale := -(count as int);
    }
    n := sign * n;
  }

  method ParseWhole(s: CString) returns (n: int, num: CString)
    ensures n == WholeValue(s) && num == PastWhole(s)
  {
    n, num := 0, s;
    if At(num, ZERO) { num := num.tail; }
    if DigitAt(num) && num.head != ZERO {
      var count: nat;
      n, count, num := ParseDigits(n, num);
    }
  }

  method ParseExponent(s: CString) returns (n: int, num: CString)
    ensures n == ExponentValue(s) && num == PastExponent(s)
  {
    hide Accumulated, PastDigits;
    var sign, count := 1, 0;
    num := s;
    if At(num, PLUS) { num := num.tail; } else if At(num, MINUS) { sign, num := -1, num.tail; }
    n, count, num := ParseDigits(0, num);
    n := n * sign;
  }

  // Values, arrays and objects.

  predicate Matches(s: CString, word: chars) {
    word == [] || (s.Char? && s.head == word[0] && Matches(s.tail, word[1..]))
  }

  /** Behind a word that matches. */
  function Behind(s: CString, word: chars): (r: CString)
    requires Matches(s, word)
    ensures Len(r) == Len(s) - |word|
  {
    if word == [] then s else Behind(s.tail, word[1..])
  }

  function ValueAt(s: CString): (r: Outcome<Json>)
    ensures r.Done? ==> Len(r.rest) < Len(s)
    decreases Len(s), 1
  {
    if Matches(s, NULL_TEXT) then Done(Null, Behind(s, NULL_TEXT))
    else if Matches(s, FALSE_TEXT) then Done(False, Behind(s, FALSE_TEXT))
    else if Matches(s, TRUE_TEXT) then Done(True, Behind(s, TRUE_TEXT))
    else if At(s, QUOTE) then
      var r := StringAt(s);
      StringShrinks(s);
      if r.Done? then Done(String(r.value), r.rest) else Again(r)
    else if At(s, MINUS) || DigitAt(s) then
      NumberShrinks(s);
      Done(NumberAt(s), NumberEnd(s))
    else if At(s, LBRACKET) then ArrayAt(s)
    else if At(s, LBRACE) then ObjectAt(s)
    else Fail(s)
  }

  /** A failed outcome at another type. */
  function Again<T, U>(r: Outcome<T>): Outcome<U>
    requires !r.Done?
  {
    if r.Fail? then Fail(r.at) else Undefined
  }

  function ArrayAt(s: CString): (r: Outcome<Json>)
    requires At(s, LBRACKET)
    ensures r.Done? ==> Len(r.rest) < Len(s)
    decreases Len(s), 0
  {
    var value := Skip(s.tail);
    if At(value, RBRACKET) then Done(Array(NoItem), value.tail)
    else
      var r := ItemsAt(Skip(value));
      if r.Done? then Done(Array(r.value), r.rest) else Again(r)
  }

  /** An item and all that follow up to the bracket. */
  function ItemsAt(s: CString): (r: Outcome<Items>)
    ensures r.Done? ==> Len(r.rest) < Len(s)
    decreases Len(s), 2
  {
    var v := ValueAt(s);
    if !v.Done? then Again(v)
    else
      var r := ItemsTail(Skip(v.rest));
      if r.Done? then Done(Item(v.value, r.value), r.rest) else r
  }

  /** What follows an item. */
  function ItemsTail(value: CString): (r: Outcome<Items>)
    ensures r.Done? ==> Len(r.rest) < Len(value)
    decreases Len(value), 0
  {
    if At(value, COMMA) then ItemsAt(Skip(value.tail))
    else if At(value, RBRACKET) then Done(NoItem, value.tail)
    else Fail(value)
  }

  function ObjectAt(s: CString): (r: Outcome<Json>)
    requires At(s, LBRACE)
    ensures r.Done? ==> Len(r.rest) < Len(s)
    decreases Len(s), 0
  {
    var value := Skip(s.tail);
    if At(value, RBRACE) then Done(Object(NoMember), value.tail)
    else
      var r := MembersAt(Skip(value));
      if r.Done? then Done(Object(r.value), r.rest) else Again(r)
  }

  function MembersAt(s: CString): (r: Outcome<Members>)
    ensures r.Done? ==> Len(r.rest) < Len(s)
    decreases Len(s), 3
  {
    var v := MemberAt(s);
    if !v.Done? then Again(v)
    else
      var r := MembersTail(Skip(v.rest));
      if r.Done? then Done(Member(StringAt(s).value, v.value, r.value), r.rest) else r
  }

  /** The value of a named member. */
  function MemberAt(s: CString): (r: Outcome<Json>)
    ensures r.Done? ==> Len(r.rest) < Len(s) && StringAt(s).Done?
    decreases Len(s), 2
  {
    var name := StringAt(s);
    StringShrinks(s);
    if !name.Done? then Again(name)
    else
      var value := Skip(name.rest);
      if !At(value, COLON) then Fail(value) else ValueAt(Skip(value.tail))
  }

  function MembersTail(value: CString): (r: Outcome<Members>)
    ensures r.Done? ==> Len(r.rest) < Len(value)
    decreases Len(value), 0
  {
    if At(value, COMMA) then MembersAt(Skip(value.tail))
    else if At(value, RBRACE) then Done(NoMember, value.tail)
    else Fail(value)
  }

  lemma {:induction false} EndedShorter(s: CString)
    requires Escapes(s)
    ensures Len(Ended(s)) <= Len(s)
    decreases s
  {
    if !Stops(s) {
      AfterShorter(s);
      EndedShorter(After(s));
    }
  }

  lemma AfterShorter(s: CString)
    requires !Stops(s) && Escapes(s)
    ensures Len(After(s)) < Len(s)
  {
    hide Hex4, FourAhead;
    if s.head == BACKSLASH && s.tail.head == LOWER_U {
      FourShorter(s.tail.tail);
      var next := Skip4(s.tail.tail);
      assert Escapes(next);
      if TakesNext(Hex4(s.tail.tail), next) { FourShorter(next.tail.tail); }
    }
  }

  lemma FourShorter(s: CString)
    requires FourAhead(s)
    ensures Len(Skip4(s)) == Len(s) - 4
  {
    var a := s.tail;
    assert Len(a) == 1 + Len(a.tail) && Len(a.tail) == 1 + Len(a.tail.tail);
  }

  lemma StringShrinks(s: CString)
    ensures StringAt(s).Done? ==> Len(StringAt(s).rest) < Len(s)
  {
    if At(s, QUOTE) && Escapes(s.tail) {
      EndedShorter(s.tail);
    }
  }

  lemma NumberShrinks(s: CString)
    requires At(s, MINUS) || DigitAt(s)
    ensures Len(NumberEnd(s)) < Len(s)
  {
    var b := Past(s, MINUS);
    assert Len(PastWhole(b)) < Len(s);
  }

  // The code. Children are appended to the list read so far.

  function Appended(a: Items, b: Items): Items {
    if a.NoItem? then b else Item(a.value, Appended(a.more, b))
  }

  function AppendedMembers(a: Members, b: Members): Members {
    if a.NoMember? then b else Member(a.name, a.value, AppendedMembers(a.more, b))
  }

  lemma {:induction false} AppendedAgain(a: Items, v: Json, b: Items)
    ensures Appended(Appended(a, Item(v, NoItem)), b) == Appended(a, Item(v, b))
  {
    if a.Item? { AppendedAgain(a.more, v, b); }
  }

  lemma {:induction false} AppendedMembersAgain(a: Members, name: chars, v: Json, b: Members)
    ensures AppendedMembers(AppendedMembers(a, Member(name, v, NoMember)), b) == AppendedMembers(a, Member(name, v, b))
  {
    if a.Member? { AppendedMembersAgain(a.more, name, v, b); }
  }

  /** The outcome for all items, given that for those behind the ones read. */
  function WithItems(done: Items, r: Outcome<Items>): Outcome<Json> {
    if r.Done? then Done(Array(Appended(done, r.value)), r.rest) else Again(r)
  }

  function WithMembers(done: Members, r: Outcome<Members>): Outcome<Json> {
    if r.Done? then Done(Object(AppendedMembers(done, r.value)), r.rest) else Again(r)
  }

  method ParseValue(s: CString) returns (r: Outcome<Json>)
    ensures r == ValueAt(s)
    decreases Len(s), 1
  {
    hide StringAt, NumberAt, NumberEnd, ArrayAt, ObjectAt, Matches, Behind;
    if Matches(s, NULL_TEXT) { return Done(Null, Behind(s, NULL_TEXT)); }
    if Matches(s, FALSE_TEXT) { return Done(False, Behind(s, FALSE_TEXT)); }
    if Matches(s, TRUE_TEXT) { return Done(True, Behind(s, TRUE_TEXT)); }
    if At(s, QUOTE) {
      var text := ParseString(s);
      return if text.Done? then Done(String(text.value), text.rest) else Again(text);
    }
    if At(s, MINUS) || DigitAt(s) {
      var value, num := ParseNumber(s);
      return Done(value, num);
    }
    if At(s, LBRACKET) {
      r := ParseArray(s);
    } else if At(s, LBRACE) {
      r := ParseObject(s);
    } else {
      r := Fail(s);
    }
  }

  method ParseArray(s: CString) returns (r: Outcome<Json>)
    requires At(s, LBRACKET)
    ensures r == ArrayAt(s)
    decreases Len(s), 0
  {
    hide ValueAt, Skip;
    var value := SkipBlanks(s.tail);
    if At(value, RBRACKET) { return Done(Array(NoItem), value.tail); }
    value := SkipBlanks(value);
    var v := ParseValue(value);
    if !v.Done? { return Again(v); }
    var items := Item(v.value, NoItem);
    value := SkipBlanks(v.rest);
    ghost var tail := ItemsTail(value);
    AppendedAgain(NoItem, v.value, if tail.Done? then tail.value else NoItem);
    while At(value, COMMA)
      invariant Len(value) < Len(s)
      invariant ArrayAt(s) == WithItems(items, ItemsTail(value))
      decreases Len(value)
    {
      value := SkipBlanks(value.tail);
      v := ParseValue(value);
      if !v.Done? { return Again(v); }
      tail := ItemsTail(Skip(v.rest));
      AppendedAgain(items, v.value, if tail.Done? then tail.value else NoItem);
      items := Appended(items, Item(v.value, NoItem));
      value := SkipBlanks(v.rest);
    }
    AppendedEmpty(items);
    if At(value, RBRACKET) { return Done(Array(items), value.tail); }
    r := Fail(value);
  }

  lemma {:induction false} AppendedEmpty(a: Items)
    ensures Appended(a, NoItem) == a
  {
    if a.Item? { AppendedEmpty(a.more); }
  }

  lemma {:induction false} AppendedNoMember(a: Members)
    ensures AppendedMembers(a, NoMember) == a
  {
    if a.Member? { AppendedNoMember(a.more); }
  }

  /** A name, a colon and a value. */
  method ParseMember(s: CString) returns (name: chars, v: Outcome<Json>)
    ensures v == MemberAt(s)
    ensures v.Done? ==> StringAt(s).Done? && name == StringAt(s).value
    decreases Len(s), 2
  {
    hide ValueAt, Skip, StringAt;
    var n := ParseString(s);
    if !n.Done? { return [], Again(n); }
    StringShrinks(s);
    name := n.value;
    var value := SkipBlanks(n.rest);
    if !At(value, COLON) { return [], Fail(value); }
    value := SkipBlanks(value.tail);
    v := ParseValue(value);
  }

  method ParseObject(s: CString) returns (r: Outcome<Json>)
    requires At(s, LBRACE)
    ensures r == ObjectAt(s)
    decreases Len(s), 0
  {
    hide MemberAt, Skip, StringAt;
    var value := SkipBlanks(s.tail);
    if At(value, RBRACE) { return Done(Object(NoMember), value.tail); }
    value := SkipBlanks(value);
    var name, v := ParseMember(value);
    if !v.Done? { return Again(v); }
    var members := Member(name, v.value, NoMember);
    value := SkipBlanks(v.rest);
    ghost var tail := MembersTail(value);
    AppendedMembersAgain(NoMember, name, v.value, if tail.Done? then tail.value else NoMember);
    while At(value, COMMA)
      invariant Len(value) < Len(s)
      invariant ObjectAt(s) == WithMembers(members, MembersTail(value))
      decreases Len(value)
    {
      value := SkipBlanks(value.tail);
      name, v := ParseMember(value);
      if !v.Done? { return Again(v); }
      tail := MembersTail(Skip(v.rest));
      AppendedMembersAgain(members, name, v.value, if tail.Done? then tail.value else NoMember);
      members := AppendedMembers(members, Member(name, v.value, NoMember));
      value := SkipBlanks(v.rest);
    }
    AppendedNoMember(members);
    if At(value, RBRACE) { return Done(Object(members), value.tail); }
    r := Fail(value);
  }

  /** A whole text, with or without the demand that nothing follows the value. */
  function TextAt(value: CString, requireNullTerminated: bool): Outcome<Json> {
    var r := ValueAt(Skip(value));
    if r.Done? && requireNullTerminated && Skip(r.rest).Char? then Fail(Skip(r.rest))
    else if r.Done? && requireNullTerminated then Done(r.value, End)
    else r
  }

  method ParseWithOpts(value: CString, requireNullTerminated: bool) returns (r: Outcome<Json>)
    ensures r == TextAt(value, requireNullTerminated)
  {
    hide ValueAt, Skip;
    var start := SkipBlanks(value);
    r := ParseValue(start);
    if r.Done? && requireNullTerminated {
      var end := SkipBlanks(r.rest);
      if end.Char? { return Fail(end); }
      r := Done(r.value, end);
    }
  }
}
