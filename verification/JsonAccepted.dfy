// Which texts the parser of cJSON.c accepts: those of its own grammar and no
// others.

module JsonAccepted {
  import opened Bytes
  import opened Powers
  import opened JsonText
  import opened JsonStrings
  import opened JsonParser
  import opened JsonSyntax

  /** s is the text of a value for t, then rest; a string at the very end may lack
      its closing quote. */
  ghost predicate Reads(s: CString, t: Json, rest: CString) {
    || (exists d :: DocForm(d, Cjson) && EndsBefore(d, rest) && s == DocThen(d, rest) && t == Tree(d))
    || (rest.End?
        && exists l :: LiteralForm(l, Cjson) && s == Char(QUOTE, LiteralThen(l, End)) && t == String(Meaning(l)))
  }

  /** White space, such a value, and what follows: nothing but white space when
      the end of the text is demanded. */
  ghost predicate ReadsText(value: CString, t: Json, rest: CString, requireNullTerminated: bool) {
    exists before, s, after ::
      && Blank(before, Cjson) && value == Join(before, s) && Reads(s, t, after)
      && if requireNullTerminated then rest.End? && Blank(after, Cjson) else rest == after
  }

  // Taking a text apart.

  lemma {:induction false} BlankPart(s: CString) returns (blank: CString)
    ensures Blank(blank, Cjson) && s == Join(blank, Skip(s))
    decreases s
  {
    blank := End;
    if s.Char? && s.head <= SPACE {
      blank := BlankPart(s.tail);
      blank := Char(s.head, blank);
    }
  }

  lemma {:induction false} DigitsPart(s: CString) returns (digits: CString)
    ensures Digits(digits) && s == Join(digits, PastDigits(s)) && !DigitAt(PastDigits(s))
    ensures digits.Char? <==> DigitAt(s)
    ensures digits.Char? ==> digits.head == s.head
    decreases s
  {
    digits := End;
    if DigitAt(s) {
      digits := DigitsPart(s.tail);
      digits := Char(s.head, digits);
    }
  }

  lemma WholePart(negative: bool, s: CString) returns (whole: CString)
    requires negative || DigitAt(s)
    ensures WholeForm(negative, whole, Cjson) && s == Join(whole, PastWhole(s)) && WholeEnds(whole, PastWhole(s))
  {
    if !At(s, ZERO) {
      whole := DigitsPart(s);
    } else if At(s.tail, ZERO) {
      whole := Char(ZERO, End);
    } else {
      whole := DigitsPart(s.tail);
      whole := Char(ZERO, whole);
    }
  }

  lemma FractionPart(w: CString) returns (fraction: CString)
    ensures var e := if FractionAt(w) then PastDigits(w.tail) else w;
      && Digits(fraction) && w == FractionThen(fraction, e)
      && if fraction.Char? then !DigitAt(e) else e == w && !FractionAt(w)
  {
    fraction := End;
    if FractionAt(w) { fraction := DigitsPart(w.tail); }
  }

  lemma ExponentPart(e: CString) returns (exponent: Exponent)
    ensures var rest := if ExponentAt(e) then PastExponent(e.tail) else e;
      && ExponentForm(exponent, Cjson) && e == ExponentThen(exponent, rest)
      && if exponent.Exponent? then ExponentEnds(exponent, rest) else rest == e && !ExponentAt(rest)
  {
    exponent := NoExponent;
    if ExponentAt(e) {
      var s := e.tail;
      var signed := At(s, PLUS) || At(s, MINUS);
      var digits := DigitsPart(if signed then s.tail else s);
      exponent := Exponent(e.head, if signed then Char(s.head, End) else End, digits);
      if signed { assert Join(Char(s.head, End), s.tail) == s; }
    }
  }

  lemma NumeralPart(s: CString) returns (n: Numeral)
    requires At(s, MINUS) || DigitAt(s)
    ensures NumeralForm(n, Cjson) && s == NumeralThen(n, NumberEnd(s)) && NumeralEnds(n, NumberEnd(s))
  {
    var b := Past(s, MINUS);
    var w := PastWhole(b);
    var e := MantissaEnd(s);
    var whole := WholePart(At(s, MINUS), b);
    var fraction := FractionPart(w);
    var exponent := ExponentPart(e);
    n := Numeral(At(s, MINUS), whole, fraction, exponent);
    hide PastWhole, PastExponent, PastDigits, Join, Digits;
  }

  /** A literal, up to its quote or the end of the text. */
  lemma {:induction false} LiteralPart(s: CString) returns (l: Literal)
    requires Escapes(s)
    ensures LiteralForm(l, Cjson) && Stops(Closing(s)) && s == LiteralThen(l, Closing(s))
    decreases s
  {
    if Stops(s) {
      l := NoPiece;
    } else if s.head != BACKSLASH {
      l := LiteralPart(s.tail);
      l := Plain(s.head, l);
    } else if s.tail.head != LOWER_U {
      l := LiteralPart(s.tail.tail);
      l := Short(s.tail.head, l);
    } else {
      var h := s.tail.tail;
      FourPlain(h);
      l := LiteralPart(Skip4(h));
      l := Unit(h.head, h.tail.head, h.tail.tail.head, h.tail.tail.tail.head, l);
    }
  }

  /** A string literal, closed or at the end of the text. */
  lemma StringPart(s: CString) returns (l: Literal)
    requires StringAt(s).Done?
    ensures LiteralForm(l, Cjson) && StringAt(s).value == Meaning(l)
    ensures s == Quoted(l, StringAt(s).rest) || (StringAt(s).rest.End? && s == Char(QUOTE, LiteralThen(l, End)))
  {
    l := LiteralPart(s.tail);
    LiteralRead(l, Closing(s.tail));
    hide Escapes, Decoded, Ended, LiteralThen, Meaning, LiteralForm;
  }

  // Values, arrays and objects: only a string at the end of the text may lack
  // its closing quote.

  /** A value that more text follows, or that is closed. */
  ghost predicate Shut(s: CString) {
    At(s, QUOTE) && StringAt(s).Done? && StringAt(s).rest.End? ==>
      exists l :: LiteralForm(l, Cjson) && s == Quoted(l, End)
  }

  lemma ShutWhenFollowed(s: CString)
    requires ValueAt(s).Done? && ValueAt(s).rest.Char?
    ensures Shut(s)
  {
    hide StringAt, NumberAt, NumberEnd, ArrayAt, ObjectAt, LiteralForm, Matches, Behind;
    if At(s, QUOTE) { NoWord(s); }
  }

  lemma {:induction false} WordPart(s: CString, word: chars)
    requires Matches(s, word)
    ensures s == Onto(word, Behind(s, word))
  {
    if word != [] { WordPart(s.tail, word[1..]); }
  }

  lemma SimplePart(s: CString) returns (d: Doc)
    requires ValueAt(s).Done? && !At(s, QUOTE) && !At(s, LBRACKET) && !At(s, LBRACE)
    ensures DocForm(d, Cjson) && s == DocThen(d, ValueAt(s).rest) && EndsBefore(d, ValueAt(s).rest)
  {
    hide Onto, NumberAt, NumberEnd, NumeralThen, NumeralForm, NumeralEnds, StringAt, ArrayAt, ObjectAt;
    if Matches(s, NULL_TEXT) {
      WordPart(s, NULL_TEXT);
      d := NullDoc;
    } else if Matches(s, FALSE_TEXT) {
      WordPart(s, FALSE_TEXT);
      d := FalseDoc;
    } else if Matches(s, TRUE_TEXT) {
      WordPart(s, TRUE_TEXT);
      d := TrueDoc;
    } else {
      var n := NumeralPart(s);
      d := NumberDoc(n);
    }
    hide Matches, Behind;
  }

  lemma ShutPart(s: CString) returns (d: Doc)
    requires ValueAt(s).Done? && At(s, QUOTE) && Shut(s)
    ensures DocForm(d, Cjson) && s == DocThen(d, ValueAt(s).rest) && EndsBefore(d, ValueAt(s).rest)
  {
    NoWord(s);
    hide Matches, StringAt, LiteralForm, NumberAt, NumberEnd, ArrayAt, ObjectAt, Quoted, Behind;
    var l := StringPart(s);
    if StringAt(s).rest.End? && s != Quoted(l, End) {
      l :| LiteralForm(l, Cjson) && s == Quoted(l, End);
    }
    d := StringDoc(l);
  }

  /** Every value accepted is a document, read up to where that document ends. */
  lemma {:induction false} DocPart(s: CString) returns (d: Doc)
    requires ValueAt(s).Done? && Shut(s)
    ensures DocForm(d, Cjson) && s == DocThen(d, ValueAt(s).rest) && EndsBefore(d, ValueAt(s).rest)
    decreases Len(s), 1
  {
    hide ValueAt, Shut, ItemsThen, MembersThen, ItemsForm, MembersForm, Blank;
    if At(s, QUOTE) {
      d := ShutPart(s);
    } else if At(s, LBRACKET) {
      d := ArrayPart(s);
    } else if At(s, LBRACE) {
      d := ObjectPart(s);
    } else {
      d := SimplePart(s);
    }
  }

  lemma ArrayRead(s: CString)
    requires At(s, LBRACKET) && ValueAt(s).Done?
    ensures var value, rest := Skip(s.tail), ValueAt(s).rest;
      if At(value, RBRACKET) then rest == value.tail else ItemsAt(value).Done? && rest == ItemsAt(value).rest
  {
    ValueCases(s);
    SkipTwice(s.tail);
    hide ValueAt, ItemsAt, Skip;
  }

  lemma {:induction false} ArrayPart(s: CString) returns (d: Doc)
    requires At(s, LBRACKET) && ValueAt(s).Done?
    ensures DocForm(d, Cjson) && !d.NumberDoc? && s == DocThen(d, ValueAt(s).rest)
    decreases Len(s), 0
  {
    ArrayRead(s);
    hide ValueAt, ItemsAt, ItemsThen, ItemsForm, Skip, Join, Blank;
    if At(Skip(s.tail), RBRACKET) {
      var inner := BlankPart(s.tail);
      d := EmptyArrayDoc(inner);
    } else {
      var items := ItemsPart(s.tail);
      d := ArrayDoc(items);
    }
  }

  /** The items from x on. */
  lemma {:induction false} ItemsPart(x: CString) returns (d: ItemDocs)
    requires ItemsAt(Skip(x)).Done?
    ensures ItemsForm(d, Cjson) && x == ItemsThen(d, ItemsAt(Skip(x)).rest)
    decreases Len(x), 2
  {
    var s := Skip(x);
    var v := ValueAt(s);
    var before := BlankPart(x);
    var after := BlankPart(v.rest);
    assert v.rest.Char?;
    ShutWhenFollowed(s);
    var next := Skip(v.rest);
    var value := DocPart(s);
    hide ValueAt, ItemsAt, Skip, Join, Blank, DocForm, DocThen, Shut;
    if At(next, COMMA) {
      var more := ItemsPart(next.tail);
      d := MoreItems(before, value, after, more);
    } else {
      d := LastItem(before, value, after);
    }
  }

  lemma ObjectRead(s: CString)
    requires At(s, LBRACE) && ValueAt(s).Done?
    ensures var value, rest := Skip(s.tail), ValueAt(s).rest;
      if At(value, RBRACE) then rest == value.tail else MembersAt(value).Done? && rest == MembersAt(value).rest
  {
    ValueCases(s);
    SkipTwice(s.tail);
    hide ValueAt, MembersAt, Skip;
  }

  lemma {:induction false} ObjectPart(s: CString) returns (d: Doc)
    requires At(s, LBRACE) && ValueAt(s).Done?
    ensures DocForm(d, Cjson) && !d.NumberDoc? && s == DocThen(d, ValueAt(s).rest)
    decreases Len(s), 0
  {
    ObjectRead(s);
    hide ValueAt, MembersAt, MembersThen, MembersForm, Skip, Join, Blank;
    if At(Skip(s.tail), RBRACE) {
      var inner := BlankPart(s.tail);
      d := EmptyObjectDoc(inner);
    } else {
      var members := MembersPart(s.tail);
      d := ObjectDoc(members);
    }
  }

  /** A member taken apart: its name, its value, and what follows the value. */
  lemma MemberRead(s: CString)
    requires MembersAt(s).Done?
    ensures StringAt(s).Done? && Len(StringAt(s).rest) < Len(s)
    ensures At(Skip(StringAt(s).rest), COLON)
    ensures var v := ValueAt(Skip(Skip(StringAt(s).rest).tail));
      && v.Done? && v.rest.Char?
      && var next, rest := Skip(v.rest), MembersAt(s).rest;
         if At(next, COMMA) then MembersAt(Skip(next.tail)).Done? && rest == MembersAt(Skip(next.tail)).rest
         else At(next, RBRACE) && rest == next.tail
  {
    StringShrinks(s);
    hide StringAt, ValueAt;
  }

  /** The members from x on. */
  lemma {:induction false} MembersPart(x: CString) returns (d: MemberDocs)
    requires MembersAt(Skip(x)).Done?
    ensures MembersForm(d, Cjson) && x == MembersThen(d, MembersAt(Skip(x)).rest)
    decreases Len(x), 2
  {
    hide ValueAt, MembersAt, StringAt, Skip, Join, Blank, DocForm, DocThen, Shut, Quoted, LiteralForm, LiteralThen;
    hide Meaning, Tree, EndsBefore, Follows;
    var s := Skip(x);
    MemberRead(s);
    var nameEnd := StringAt(s).rest;
    var colon := Skip(nameEnd);
    var valueAt := Skip(colon.tail);
    var valueEnd := ValueAt(valueAt).rest;
    var next := Skip(valueEnd);
    var name := StringPart(s);
    ShutWhenFollowed(valueAt);
    var value := DocPart(valueAt);
    var before := BlankPart(x);
    var beforeColon := BlankPart(nameEnd);
    var afterColon := BlankPart(colon.tail);
    var after := BlankPart(valueEnd);
    if At(next, COMMA) {
      var more := MembersPart(next.tail);
      d := MoreMembers(before, name, beforeColon, afterColon, value, after, more);
    } else {
      d := LastMember(before, name, beforeColon, afterColon, value, after);
    }
  }

  // The parser accepts these texts and no others.

  lemma OpenRead(l: Literal)
    requires LiteralForm(l, Cjson)
    ensures ValueAt(Char(QUOTE, LiteralThen(l, End))) == Done(String(Meaning(l)), End)
  {
    var s := Char(QUOTE, LiteralThen(l, End));
    LiteralRead(l, End);
    assert StringAt(s) == Done(Meaning(l), End);
    hide StringAt, LiteralThen, Meaning, Escapes, Decoded, Ended;
    ValueCases(s);
  }

  lemma OpenPart(s: CString)
    requires ValueAt(s).Done? && !Shut(s)
    ensures ValueAt(s).rest.End?
    ensures exists l ::
      LiteralForm(l, Cjson) && s == Char(QUOTE, LiteralThen(l, End)) && ValueAt(s).value == String(Meaning(l))
  {
    hide ValueAt, StringAt, LiteralThen, Meaning, LiteralForm, Quoted;
    ValueCases(s);
    var l := StringPart(s);
    assert LiteralForm(l, Cjson) && s == Char(QUOTE, LiteralThen(l, End));
  }

  lemma ShutReads(s: CString)
    requires ValueAt(s).Done? && Shut(s)
    ensures Reads(s, ValueAt(s).value, ValueAt(s).rest)
  {
    hide ValueAt, Shut, DocForm, DocThen, Tree, EndsBefore;
    var d := DocPart(s);
    DocRead(d, ValueAt(s).rest);
  }

  /** What is read is the text of a value, and every such text is read, with its
      own tree. */
  lemma ValueAccepted(s: CString, t: Json, rest: CString)
    ensures ValueAt(s) == Done(t, rest) <==> Reads(s, t, rest)
  {
    hide ValueAt, DocForm, DocThen, Tree, EndsBefore, LiteralForm, LiteralThen, Meaning, Shut;
    if ValueAt(s) == Done(t, rest) {
      if Shut(s) { ShutReads(s); } else { OpenPart(s); }
    }
    if d :| DocForm(d, Cjson) && EndsBefore(d, rest) && s == DocThen(d, rest) && t == Tree(d) { DocRead(d, rest); }
    if l :| rest.End? && LiteralForm(l, Cjson) && s == Char(QUOTE, LiteralThen(l, End)) && t == String(Meaning(l)) {
      OpenRead(l);
    }
  }

  lemma BlankOnly(s: CString)
    ensures Skip(s).End? <==> Blank(s, Cjson)
  {
    var blank := BlankPart(s);
    if Blank(s, Cjson) { SkipJoin(s, End); }
    JoinEnd(s);
    JoinEnd(blank);
  }

  lemma {:induction false} JoinEnd(s: CString)
    ensures Join(s, End) == s
  {
    if s.Char? { JoinEnd(s.tail); }
  }

  /** A value does not start with white space. */
  lemma ReadsStarts(s: CString, t: Json, rest: CString)
    requires Reads(s, t, rest)
    ensures Skip(s) == s
  {
    if d :| DocForm(d, Cjson) && EndsBefore(d, rest) && s == DocThen(d, rest) && t == Tree(d) { NotClosing(d, rest); }
    hide DocForm, DocThen, Tree, EndsBefore, LiteralForm, LiteralThen, Meaning;
  }

  /** cJSON_ParseWithOpts accepts exactly the texts of its grammar. */
  lemma TextAccepted(value: CString, t: Json, rest: CString, requireNullTerminated: bool)
    ensures TextAt(value, requireNullTerminated) == Done(t, rest) <==> ReadsText(value, t, rest, requireNullTerminated)
  {
    hide ValueAt, Reads, Skip, Join, Blank;
    if TextAt(value, requireNullTerminated) == Done(t, rest) {
      var s, after := Skip(value), ValueAt(Skip(value)).rest;
      var before := BlankPart(value);
      ValueAccepted(s, t, after);
      BlankOnly(after);
      assert value == Join(before, s) && Reads(s, t, after);
    }
    if before, s, after :|
      && Blank(before, Cjson) && value == Join(before, s) && Reads(s, t, after)
      && if requireNullTerminated then rest.End? && Blank(after, Cjson) else rest == after
    {
      SkipJoin(before, s);
      ReadsStarts(s, t, after);
      ValueAccepted(s, t, after);
      BlankOnly(after);
    }
  }

  // Texts that are refused, and where.

  /** A one and the letter a in quotes, as values. */
  lemma OneAndLetter(rest: CString)
    requires Follows(rest) || At(rest, COLON)
    ensures ValueAt(Char(49, rest)) == Done(Number(1, 0), rest)
    ensures StringAt(Char(QUOTE, Char(LOWER_A, Char(QUOTE, rest)))) == Done([LOWER_A], rest)
  {
    var n, l := Numeral(false, Char(49, End), End, NoExponent), Plain(LOWER_A, NoPiece);
    assert Positional(Char(49, End)) == 1 && NumeralMeaning(n) == Number(1, 0) by { assert Pow10(0) == 1; }
    assert Join(End, rest) == rest && Join(Char(49, End), rest) == Char(49, rest);
    assert Meaning(l) == [LOWER_A] + Meaning(NoPiece) == [LOWER_A];
    assert LiteralThen(NoPiece, Char(QUOTE, rest)) == Char(QUOTE, rest);
    DocRead(NumberDoc(n), rest);
    StringRead(l, rest);
    hide ValueAt, StringAt;
  }

  lemma NothingStarts(s: CString)
    ensures At(s, RBRACKET) || At(s, RBRACE) || At(s, COMMA) || s.End? ==> ValueAt(s) == Fail(s)
  {
  }

  lemma SkipNone(s: CString)
    ensures s.Char? && s.head > SPACE ==> Skip(s) == s && Skip(Char(SPACE, s)) == s
  {
  }

  /** [1} and [1 2] fail behind the item, [1,] where an item is missing. */
  lemma ArraysRefused()
    ensures var at := Char(RBRACE, End); ValueAt(Char(LBRACKET, Char(49, at))) == Fail(at)
    ensures var at := Char(50, Char(RBRACKET, End)); ValueAt(Char(LBRACKET, Char(49, Char(SPACE, at)))) == Fail(at)
    ensures var at := Char(RBRACKET, End); ValueAt(Char(LBRACKET, Char(49, Char(COMMA, at)))) == Fail(at)
  {
    hide Skip, ValueAt, StringAt, NumberAt, NumberEnd;
    ArrayRefused(Char(RBRACE, End), Char(RBRACE, End));
    var two := Char(50, Char(RBRACKET, End));
    ArrayRefused(Char(SPACE, two), two);
    var at := Char(RBRACKET, End);
    NothingStarts(at);
    SkipNone(at);
    SkipNone(Char(COMMA, at));
    SkipNone(Char(49, Char(COMMA, at)));
    OneAndLetter(Char(COMMA, at));
    ValueCases(Char(LBRACKET, Char(49, Char(COMMA, at))));
  }

  lemma ArrayRefused(rest: CString, at: CString)
    requires (rest == at || rest == Char(SPACE, at)) && at.Char? && at.head > SPACE && Follows(rest)
    requires !At(at, COMMA) && !At(at, RBRACKET)
    ensures ValueAt(Char(LBRACKET, Char(49, rest))) == Fail(at)
  {
    hide Skip, ValueAt, StringAt, NumberAt, NumberEnd;
    OneAndLetter(rest);
    SkipNone(at);
    SkipNone(Char(49, rest));
    assert Skip(rest) == at && ItemsTail(at) == Fail(at);
    ValueCases(Char(LBRACKET, Char(49, rest)));
  }

  /** {1} fails where a name is missing, {"a" 1} where the colon is, {"a":1]
      behind the value. */
  lemma ObjectsRefused()
    ensures var at := Char(49, Char(RBRACE, End)); ValueAt(Char(LBRACE, at)) == Fail(at)
    ensures var at := Char(49, Char(RBRACE, End));
      ValueAt(Char(LBRACE, Char(QUOTE, Char(LOWER_A, Char(QUOTE, Char(SPACE, at)))))) == Fail(at)
    ensures var at := Char(RBRACKET, End);
      ValueAt(Char(LBRACE, Char(QUOTE, Char(LOWER_A, Char(QUOTE, Char(COLON, Char(49, at))))))) == Fail(at)
  {
    hide Skip, ValueAt, NumberAt, NumberEnd;
    var one, close := Char(49, Char(RBRACE, End)), Char(RBRACKET, End);
    SkipNone(one);
    ValueCases(Char(LBRACE, one));
    assert StringAt(one) == Fail(one);
    hide StringAt;
    OneAndLetter(Char(SPACE, one));
    var named := Char(QUOTE, Char(LOWER_A, Char(QUOTE, Char(SPACE, one))));
    SkipNone(named);
    ValueCases(Char(LBRACE, named));
    var colon := Char(COLON, Char(49, close));
    OneAndLetter(close);
    OneAndLetter(colon);
    SkipNone(close);
    SkipNone(Char(49, close));
    SkipNone(colon);
    var member := Char(QUOTE, Char(LOWER_A, Char(QUOTE, colon)));
    SkipNone(member);
    ValueCases(Char(LBRACE, member));
  }

  /** A second value behind the first is an error only when the end is demanded. */
  lemma TrailingRefused()
    ensures var at := Char(50, End);
      && TextAt(Char(49, Char(SPACE, at)), true) == Fail(at)
      && TextAt(Char(49, Char(SPACE, at)), false) == Done(Number(1, 0), Char(SPACE, at))
  {
    hide ValueAt, Skip;
    var at := Char(50, End);
    SkipNone(at);
    SkipNone(Char(49, Char(SPACE, at)));
    OneAndLetter(Char(SPACE, at));
  }
}
