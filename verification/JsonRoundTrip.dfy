// The printed text of a tree is one of its documents, so parsing it gives the
// tree back.

module JsonRoundTrip {
  import opened Bytes
  import opened Powers
  import opened JsonText
  import opened JsonStrings
  import opened JsonParser
  import opened JsonSyntax

  // The document each printer lays a tree out as.

  function LaidNumber(n: int): Numeral {
    Numeral(n < 0, Onto(Decimal(if n < 0 then -n else n), End), End, NoExponent)
  }

  function LaidString(s: chars): Literal {
    if s == [] then NoPiece
    else
      var c, more := s[0], LaidString(s[1..]);
      if EscapeLetter(c) != 0 then Short(EscapeLetter(c), more)
      else if c < 32 then Unit(ZERO, ZERO, HighHex(c), LowHex(c), more)
      else Plain(c, more)
  }

  function Spaces(fmt: bool, s: chars): CString {
    Onto(If(fmt, s), End)
  }

  function Laid(t: Json, depth: nat, fmt: bool): Doc
    requires Integral(t)
    decreases t
  {
    match t
    case Null => NullDoc
    case False => FalseDoc
    case True => TrueDoc
    case Number(n, _) => NumberDoc(LaidNumber(n))
    case String(s) => StringDoc(LaidString(s))
    case Array(items) => if items.NoItem? then EmptyArrayDoc(End) else ArrayDoc(LaidItems(items, true, depth + 1, fmt))
    case Object(members) =>
      if members.NoMember? then EmptyObjectDoc(Spaces(fmt, [LF] + Tabs(depth - 1)))
      else ObjectDoc(LaidMembers(members, depth + 1, fmt))
  }

  function LaidItems(items: Items, first: bool, depth: nat, fmt: bool): ItemDocs
    requires items.Item? && IntegralItems(items)
    decreases items
  {
    var before, value := Spaces(fmt && !first, [SPACE]), Laid(items.value, depth, fmt);
    if items.more.NoItem? then LastItem(before, value, End)
    else MoreItems(before, value, End, LaidItems(items.more, false, depth, fmt))
  }

  function LaidMembers(members: Members, depth: nat, fmt: bool): MemberDocs
    requires members.Member? && IntegralMembers(members) && depth > 0
    decreases members
  {
    var before, value := Spaces(fmt, [LF] + Tabs(depth)), Laid(members.value, depth, fmt);
    var name, gap := LaidString(members.name), Spaces(fmt, [TAB]);
    if members.more.NoMember? then LastMember(before, name, End, gap, value, Spaces(fmt, [LF] + Tabs(depth - 1)))
    else MoreMembers(before, name, End, gap, value, End, LaidMembers(members.more, depth, fmt))
  }

  // Numbers.

  lemma {:induction false} AppendDigit(a: chars, d: chr)
    requires Digits(Onto(a, End)) && ZERO <= d <= NINE
    ensures Digits(Onto(a + [d], End)) && Len(Onto(a + [d], End)) == Len(Onto(a, End)) + 1
    ensures Positional(Onto(a + [d], End)) == 10 * Positional(Onto(a, End)) + (d as int - ZERO as int)
  {
    if a == [] {
      assert a + [d] == [d];
      LoneDigit(d);
    } else {
      assert (a + [d])[1..] == a[1..] + [d];
      AppendDigit(a[1..], d);
      TenTimes(a[0] as int - ZERO as int, Pow10(Len(Onto(a[1..], End))));
    }
  }

  lemma LoneDigit(d: chr)
    requires ZERO <= d <= NINE
    ensures Onto([d], End) == Char(d, End) && Digits(Char(d, End)) && Positional(Char(d, End)) == d as int - ZERO as int
  {
    assert [d][1..] == [];
    assert Pow10(0) == 1;
  }

  lemma TenTimes(d: int, p: int)
    ensures d * (10 * p) == 10 * (d * p)
  {
  }

  /** Decimal text is digits without a leading zero, and means its number. */
  lemma {:induction false} DecimalMeans(n: nat)
    ensures var s := Onto(Decimal(n), End);
            Digits(s) && Positional(s) == n && s.Char? && (s.head == ZERO ==> s.tail.End?) && (n > 0 ==> s.head != ZERO)
  {
    var d := Digit(n % 10);
    if n < 10 {
      assert Decimal(n) == [d];
      LoneDigit(d);
    } else {
      DecimalMeans(n / 10);
      AppendDigit(Decimal(n / 10), d);
      assert Decimal(n) == Decimal(n / 10) + [d];
      assert Decimal(n)[0] == Decimal(n / 10)[0];
    }
  }

  lemma {:induction false} JoinOnto(a: chars, rest: CString)
    ensures Join(Onto(a, End), rest) == Onto(a, rest)
  {
    if a != [] { JoinOnto(a[1..], rest); }
  }

  lemma WholeMeans(negative: bool, whole: CString)
    ensures NumeralMeaning(Numeral(negative, whole, End, NoExponent)) == Number(Signed(negative, Positional(whole)), 0)
  {
    assert Positional(End) == 0 && Pow10(Len(End)) == 1;
    hide Positional;
  }

  lemma NumberMeans(n: int)
    ensures NumeralForm(LaidNumber(n), Rfc8259) && NumeralMeaning(LaidNumber(n)) == Number(n, 0)
  {
    hide Decimal, Onto, Positional, NumeralMeaning, Pow10;
    DecimalMeans(if n < 0 then -n else n);
    WholeMeans(n < 0, LaidNumber(n).whole);
  }

  lemma NumberLaid(n: int, rest: CString)
    ensures NumeralThen(LaidNumber(n), rest) == Onto(NumberText(n), rest)
  {
    var m := Decimal(if n < 0 then -n else n);
    JoinOnto(m, rest);
    OntoConcat([MINUS], m, rest);
    OneOnto(MINUS, Onto(m, rest));
    hide Onto, Decimal, Join;
  }

  lemma OneOnto(c: chr, rest: CString)
    ensures Onto([c], rest) == Char(c, rest)
  {
    assert [c][1..] == [];
  }

  // Strings.

  lemma HexDigits(d: nat)
    ensures d < 16 ==> HexValue(HexDigit(d)) == d
  {
  }

  lemma ControlUnit(c: chr, more: Literal)
    requires c < 32 && LiteralForm(more, Rfc8259)
    ensures var l := Unit(ZERO, ZERO, HighHex(c), LowHex(c), more);
            LiteralForm(l, Rfc8259) && UnitValue(l) == c && Utf8(c) == [c]
  {
    assert HexDigit(0) == ZERO;
    hide HexDigit, HexValue;
    HexDigits(c / 16);
    HexDigits(c % 16);
    HexDigits(0);
  }

  lemma ShortBack(c: chr)
    requires EscapeLetter(c) != 0
    ensures 0 < EscapeLetter(c) < 256 && EscapeLetter(c) in SHORT_LETTERS && ShortEscape(EscapeLetter(c)) == c
  {
  }

  lemma {:induction false} StringMeans(s: chars)
    ensures LiteralForm(LaidString(s), Rfc8259) && Meaning(LaidString(s)) == s == Meant(LaidString(s))
  {
    if s != [] {
      var c := s[0];
      StringMeans(s[1..]);
      assert s == [c] + s[1..];
      if EscapeLetter(c) != 0 { ShortBack(c); }
      else if c < 32 { ControlUnit(c, LaidString(s[1..])); }
      hide UnitValue, Utf8;
    }
  }

  lemma EscapedOnto(c: chr, rest: CString)
    ensures Onto(Escaped(c), rest) ==
            if EscapeLetter(c) != 0 then Char(BACKSLASH, Char(EscapeLetter(c), rest))
            else if c < 32
              then Char(BACKSLASH, Char(LOWER_U, Char(ZERO, Char(ZERO, Char(HighHex(c), Char(LowHex(c), rest))))))
            else Char(c, rest)
  {
    if EscapeLetter(c) != 0 {
      OntoTwo(BACKSLASH, EscapeLetter(c), rest);
    } else if c < 32 {
      var h, l := HighHex(c), LowHex(c);
      assert Escaped(c) == [BACKSLASH, LOWER_U] + ([ZERO, ZERO] + [h, l]);
      OntoConcat([BACKSLASH, LOWER_U], [ZERO, ZERO] + [h, l], rest);
      OntoConcat([ZERO, ZERO], [h, l], rest);
      OntoTwo(h, l, rest);
      OntoTwo(ZERO, ZERO, Onto([h, l], rest));
      OntoTwo(BACKSLASH, LOWER_U, Onto([ZERO, ZERO], Onto([h, l], rest)));
    } else {
      OneOnto(c, rest);
    }
  }

  lemma OntoTwo(a: chr, b: chr, rest: CString)
    ensures Onto([a, b], rest) == Char(a, Char(b, rest))
  {
    assert [a, b][1..] == [b];
    OneOnto(b, rest);
  }

  lemma {:induction false} StringLaid(s: chars, rest: CString)
    ensures LiteralThen(LaidString(s), rest) == Onto(EscapedAll(s), rest)
  {
    hide Escaped;
    if s != [] {
      StringLaid(s[1..], rest);
      OntoConcat(Escaped(s[0]), EscapedAll(s[1..]), rest);
      EscapedOnto(s[0], Onto(EscapedAll(s[1..]), rest));
      hide Onto;
    }
  }

  lemma QuotedLaid(s: chars, rest: CString)
    ensures Quoted(LaidString(s), rest) == Onto(StringText(s), rest)
  {
    var e := EscapedAll(s);
    OntoConcat([QUOTE] + e, [QUOTE], rest);
    OntoConcat([QUOTE], e, Onto([QUOTE], rest));
    OneOnto(QUOTE, rest);
    OneOnto(QUOTE, Onto(e, Char(QUOTE, rest)));
    StringLaid(s, Char(QUOTE, rest));
    hide Onto;
  }

  // Trees.

  lemma {:induction false} BlankTabs(n: int)
    ensures Blank(Onto(Tabs(n), End), Rfc8259)
  {
    if n > 0 {
      BlankTabs(n - 1);
      assert Tabs(n)[1..] == Tabs(n - 1);
    }
  }

  lemma BlankLine(fmt: bool, n: int)
    ensures Blank(Spaces(fmt, [LF] + Tabs(n)), Rfc8259)
  {
    BlankTabs(n);
    OntoConcat([LF], Tabs(n), End);
    OneOnto(LF, Onto(Tabs(n), End));
    hide Tabs;
  }

  lemma BlankOne(fmt: bool, c: chr)
    requires c == SPACE || c == TAB
    ensures Blank(Spaces(fmt, [c]), Rfc8259)
  {
    OneOnto(c, End);
  }

  /** The laid out document is well-formed; the code reads it as the
      tree, which is also what the standard means by it. */
  lemma {:induction false} LaidMeans(t: Json, depth: nat, fmt: bool)
    requires Integral(t)
    ensures var d := Laid(t, depth, fmt); DocForm(d, Rfc8259) && Tree(d) == t && StandsFor(t, d)
    decreases t
  {
    hide Meaning, Meant, NumeralMeaning, LaidString, LaidNumber, NumeralForm, LiteralForm, Blank, Spaces;
    match t
    case Number(n, _) => NumberMeans(n);
    case String(s) => StringMeans(s);
    case Array(items) =>
      if items.Item? { LaidItemsMean(items, true, depth + 1, fmt); }
      BlankEnd();
    case Object(members) =>
      if members.Member? { LaidMembersMean(members, depth + 1, fmt); }
      BlankLine(fmt, depth - 1);
    case _ =>
  }

  lemma BlankEnd()
    ensures Blank(End, Rfc8259)
  {
  }

  lemma {:induction false} LaidItemsMean(items: Items, first: bool, depth: nat, fmt: bool)
    requires items.Item? && IntegralItems(items)
    ensures var d := LaidItems(items, first, depth, fmt);
      ItemsForm(d, Rfc8259) && ItemTrees(d) == items && ItemsStandFor(items, d)
    decreases items
  {
    hide Laid, Tree, StandsFor, DocForm, Blank, Spaces;
    LaidMeans(items.value, depth, fmt);
    BlankOne(fmt && !first, SPACE);
    BlankEnd();
    if items.more.Item? { LaidItemsMean(items.more, false, depth, fmt); }
  }

  lemma {:induction false} LaidMembersMean(members: Members, depth: nat, fmt: bool)
    requires members.Member? && IntegralMembers(members) && depth > 0
    ensures var d := LaidMembers(members, depth, fmt);
      MembersForm(d, Rfc8259) && MemberTrees(d) == members && MembersStandFor(members, d)
    decreases members
  {
    hide Laid, Tree, StandsFor, DocForm, Blank, Spaces, LaidString, LiteralForm, Meaning, Meant;
    LaidMeans(members.value, depth, fmt);
    StringMeans(members.name);
    BlankLine(fmt, depth);
    BlankLine(fmt, depth - 1);
    BlankOne(fmt, TAB);
    BlankEnd();
    if members.more.Member? { LaidMembersMean(members.more, depth, fmt); }
  }

  lemma Onto3(a: chars, b: chars, c: chars, rest: CString)
    ensures Onto(a + b + c, rest) == Onto(a, Onto(b, Onto(c, rest)))
  {
    OntoConcat(a + b, c, rest);
    OntoConcat(a, b, Onto(c, rest));
    hide Onto;
  }

  /** Its text is the printed text. */
  lemma {:induction false} LaidText(t: Json, depth: nat, fmt: bool, rest: CString)
    requires Integral(t)
    ensures DocThen(Laid(t, depth, fmt), rest) == Onto(Text(t, depth, fmt), rest)
    decreases t, 1
  {
    hide Onto, NumeralThen, LaidNumber, LaidString, Quoted, NumberText, StringText, Join, Spaces, Tabs;
    match t
    case Number(n, _) => NumberLaid(n, rest);
    case String(s) => QuotedLaid(s, rest);
    case Array(items) => ArrayLaid(items, depth, fmt, rest);
    case Object(members) => ObjectLaid(members, depth, fmt, rest);
    case _ =>
  }

  lemma ArrayLaid(items: Items, depth: nat, fmt: bool, rest: CString)
    requires IntegralItems(items)
    ensures DocThen(Laid(Array(items), depth, fmt), rest) == Onto(Text(Array(items), depth, fmt), rest)
    decreases items, 1
  {
    hide Onto, Join;
    Onto3([LBRACKET], ItemsText(items, depth + 1, fmt), [RBRACKET], rest);
    OneOnto(RBRACKET, rest);
    OneOnto(LBRACKET, Onto(ItemsText(items, depth + 1, fmt), Char(RBRACKET, rest)));
    NoneOnto(Char(RBRACKET, rest));
    if items.Item? {
      hide ItemsText, ItemsThen, LaidItems;
      NoneOnto(Onto(ItemsText(items, depth + 1, fmt), Char(RBRACKET, rest)));
      ItemsLaid(items, true, depth + 1, fmt, rest);
    }
  }

  lemma NoneOnto(rest: CString)
    ensures Onto([], rest) == rest && Join(End, rest) == rest
  {
  }

  lemma {:induction false} ItemsLaid(items: Items, first: bool, depth: nat, fmt: bool, rest: CString)
    requires items.Item? && IntegralItems(items)
    ensures ItemsThen(LaidItems(items, first, depth, fmt), rest)
         == Onto(If(fmt && !first, [SPACE]), Onto(ItemsText(items, depth, fmt), Char(RBRACKET, rest)))
    decreases items, 0
  {
    hide Onto, Join, Laid, Text, DocThen;
    var close, more := Char(RBRACKET, rest), items.more;
    var text, end, last := Text(items.value, depth, fmt), ItemEnd(more, fmt), ItemsText(more, depth, fmt);
    Onto3(text, end, last, close);
    var next := Onto(end, Onto(last, close));
    if more.Item? {
      ItemsLaid(more, false, depth, fmt, rest);
      OntoConcat([COMMA], If(fmt, [SPACE]), Onto(last, close));
      OneOnto(COMMA, Onto(If(fmt, [SPACE]), Onto(last, close)));
    } else {
      NoneOnto(close);
    }
    NoneOnto(next);
    LaidText(items.value, depth, fmt, next);
    JoinOnto(If(fmt && !first, [SPACE]), Onto(text, next));
    hide If;
  }

  /** A new line and its tabs, as white space and as printed. */
  lemma LineOnto(fmt: bool, n: int, rest: CString)
    ensures Join(Spaces(fmt, [LF] + Tabs(n)), rest) == Onto(If(fmt, [LF]), Onto(If(fmt, Tabs(n)), rest))
  {
    JoinOnto(If(fmt, [LF] + Tabs(n)), rest);
    OntoConcat([LF], Tabs(n), rest);
    NoneOnto(rest);
    hide Onto, Tabs;
  }

  lemma ObjectLaid(members: Members, depth: nat, fmt: bool, rest: CString)
    requires IntegralMembers(members)
    ensures DocThen(Laid(Object(members), depth, fmt), rest) == Onto(Text(Object(members), depth, fmt), rest)
    decreases members, 1
  {
    hide Onto, Join, Tabs, MembersText;
    var tabs := If(fmt, Tabs(if members.NoMember? then depth - 1 else depth));
    var line, text := If(fmt, [LF]), MembersText(members, depth + 1, fmt);
    Onto3([LBRACE] + line + text, tabs, [RBRACE], rest);
    OneOnto(RBRACE, rest);
    var close := Onto(tabs, Char(RBRACE, rest));
    Onto3([LBRACE], line, text, close);
    OneOnto(LBRACE, Onto(line, Onto(text, close)));
    if members.NoMember? {
      EmptyText(depth + 1, fmt);
      NoneOnto(close);
      LineOnto(fmt, depth - 1, Char(RBRACE, rest));
    } else {
      hide MembersThen, LaidMembers, If;
      MembersLaid(members, depth + 1, fmt, rest);
    }
  }

  lemma EmptyText(depth: nat, fmt: bool)
    ensures MembersText(NoMember, depth, fmt) == []
  {
  }

  lemma StartOnto(name: chars, depth: nat, fmt: bool, rest: CString)
    ensures Onto(MemberStart(name, depth, fmt), rest)
         == Onto(If(fmt, Tabs(depth)), Quoted(LaidString(name), Join(End, Char(COLON, Join(Spaces(fmt, [TAB]), rest)))))
  {
    hide Onto, Join, Quoted, StringText, Tabs;
    var tab := Onto(If(fmt, [TAB]), rest);
    Onto3(If(fmt, Tabs(depth)) + StringText(name), [COLON], If(fmt, [TAB]), rest);
    OntoConcat(If(fmt, Tabs(depth)), StringText(name), Onto([COLON], tab));
    OneOnto(COLON, tab);
    JoinOnto(If(fmt, [TAB]), rest);
    NoneOnto(Char(COLON, tab));
    QuotedLaid(name, Char(COLON, tab));
  }

  lemma EndOnto(more: Members, fmt: bool, rest: CString)
    ensures Onto(MemberEnd(more, fmt), rest)
         == if more.NoMember? then Onto(If(fmt, [LF]), rest) else Char(COMMA, Onto(If(fmt, [LF]), rest))
  {
    hide Onto;
    if more.NoMember? {
      assert [] + If(fmt, [LF]) == If(fmt, [LF]);
    } else {
      OntoConcat([COMMA], If(fmt, [LF]), rest);
      OneOnto(COMMA, Onto(If(fmt, [LF]), rest));
    }
  }

  lemma MemberTextOnto(members: Members, depth: nat, fmt: bool, rest: CString)
    requires members.Member? && IntegralMembers(members)
    ensures Onto(MembersText(members, depth, fmt), rest)
         == Onto(MemberStart(members.name, depth, fmt), Onto(Text(members.value, depth, fmt),
              Onto(MemberEnd(members.more, fmt), Onto(MembersText(members.more, depth, fmt), rest))))
  {
    hide Onto, Text, MemberStart, MemberEnd;
    var start, text, end := MemberStart(members.name, depth, fmt), Text(members.value, depth, fmt),
        MemberEnd(members.more, fmt);
    var last := MembersText(members.more, depth, fmt);
    OntoConcat(start + text + end, last, rest);
    Onto3(start, text, end, Onto(last, rest));
  }

  lemma {:induction false} MembersLaid(members: Members, depth: nat, fmt: bool, rest: CString)
    requires members.Member? && IntegralMembers(members) && depth > 0
    ensures MembersThen(LaidMembers(members, depth, fmt), rest)
         == Onto(If(fmt, [LF]),
           Onto(MembersText(members, depth, fmt), Onto(If(fmt, Tabs(depth - 1)), Char(RBRACE, rest))))
    decreases members, 0
  {
    hide Onto, Join, Laid, Text, DocThen, Tabs, If, Quoted, MemberStart, MemberEnd, LaidString, Spaces;
    var close, more := Onto(If(fmt, Tabs(depth - 1)), Char(RBRACE, rest)), members.more;
    MemberTextOnto(members, depth, fmt, close);
    var last := Onto(MembersText(more, depth, fmt), close);
    var next := Onto(MemberEnd(more, fmt), last);
    EndOnto(more, fmt, last);
    if more.Member? {
      MembersLaid(more, depth, fmt, rest);
    } else {
      EmptyText(depth, fmt);
      LineOnto(fmt, depth - 1, Char(RBRACE, rest));
    }
    NoneOnto(next);
    NoneOnto(close);
    LaidText(members.value, depth, fmt, next);
    var value := Onto(Text(members.value, depth, fmt), next);
    StartOnto(members.name, depth, fmt, value);
    LineOnto(fmt, depth, Quoted(LaidString(members.name), Join(End, Char(COLON, Join(Spaces(fmt, [TAB]), value)))));
  }

  /** Printing a tree, formatted or not, and parsing the text gives the tree. */
  lemma RoundTrip(t: Json, fmt: bool, requireNullTerminated: bool)
    requires Integral(t)
    ensures TextAt(Onto(Text(t, 0, fmt), End), requireNullTerminated) == Done(t, End)
  {
    hide Laid, Text, Onto, TextAt, DocThen, Tree, DocForm, Blank;
    LaidMeans(t, 0, fmt);
    LaidText(t, 0, fmt, End);
    BlankEnd();
    ParseReadsEveryText(End, Laid(t, 0, fmt), End, requireNullTerminated);
    NoneOnto(End);
    NoneOnto(DocThen(Laid(t, 0, fmt), End));
  }

  /** So different trees never print alike. */
  lemma TextDetermines(t: Json, u: Json, fmt: bool, fmt': bool)
    requires Integral(t) && Integral(u) && Text(t, 0, fmt) == Text(u, 0, fmt')
    ensures t == u
  {
    hide Text, TextAt;
    RoundTrip(t, fmt, true);
    RoundTrip(u, fmt', true);
  }
}
