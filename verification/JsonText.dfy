// JSON trees as cJSON.c builds them, and the text its printers give a tree, plain or
// formatted: what is escaped and how, and where tabs, spaces and line breaks go.

module JsonText {
  import opened Bytes

  /** A character of a C string. */
  type chr = c: int | 0 < c < 256 witness 32

  /** What is left of a C string from a pointer on; End is its terminator. */
  datatype CString = End | Char(head: chr, tail: CString)

  function Len(s: CString): nat {
    if s.End? then 0 else 1 + Len(s.tail)
  }

  type chars = seq<chr>

  /** The characters of a, then those of rest. */
  function Onto(a: chars, rest: CString): CString {
    if a == [] then rest else Char(a[0], Onto(a[1..], rest))
  }

  lemma {:induction false} OntoConcat(a: chars, b: chars, rest: CString)
    ensures Onto(a + b, rest) == Onto(a, Onto(b, rest))
  {
    if a == [] {
      assert a + b == b;
    } else {
      assert (a + b)[1..] == a[1..] + b;
      OntoConcat(a[1..], b, rest);
    }
  }

  // ASCII.

  const TAB: chr := 9
  const LF: chr := 10
  const CR: chr := 13
  const SPACE: chr := 32
  const QUOTE: chr := 34
  const PLUS: chr := 43
  const COMMA: chr := 44
  const MINUS: chr := 45
  const DOT: chr := 46
  const SLASH: chr := 47
  const ZERO: chr := 48
  const NINE: chr := 57
  const COLON: chr := 58
  const LBRACKET: chr := 91
  const BACKSLASH: chr := 92
  const RBRACKET: chr := 93
  const LOWER_A: chr := 97
  const LOWER_U: chr := 117
  const LBRACE: chr := 123
  const RBRACE: chr := 125

  const NULL_TEXT: chars := [110, 117, 108, 108]
  const FALSE_TEXT: chars := [102, 97, 108, 115, 101]
  const TRUE_TEXT: chars := [116, 114, 117, 101]

  /** A JSON item; a number is digits times ten to the exponent. */
  datatype Json =
    | Null
    | False
    | True
    | Number(digits: int, exponent: int)
    | String(text: chars)
    | Array(items: Items)
    | Object(members: Members)

  /** The children of an array, linked by next. */
  datatype Items = NoItem | Item(value: Json, more: Items)

  /** The children of an object, each with its name. */
  datatype Members = NoMember | Member(name: chars, value: Json, more: Members)

  /** The trees whose numbers are 32-bit integers. */
  predicate Integral(t: Json) {
    match t
    case Number(n, e) => -TWO_31 <= n < TWO_31 && e == 0
    case Array(items) => IntegralItems(items)
    case Object(members) => IntegralMembers(members)
    case _ => true
  }

  predicate IntegralItems(items: Items) {
    items.Item? ==> Integral(items.value) && IntegralItems(items.more)
  }

  predicate IntegralMembers(members: Members) {
    members.Member? ==> Integral(members.value) && IntegralMembers(members.more)
  }

  // Text of numbers and strings.

  function Digit(d: nat): chr
    requires d < 10
  {
    ZERO + d
  }

  function Decimal(n: nat): (s: chars)
    ensures s != []
  {
    (if n < 10 then [] else Decimal(n / 10)) + [Digit(n % 10)]
  }

  function NumberText(n: int): chars {
    if n < 0 then [MINUS] + Decimal(-n) else Decimal(n)
  }

  function HexDigit(d: nat): chr
    requires d < 16
  {
    if d < 10 then ZERO + d else LOWER_A + (d - 10)
  }

  function HighHex(c: chr): chr { HexDigit(c / 16) }
  function LowHex(c: chr): chr { HexDigit(c % 16) }

  /** Letter of a two-character escape, 0 when the character has none. */
  function EscapeLetter(c: chr): int {
    if c == BACKSLASH || c == QUOTE then c
    else if c == 8 then 98
    else if c == 12 then 102
    else if c == LF then 110
    else if c == CR then 114
    else if c == TAB then 116
    else 0
  }

  function Escaped(c: chr): (s: chars) {
    if EscapeLetter(c) != 0 then [BACKSLASH, EscapeLetter(c)]
    else if c < 32 then [BACKSLASH, LOWER_U, ZERO, ZERO, HighHex(c), LowHex(c)]
    else [c]
  }

  /** Seven characters have a short escape, the other control characters one with
      four lower-case hexadecimal digits, and every other character stands for
      itself. */
  lemma EscapesAre(c: chr)
    ensures Escaped(34) == [92, 34] && Escaped(92) == [92, 92]
    ensures Escaped(8) == [92, 98] && Escaped(12) == [92, 102] && Escaped(10) == [92, 110]
    ensures Escaped(13) == [92, 114] && Escaped(9) == [92, 116]
    ensures c < 32 && c !in [8, 9, 10, 12, 13] ==>
      Escaped(c) == [92, 117, 48, 48, 48 + c / 16, if c % 16 < 10 then 48 + c % 16 else 97 + c % 16 - 10]
    ensures c >= 32 && c != 34 && c != 92 ==> Escaped(c) == [c]
  {
  }

  function EscapedAll(s: chars): chars {
    if s == [] then [] else Escaped(s[0]) + EscapedAll(s[1..])
  }

  function StringText(s: chars): chars {
    [QUOTE] + EscapedAll(s) + [QUOTE]
  }

  // Text of trees, plain or formatted.

  function Tabs(n: int): (s: chars)
    ensures |s| == if n > 0 then n else 0
  {
    if n <= 0 then [] else [TAB] + Tabs(n - 1)
  }

  function If(fmt: bool, s: chars): chars {
    if fmt then s else []
  }

  /** Text of a tree at a depth. */
  function Text(t: Json, depth: nat, fmt: bool): chars
    requires Integral(t)
    decreases t
  {
    match t
    case Null => NULL_TEXT
    case False => FALSE_TEXT
    case True => TRUE_TEXT
    case Number(n, _) => NumberText(n)
    case String(s) => StringText(s)
    case Array(items) => [LBRACKET] + ItemsText(items, depth + 1, fmt) + [RBRACKET]
    case Object(members) =>
      [LBRACE] + If(fmt, [LF]) + MembersText(members, depth + 1, fmt)
        + If(fmt, Tabs(if members.NoMember? then depth - 1 else depth)) + [RBRACE]
  }

  function ItemsText(items: Items, depth: nat, fmt: bool): chars
    requires IntegralItems(items)
    decreases items
  {
    match items
    case NoItem => []
    case Item(t, more) => Text(t, depth, fmt) + ItemEnd(more, fmt) + ItemsText(more, depth, fmt)
  }

  /** Separator behind an item: none behind the last. */
  function ItemEnd(more: Items, fmt: bool): chars {
    if more.NoItem? then [] else [COMMA] + If(fmt, [SPACE])
  }

  function MembersText(members: Members, depth: nat, fmt: bool): chars
    requires IntegralMembers(members)
    decreases members
  {
    match members
    case NoMember => []
    case Member(name, t, more) =>
      MemberStart(name, depth, fmt) + Text(t, depth, fmt) + MemberEnd(more, fmt) + MembersText(more, depth, fmt)
  }

  function MemberStart(name: chars, depth: nat, fmt: bool): chars {
    If(fmt, Tabs(depth)) + StringText(name) + [COLON] + If(fmt, [TAB])
  }

  function MemberEnd(more: Members, fmt: bool): chars {
    (if more.NoMember? then [] else [COMMA]) + If(fmt, [LF])
  }

  /** The layout of an array, and of an object at depth 1 that holds an empty one:
      formatted, an array's items are parted by a space, while each member has its
      line, one tab more than its object, and a tab before its value; the closing
      brace of an empty object stands a tab to the left. */
  lemma LayoutShown()
    ensures var a := Array(Item(Number(1, 0), Item(Number(2, 0), NoItem)));
      && Text(a, 0, false) == [91, 49, 44, 50, 93] && Text(a, 0, true) == [91, 49, 44, 32, 50, 93]
    ensures var o := Object(Member([97], Number(1, 0), Member([98], Object(NoMember), NoMember)));
      && Text(o, 1, false) == [123, 34, 97, 34, 58, 49, 44, 34, 98, 34, 58, 123, 125, 125]
      && Text(o, 1, true)
         == [123, 10, 9, 9, 34, 97, 34, 58, 9, 49, 44, 10, 9, 9, 34, 98, 34, 58, 9, 123, 10, 9, 125, 10, 9, 125]
  {
    ArrayShown();
    PlainShown();
    FormattedShown();
  }

  lemma ArrayShown()
    ensures var a := Array(Item(Number(1, 0), Item(Number(2, 0), NoItem)));
      Text(a, 0, false) == [91, 49, 44, 50, 93] && Text(a, 0, true) == [91, 49, 44, 32, 50, 93]
  {
    var none: chars := [];
    assert ItemsText(NoItem, 1, true) == none == ItemsText(NoItem, 1, false);
    assert NumberText(1) == [49] && NumberText(2) == [50];
    hide NumberText;
  }

  lemma PlainShown()
    ensures var o := Object(Member([97], Number(1, 0), Member([98], Object(NoMember), NoMember)));
      Text(o, 1, false) == [123, 34, 97, 34, 58, 49, 44, 34, 98, 34, 58, 123, 125, 125]
  {
    hide Text, MembersText, MemberStart, MemberEnd, Tabs;
    var inner := Object(NoMember);
    var last := Member([98], inner, NoMember);
    InnerShown();
    MemberShown(97, Number(1, 0), last, false);
    MemberShown(98, inner, NoMember, false);
    assert MembersText(last, 2, false) == [34, 98, 34, 58, 123, 125];
    ObjectShown(Member([97], Number(1, 0), last));
  }

  lemma FormattedShown()
    ensures var o := Object(Member([97], Number(1, 0), Member([98], Object(NoMember), NoMember)));
      Text(o, 1, true) == [123, 10, 9, 9, 34, 97, 34, 58, 9, 49, 44, 10, 9, 9, 34, 98, 34, 58, 9, 123, 10, 9, 125, 10,
                           9, 125]
  {
    hide Text, MembersText, MemberStart, MemberEnd, Tabs;
    var inner := Object(NoMember);
    var last := Member([98], inner, NoMember);
    InnerShown();
    MemberShown(97, Number(1, 0), last, true);
    MemberShown(98, inner, NoMember, true);
    assert MembersText(last, 2, true) == [9, 9, 34, 98, 34, 58, 9, 123, 10, 9, 125, 10];
    ObjectShown(Member([97], Number(1, 0), last));
  }

  lemma InnerShown()
    ensures Text(Object(NoMember), 2, false) == [123, 125] && Text(Object(NoMember), 2, true) == [123, 10, 9, 125]
    ensures Text(Number(1, 0), 2, false) == [49] == Text(Number(1, 0), 2, true)
    ensures MembersText(NoMember, 2, false) == [] == MembersText(NoMember, 2, true)
  {
    TabsShown();
    assert MembersText(NoMember, 3, true) == MembersText(NoMember, 3, false) == [];
    assert NumberText(1) == [49];
  }

  lemma ObjectShown(ms: Members)
    requires IntegralMembers(ms) && ms.Member?
    ensures Text(Object(ms), 1, false) == [123] + MembersText(ms, 2, false) + [125]
    ensures Text(Object(ms), 1, true) == [123, 10] + MembersText(ms, 2, true) + [9, 125]
  {
    TabsShown();
    hide MembersText, Tabs;
  }

  lemma MemberShown(c: chr, t: Json, more: Members, fmt: bool)
    requires 97 <= c <= 98 && Integral(t) && IntegralMembers(more)
    ensures MembersText(Member([c], t, more), 2, fmt)
      == (if fmt then [9, 9, 34, c, 34, 58, 9] else [34, c, 34, 58]) + Text(t, 2, fmt)
         + ((if more.Member? then [44] else []) + (if fmt then [10] else [])) + MembersText(more, 2, fmt)
  {
    TabsShown();
    NameShown(c);
    hide Tabs, StringText, Text;
    assert MemberStart([c], 2, fmt) == if fmt then [9, 9, 34, c, 34, 58, 9] else [34, c, 34, 58];
    assert MemberEnd(more, fmt) == (if more.Member? then [44] else []) + (if fmt then [10] else []);
    hide MemberStart, MemberEnd;
  }

  lemma TabsShown()
    ensures Tabs(0) == [] && Tabs(1) == [9] && Tabs(2) == [9, 9]
  {
  }

  lemma NameShown(c: chr)
    requires 97 <= c <= 98
    ensures StringText([c]) == [34, c, 34]
  {
    assert EscapedAll([c]) == [c] + EscapedAll([]);
  }
}
