// The printers of cJSON.c that size first and allocate once: each buffer of the
// estimated length holds the text and its terminator.

module JsonPrinter {
  import opened Bytes
  import opened Powers
  import opened JsonText

  // Writing into a buffer; what lies behind the write position does not matter.

  method PutChar(out: array<byte>, at: nat, c: byte) returns (next: nat)
    requires at < out.Length
    modifies out
    ensures next == at + 1 && out[..next] == old(out[..at]) + [c]
  {
    out[at] := c;
    next := at + 1;
  }

  /** Copies s without a terminator. */
  method Put(out: array<byte>, at: nat, s: chars) returns (next: nat)
    requires at + |s| <= out.Length
    modifies out
    ensures next == at + |s| && out[..next] == old(out[..at]) + s
  {
    var i := 0;
    while i < |s|
      invariant i <= |s| && out[..at + i] == old(out[..at]) + s[..i]
    {
      out[at + i] := s[i];
      i := i + 1;
      assert s[..i] == s[..i - 1] + [s[i - 1]];
    }
    assert s[..i] == s;
    next := at + |s|;
  }

  /** Copies s and its terminator. */
  method StrCpy(out: array<byte>, at: nat, s: chars) returns (next: nat)
    requires at + |s| < out.Length
    modifies out
    ensures next == at + |s| && out[..next] == old(out[..at]) + s && out[next] == 0
  {
    next := Put(out, at, s);
    out[next] := 0;
  }

  /** The text in a buffer up to its terminator. */
  method TextOf(out: array<byte>, n: nat, ghost s: chars) returns (text: chars)
    requires n <= out.Length && out[..n] == s
    ensures text == s
  {
    text := out[..n];
  }

  method PutTabs(out: array<byte>, at: nat, n: int) returns (next: nat)
    requires at + |Tabs(n)| <= out.Length
    modifies out
    ensures next == at + |Tabs(n)| && out[..next] == old(out[..at]) + Tabs(n)
  {
    var i := 0;
    next := at;
    while i < n
      invariant 0 <= i && (i <= n || i == 0) && next == at + i
      invariant out[..next] == old(out[..at]) + Tabs(i)
    {
      MoreTabs(i);
      next := PutChar(out, next, TAB);
      i := i + 1;
    }
  }

  lemma {:induction false} MoreTabs(n: nat)
    ensures Tabs(n) + [TAB] == Tabs(n + 1)
  {
    if n > 0 { MoreTabs(n - 1); }
  }

  // Numbers.

  lemma {:induction false} DecimalLength(n: nat, k: nat)
    requires k > 0 && n < Pow10(k)
    ensures |Decimal(n)| <= k
    decreases k
  {
    if n >= 10 { DecimalLength(n / 10, k - 1); }
  }

  lemma NumberFits(n: int)
    requires -TWO_31 <= n < TWO_31
    ensures |NumberText(n)| < 21
  {
    assert Pow10(5) == 100000;
    assert Pow10(10) == 10_000_000_000;
    DecimalLength(if n < 0 then -n else n, 10);
    hide Decimal;
  }

  /** Room asked for a number. */
  function NumberRoom(n: int): nat {
    if n == 0 then 2 else 21
  }

  method WriteNumber(out: array<byte>, at: nat, n: int) returns (next: nat)
    requires -TWO_31 <= n < TWO_31 && at + NumberRoom(n) <= out.Length
    modifies out
    ensures next == at + |NumberText(n)| < out.Length && out[..next] == old(out[..at]) + NumberText(n) && out[next] == 0
  {
    NumberFits(n);
    assert Decimal(0) == [ZERO];
    hide Decimal;
    next := StrCpy(out, at, if n == 0 then [ZERO] else NumberText(n));
  }

  // Strings.

  predicate NeedsEscape(c: chr) {
    c < 32 || c == QUOTE || c == BACKSLASH
  }

  predicate Plain(s: chars) {
    forall i :: 0 <= i < |s| ==> !NeedsEscape(s[i])
  }

  lemma EscapedPlain(c: chr)
    ensures !NeedsEscape(c) ==> Escaped(c) == [c]
    ensures |Escaped(c)| == if EscapeLetter(c) != 0 then 2 else if c < 32 then 6 else 1
  {
  }

  lemma {:induction false} EscapedAllPlain(s: chars)
    requires Plain(s)
    ensures EscapedAll(s) == s
  {
    if s != [] {
      EscapedPlain(s[0]);
      EscapedAllPlain(s[1..]);
    }
  }

  lemma {:induction false} EscapedAllAppend(s: chars, c: chr)
    ensures EscapedAll(s + [c]) == EscapedAll(s) + Escaped(c)
  {
    hide Escaped;
    if s == [] {
      assert s + [c] == [c] && [c][1..] == [];
    } else {
      assert (s + [c])[1..] == s[1..] + [c];
      EscapedAllAppend(s[1..], c);
      Assoc(Escaped(s[0]), EscapedAll(s[1..]), Escaped(c));
    }
  }

  lemma Prefix(s: chars, i: nat)
    requires i < |s|
    ensures EscapedAll(s[..i + 1]) == EscapedAll(s[..i]) + Escaped(s[i])
  {
    assert s[..i + 1] == s[..i] + [s[i]];
    EscapedAllAppend(s[..i], s[i]);
  }

  /** The length print_string_ptr finds, and whether there is anything to escape. */
  method StringLength(s: chars) returns (len: nat, flag: bool)
    ensures len == |EscapedAll(s)| && (!flag ==> EscapedAll(s) == s)
  {
    flag := false;
    var ptr := 0;
    while ptr < |s|
      invariant ptr <= |s| && (flag <==> !Plain(s[..ptr]))
    {
      assert s[..ptr + 1] == s[..ptr] + [s[ptr]];
      flag := flag || (0 < s[ptr] && s[ptr] < 32) || s[ptr] == QUOTE || s[ptr] == BACKSLASH;
      ptr := ptr + 1;
    }
    assert s[..ptr] == s;
    if !flag {
      EscapedAllPlain(s);
      return |s|, flag;
    }
    ptr, len := 0, 0;
    while ptr < |s|
      invariant ptr <= |s| && len == |EscapedAll(s[..ptr])|
    {
      Prefix(s, ptr);
      EscapedPlain(s[ptr]);
      len := len + 1;
      if EscapeLetter(s[ptr]) != 0 { len := len + 1; } else if s[ptr] < 32 { len := len + 5; }
      ptr := ptr + 1;
    }
    assert s[..ptr] == s;
  }

  /** Writes one character, escaped if it has to be. */
  method WriteEscaped(out: array<byte>, at: nat, c: chr) returns (next: nat)
    requires at + |Escaped(c)| <= out.Length
    modifies out
    ensures next == at + |Escaped(c)| && out[..next] == old(out[..at]) + Escaped(c)
  {
    if c > 31 && c != QUOTE && c != BACKSLASH {
      next := PutChar(out, at, c);
    } else if EscapeLetter(c) != 0 {
      next := Put(out, at, [BACKSLASH, EscapeLetter(c)]);
    } else {
      next := Put(out, at, [BACKSLASH, LOWER_U, ZERO, ZERO, HighHex(c), LowHex(c)]);
    }
  }

  /** Writes a string between quotes, and the terminator. */
  method WriteString(out: array<byte>, at: nat, s: chars, flag: bool) returns (next: nat)
    requires at + |EscapedAll(s)| + 3 <= out.Length && (!flag ==> EscapedAll(s) == s)
    modifies out
    ensures next == at + |StringText(s)| < out.Length && out[..next] == old(out[..at]) + StringText(s) && out[next] == 0
  {
    hide Escaped;
    ghost var before := out[..at];
    next := PutChar(out, at, QUOTE);
    if !flag {
      next := StrCpy(out, next, s);
    } else {
      var ptr := 0;
      assert s[..0] == [];
      while ptr < |s|
        invariant ptr <= |s| && next == at + 1 + |EscapedAll(s[..ptr])|
        invariant next + |EscapedAll(s[ptr..])| <= at + 1 + |EscapedAll(s)|
        invariant out[..next] == before + [QUOTE] + EscapedAll(s[..ptr])
      {
        Prefix(s, ptr);
        assert s[ptr..][1..] == s[ptr + 1..];
        Assoc<byte>(before + [QUOTE], EscapedAll(s[..ptr]), Escaped(s[ptr]));
        next := WriteEscaped(out, next, s[ptr]);
        ptr := ptr + 1;
      }
      assert s[..ptr] == s;
    }
    assert out[..next] == before + [QUOTE] + EscapedAll(s);
    next := PutChar(out, next, QUOTE);
    out[next] := 0;
    assert before + [QUOTE] + EscapedAll(s) + [QUOTE] == before + StringText(s);
  }

  method PrintString(s: chars) returns (text: chars)
    ensures text == StringText(s)
  {
    hide StringText;
    var len, flag := StringLength(s);
    var out := new byte[len + 3];
    var next := WriteString(out, 0, s, flag);
    assert out[..0] == [];
    text := out[..next];
  }

  // Composing arrays and objects from the texts of their children.

  function Entries(items: Items, depth: nat, fmt: bool): seq<chars>
    requires IntegralItems(items)
  {
    if items.NoItem? then [] else [Text(items.value, depth, fmt)] + Entries(items.more, depth, fmt)
  }

  /** Entries from i on with their separators. */
  function Joined(e: seq<chars>, i: nat, fmt: bool): chars
    requires i <= |e|
    decreases |e| - i
  {
    if i == |e| then [] else e[i] + (if i + 1 == |e| then [] else [COMMA] + If(fmt, [SPACE])) + Joined(e, i + 1, fmt)
  }

  lemma {:induction false} JoinedTail(c: chars, e: seq<chars>, i: nat, fmt: bool)
    requires i <= |e|
    ensures Joined([c] + e, i + 1, fmt) == Joined(e, i, fmt)
    decreases |e| - i
  {
    if i < |e| {
      assert ([c] + e)[i + 1] == e[i];
      JoinedTail(c, e, i + 1, fmt);
    }
  }

  lemma {:induction false} JoinedIsText(items: Items, depth: nat, fmt: bool)
    requires IntegralItems(items)
    ensures Joined(Entries(items, depth, fmt), 0, fmt) == ItemsText(items, depth, fmt)
  {
    hide Text;
    if items.Item? {
      JoinedIsText(items.more, depth, fmt);
      var v, e := Text(items.value, depth, fmt), Entries(items.more, depth, fmt);
      JoinedTail(v, e, 0, fmt);
      assert ([v] + e)[0] == v;
      assert |e| == 0 <==> items.more.NoItem?;
      hide Joined, ItemsText;
      JoinedHead([v] + e, fmt);
      ItemsHead(items, depth, fmt);
    }
  }

  lemma JoinedHead(e: seq<chars>, fmt: bool)
    requires |e| > 0
    ensures Joined(e, 0, fmt) == e[0] + (if |e| == 1 then [] else [COMMA] + If(fmt, [SPACE])) + Joined(e, 1, fmt)
  {
  }

  lemma ItemsHead(items: Items, depth: nat, fmt: bool)
    requires IntegralItems(items) && items.Item?
    ensures ItemsText(items, depth, fmt)
         == Text(items.value, depth, fmt) + (if items.more.NoItem? then [] else [COMMA] + If(fmt, [SPACE]))
           + ItemsText(items.more, depth, fmt)
  {
    hide Text;
  }

  function Gap(fmt: bool): nat { if fmt then 3 else 2 }

  /** What the array printer adds up for the entries from i on. */
  function Estimate(e: seq<chars>, i: nat, fmt: bool): nat
    requires i <= |e|
    decreases |e| - i
  {
    if i == |e| then 0 else |e[i]| + Gap(fmt) + Estimate(e, i + 1, fmt)
  }

  /** The estimate is never exceeded. */
  lemma {:induction false} EstimateEnough(e: seq<chars>, i: nat, fmt: bool)
    requires i <= |e|
    ensures |Joined(e, i, fmt)| <= Estimate(e, i, fmt)
    decreases |e| - i
  {
    if i < |e| { EstimateEnough(e, i + 1, fmt); }
  }

  method PrintValue(t: Json, depth: nat, fmt: bool) returns (out: chars)
    requires Integral(t)
    ensures out == Text(t, depth, fmt)
    decreases t, 1
  {
    hide StringText, NumberText, ItemsText, MembersText;
    match t
    case Null => out := NULL_TEXT;
    case False => out := FALSE_TEXT;
    case True => out := TRUE_TEXT;
    case Number(n, _) =>
      var buffer := new byte[NumberRoom(n)];
      var next := WriteNumber(buffer, 0, n);
      assert buffer[..0] == [];
      out := buffer[..next];
    case String(s) => out := PrintString(s);
    case Array(items) => out := PrintArray(items, depth, fmt);
    case Object(members) => out := PrintObject(members, depth, fmt);
  }

  /** Prints every item and adds up the length. */
  method PrintEntries(items: Items, depth: nat, fmt: bool) returns (entries: seq<chars>, len: nat)
    requires IntegralItems(items)
    ensures entries == Entries(items, depth, fmt) && len == 5 + Estimate(entries, 0, fmt)
    decreases items, 0
  {
    hide Text;
    var child := items;
    entries, len := [], 5;
    while child.Item?
      invariant IntegralItems(child) && (child == items || child < items)
      invariant entries + Entries(child, depth, fmt) == Entries(items, depth, fmt)
      invariant len == 5 + Total(entries, fmt)
      decreases child
    {
      var ret := PrintValue(child.value, depth, fmt);
      TotalAppend(entries, ret, fmt);
      Assoc(entries, [ret], Entries(child.more, depth, fmt));
      entries := entries + [ret];
      len := len + (|ret| + 2 + (if fmt then 1 else 0));
      child := child.more;
    }
    EstimateIsTotal(entries, fmt);
  }

  function Total(e: seq<chars>, fmt: bool): nat {
    if e == [] then 0 else Total(e[..|e| - 1], fmt) + |e[|e| - 1]| + Gap(fmt)
  }

  lemma TotalAppend(e: seq<chars>, c: chars, fmt: bool)
    ensures Total(e + [c], fmt) == Total(e, fmt) + |c| + Gap(fmt)
  {
    assert (e + [c])[..|e|] == e;
  }

  lemma {:induction false} EstimateIsTotal(e: seq<chars>, fmt: bool)
    ensures Estimate(e, 0, fmt) == Total(e, fmt)
  {
    EstimateFrom(e, |e|, fmt);
    assert e[..|e|] == e;
  }

  lemma {:induction false} EstimateFrom(e: seq<chars>, i: nat, fmt: bool)
    requires i <= |e|
    ensures Estimate(e, 0, fmt) == Total(e[..i], fmt) + Estimate(e, i, fmt)
  {
    if i > 0 {
      EstimateFrom(e, i - 1, fmt);
      assert e[..i][..i - 1] == e[..i - 1];
    }
  }

  method PrintArray(items: Items, depth: nat, fmt: bool) returns (text: chars)
    requires IntegralItems(items)
    ensures text == Text(Array(items), depth, fmt)
    decreases items, 1
  {
    hide ItemsText, Estimate;
    if items.NoItem? {
      assert ItemsText(items, depth + 1, fmt) == [] by { NoItemsText(depth + 1, fmt); }
      return [LBRACKET, RBRACKET];
    }
    var entries, len := PrintEntries(items, depth + 1, fmt);
    JoinedIsText(items, depth + 1, fmt);
    var out := new byte[len];
    EstimateEnough(entries, 0, fmt);
    var ptr := PutChar(out, 0, LBRACKET);
    assert out[..ptr] == [LBRACKET];
    ptr := PutEntries(out, ptr, entries, fmt);
    ptr := PutChar(out, ptr, RBRACKET);
    out[ptr] := 0;
    text := out[..ptr];
  }

  lemma NoItemsText(depth: nat, fmt: bool)
    ensures ItemsText(NoItem, depth, fmt) == []
  {
  }

  /** Joins the entries. */
  method PutEntries(out: array<byte>, at: nat, entries: seq<chars>, fmt: bool) returns (ptr: nat)
    requires at + |Joined(entries, 0, fmt)| <= out.Length
    modifies out
    ensures ptr == at + |Joined(entries, 0, fmt)| && out[..ptr] == old(out[..at]) + Joined(entries, 0, fmt)
  {
    ghost var all := out[..at] + Joined(entries, 0, fmt);
    ptr := at;
    var i := 0;
    while i < |entries|
      invariant i <= |entries| && ptr + |Joined(entries, i, fmt)| == |all| <= out.Length
      invariant out[..ptr] + Joined(entries, i, fmt) == all
    {
      JoinedStep(out[..ptr], entries, i, fmt);
      hide Joined;
      ptr := Put(out, ptr, entries[i]);
      if i != |entries| - 1 {
        ptr := PutChar(out, ptr, COMMA);
        if fmt { ptr := PutChar(out, ptr, SPACE); }
      }
      i := i + 1;
    }
  }

  lemma JoinedStep(done: seq<byte>, e: seq<chars>, i: nat, fmt: bool)
    requires i < |e|
    ensures i + 1 == |e| ==> done + Joined(e, i, fmt) == done + e[i] + Joined(e, i + 1, fmt)
    ensures i + 1 < |e| && !fmt ==> done + Joined(e, i, fmt) == done + e[i] + [COMMA] + Joined(e, i + 1, fmt)
    ensures i + 1 < |e| && fmt ==> done + Joined(e, i, fmt) == done + e[i] + [COMMA] + [SPACE] + Joined(e, i + 1, fmt)
  {
  }

  // Objects.

  function Names(members: Members): seq<chars> {
    if members.NoMember? then [] else [StringText(members.name)] + Names(members.more)
  }

  function Values(members: Members, depth: nat, fmt: bool): seq<chars>
    requires IntegralMembers(members)
  {
    if members.NoMember? then [] else [Text(members.value, depth, fmt)] + Values(members.more, depth, fmt)
  }

  /** One member with its tabs and separators. */
  function Row(name: chars, value: chars, last: bool, depth: nat, fmt: bool): chars {
    If(fmt, Tabs(depth)) + name + [COLON] + If(fmt, [TAB]) + value + If(!last, [COMMA]) + If(fmt, [LF])
  }

  function Rows(n: seq<chars>, e: seq<chars>, i: nat, depth: nat, fmt: bool): chars
    requires i <= |n| == |e|
    decreases |n| - i
  {
    if i == |n| then [] else Row(n[i], e[i], i + 1 == |n|, depth, fmt) + Rows(n, e, i + 1, depth, fmt)
  }

  lemma {:induction false} RowsTail(a: chars, b: chars, n: seq<chars>, e: seq<chars>, i: nat, depth: nat, fmt: bool)
    requires i <= |n| == |e|
    ensures Rows([a] + n, [b] + e, i + 1, depth, fmt) == Rows(n, e, i, depth, fmt)
    decreases |n| - i
  {
    hide Row;
    if i < |n| {
      assert ([a] + n)[i + 1] == n[i] && ([b] + e)[i + 1] == e[i];
      RowsTail(a, b, n, e, i + 1, depth, fmt);
    }
  }

  lemma {:induction false} RowsAreText(members: Members, depth: nat, fmt: bool)
    requires IntegralMembers(members)
    ensures |Names(members)| == |Values(members, depth, fmt)|
    ensures members.NoMember? <==> Names(members) == []
    ensures Rows(Names(members), Values(members, depth, fmt), 0, depth, fmt) == MembersText(members, depth, fmt)
  {
    hide Text, Row, StringText;
    if members.Member? {
      var n, v := StringText(members.name), Text(members.value, depth, fmt);
      var names, values := Names(members.more), Values(members.more, depth, fmt);
      RowsAreText(members.more, depth, fmt);
      RowsTail(n, v, names, values, 0, depth, fmt);
      RowIsMember(members, depth, fmt);
      RowsHead([n] + names, [v] + values, depth, fmt);
      hide Rows, MembersText;
    }
  }

  lemma RowsHead(n: seq<chars>, e: seq<chars>, depth: nat, fmt: bool)
    requires 0 < |n| == |e|
    ensures Rows(n, e, 0, depth, fmt) == Row(n[0], e[0], |n| == 1, depth, fmt) + Rows(n, e, 1, depth, fmt)
  {
    hide Row;
  }

  lemma RowIsMember(members: Members, depth: nat, fmt: bool)
    requires IntegralMembers(members) && members.Member?
    ensures MembersText(members, depth, fmt)
         == Row(StringText(members.name), Text(members.value, depth, fmt), members.more.NoMember?, depth, fmt)
           + MembersText(members.more, depth, fmt)
  {
    hide Text, StringText, Tabs;
    var start, text, end := MemberStart(members.name, depth, fmt), Text(members.value, depth, fmt),
        MemberEnd(members.more, fmt);
    Assoc(start + text, If(members.more.Member?, [COMMA]), If(fmt, [LF]));
  }

  /** What the object printer adds for one member. */
  function RowRoom(name: chars, value: chars, depth: nat, fmt: bool): nat {
    |value| + |name| + 2 + if fmt then 2 + depth else 0
  }

  lemma RowFits(name: chars, value: chars, last: bool, depth: nat, fmt: bool)
    ensures |Row(name, value, last, depth, fmt)| <= RowRoom(name, value, depth, fmt)
  {
    hide Tabs;
  }

  function Room(n: seq<chars>, e: seq<chars>, i: nat, depth: nat, fmt: bool): nat
    requires i <= |n| == |e|
  {
    if i == 0 then 0 else Room(n, e, i - 1, depth, fmt) + RowRoom(n[i - 1], e[i - 1], depth, fmt)
  }

  lemma {:induction false} RoomEnough(n: seq<chars>, e: seq<chars>, i: nat, depth: nat, fmt: bool)
    requires i <= |n| == |e|
    ensures Room(n, e, i, depth, fmt) + |Rows(n, e, i, depth, fmt)| >= |Rows(n, e, 0, depth, fmt)|
  {
    hide Row, RowRoom;
    if i > 0 {
      RoomEnough(n, e, i - 1, depth, fmt);
      RowFits(n[i - 1], e[i - 1], i == |n|, depth, fmt);
    }
  }

  lemma {:induction false} RoomAppend(n: seq<chars>, e: seq<chars>, a: chars, b: chars, i: nat, depth: nat, fmt: bool)
    requires i <= |n| == |e|
    ensures Room(n + [a], e + [b], i, depth, fmt) == Room(n, e, i, depth, fmt)
  {
    if i > 0 { RoomAppend(n, e, a, b, i - 1, depth, fmt); }
  }

  /** Prints every name and value and adds up the length. */
  method PrintMembers(members: Members, depth: nat, fmt: bool)
    returns (names: seq<chars>, entries: seq<chars>, len: nat)
    requires IntegralMembers(members)
    ensures names == Names(members) && entries == Values(members, depth, fmt) && |names| == |entries|
    ensures len == Room(names, entries, |names|, depth, fmt)
    decreases members, 0
  {
    hide Text, StringText;
    var child := members;
    names, entries, len := [], [], 0;
    while child.Member?
      invariant IntegralMembers(child) && (child == members || child < members)
      invariant |names| == |entries|
      invariant names + Names(child) == Names(members)
      invariant entries + Values(child, depth, fmt) == Values(members, depth, fmt)
      invariant len == Room(names, entries, |names|, depth, fmt)
      decreases child
    {
      var str := PrintString(child.name);
      var ret := PrintValue(child.value, depth, fmt);
      RoomAppend(names, entries, str, ret, |names|, depth, fmt);
      Assoc(names, [str], Names(child.more));
      Assoc(entries, [ret], Values(child.more, depth, fmt));
      names, entries := names + [str], entries + [ret];
      len := len + (|ret| + |str| + 2 + (if fmt then 2 + depth else 0));
      child := child.more;
    }
  }

  method PrintObject(members: Members, depth: nat, fmt: bool) returns (text: chars)
    requires IntegralMembers(members)
    ensures text == Text(Object(members), depth, fmt)
    decreases members, 1
  {
    hide MembersText, Room, Rows, Tabs;
    if members.NoMember? {
      text := PrintEmptyObject(depth, fmt);
      return;
    }
    var names, entries, len := PrintMembers(members, depth + 1, fmt);
    RowsAreText(members, depth + 1, fmt);
    text := ComposeObject(names, entries, 7 + (if fmt then depth + 1 else 0) + len, depth, fmt);
  }

  method PrintEmptyObject(depth: nat, fmt: bool) returns (text: chars)
    ensures text == Text(Object(NoMember), depth, fmt)
  {
    NoMembersText(depth + 1, fmt);
    hide MembersText, Tabs;
    var out := new byte[if fmt then depth + 4 else 3];
    var ptr := PutChar(out, 0, LBRACE);
    assert out[..ptr] == [LBRACE];
    if fmt {
      ptr := PutChar(out, ptr, LF);
      ptr := PutTabs(out, ptr, depth - 1);
    }
    ptr := PutChar(out, ptr, RBRACE);
    out[ptr] := 0;
    text := out[..ptr];
  }

  method ComposeObject(names: seq<chars>, entries: seq<chars>, len: nat, depth: nat, fmt: bool) returns (text: chars)
    requires |names| == |entries|
    requires len == 7 + (if fmt then depth + 1 else 0) + Room(names, entries, |names|, depth + 1, fmt)
    ensures text == [LBRACE] + If(fmt, [LF]) + Rows(names, entries, 0, depth + 1, fmt) + If(fmt, Tabs(depth)) + [RBRACE]
  {
    ComposeFits(names, entries, depth, fmt);
    hide Rows, Tabs, Room, If;
    ghost var line, rows, tabs := If(fmt, [LF]), Rows(names, entries, 0, depth + 1, fmt), If(fmt, Tabs(depth));
    assert 1 + |line| + |rows| + |tabs| + 2 <= len;
    var out := new byte[len];
    var ptr := PutChar(out, 0, LBRACE);
    assert out[..ptr] == [LBRACE];
    ptr := PutIf(out, ptr, fmt, LF);
    ptr := PutRows(out, ptr, names, entries, depth + 1, fmt);
    ptr := PutTabsIf(out, ptr, fmt, depth);
    assert out[..ptr] == [LBRACE] + line + rows + tabs;
    ptr := StrCpy(out, ptr, [RBRACE]);
    text := TextOf(out, ptr, [LBRACE] + line + rows + tabs + [RBRACE]);
  }

  lemma ComposeFits(names: seq<chars>, entries: seq<chars>, depth: nat, fmt: bool)
    requires |names| == |entries|
    ensures 1 + |If(fmt, [LF])| + |Rows(names, entries, 0, depth + 1, fmt)| + |If(fmt, Tabs(depth))| + 2
         <= 7 + (if fmt then depth + 1 else 0) + Room(names, entries, |names|, depth + 1, fmt)
  {
    RoomEnough(names, entries, |names|, depth + 1, fmt);
    assert Rows(names, entries, |names|, depth + 1, fmt) == [];
    hide Rows, Tabs, Room;
  }

  lemma NoMembersText(depth: nat, fmt: bool)
    ensures MembersText(NoMember, depth, fmt) == []
  {
  }

  method PutRows(out: array<byte>, at: nat, names: seq<chars>, entries: seq<chars>, depth: nat, fmt: bool)
    returns (ptr: nat)
    requires |names| == |entries| && at + |Rows(names, entries, 0, depth, fmt)| <= out.Length
    modifies out
    ensures ptr == at + |Rows(names, entries, 0, depth, fmt)|
    ensures out[..ptr] == old(out[..at]) + Rows(names, entries, 0, depth, fmt)
  {
    ghost var all := out[..at] + Rows(names, entries, 0, depth, fmt);
    ptr := at;
    var i := 0;
    while i < |names|
      invariant i <= |names| && ptr + |Rows(names, entries, i, depth, fmt)| == |all| <= out.Length
      invariant out[..ptr] + Rows(names, entries, i, depth, fmt) == all
    {
      ghost var row := Row(names[i], entries[i], i + 1 == |names|, depth, fmt);
      Assoc<byte>(out[..ptr], row, Rows(names, entries, i + 1, depth, fmt));
      hide Row;
      ptr := PutRow(out, ptr, names[i], entries[i], i == |names| - 1, depth, fmt);
      i := i + 1;
    }
  }

  method PutRow(out: array<byte>, at: nat, name: chars, value: chars, last: bool, depth: nat, fmt: bool)
    returns (ptr: nat)
    requires at + |Row(name, value, last, depth, fmt)| <= out.Length
    modifies out
    ensures ptr == at + |Row(name, value, last, depth, fmt)|
    ensures out[..ptr] == old(out[..at]) + Row(name, value, last, depth, fmt)
  {
    hide Tabs, If;
    ghost var before := out[..at];
    ghost var x := If(fmt, Tabs(depth));
    ptr := PutTabsIf(out, at, fmt, depth);
    ptr := Put(out, ptr, name);
    Assoc<byte>(before, x, name);
    x := x + name;
    ptr := PutChar(out, ptr, COLON);
    Assoc<byte>(before, x, [COLON]);
    x := x + [COLON];
    ptr := PutIf(out, ptr, fmt, TAB);
    Assoc<byte>(before, x, If(fmt, [TAB]));
    x := x + If(fmt, [TAB]);
    ptr := Put(out, ptr, value);
    Assoc<byte>(before, x, value);
    x := x + value;
    ptr := PutIf(out, ptr, !last, COMMA);
    Assoc<byte>(before, x, If(!last, [COMMA]));
    x := x + If(!last, [COMMA]);
    ptr := PutIf(out, ptr, fmt, LF);
    Assoc<byte>(before, x, If(fmt, [LF]));
  }

  method PutTabsIf(out: array<byte>, at: nat, fmt: bool, n: int) returns (ptr: nat)
    requires at + |If(fmt, Tabs(n))| <= out.Length
    modifies out
    ensures ptr == at + |If(fmt, Tabs(n))| && out[..ptr] == old(out[..at]) + If(fmt, Tabs(n))
  {
    hide Tabs;
    ptr := at;
    if fmt { ptr := PutTabs(out, ptr, n); }
  }

  method PutIf(out: array<byte>, at: nat, fmt: bool, c: chr) returns (ptr: nat)
    requires at + |If(fmt, [c])| <= out.Length
    modifies out
    ensures ptr == at + |If(fmt, [c])| && out[..ptr] == old(out[..at]) + If(fmt, [c])
  {
    ptr := at;
    if fmt { ptr := PutChar(out, ptr, c); }
  }
}
