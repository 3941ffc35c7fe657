// The printers of cJSON.c that write into one growing buffer: it is grown to a
// power of two whenever the next piece does not fit, keeps what was printed, and
// ends up with the same text as the printers that size first.

module JsonPrintBuffer {
  import opened Bytes
  import opened Powers
  import opened JsonText
  import opened JsonPrinter

  // pow2gt on non-negative ints: the or of a number and itself shifted right.

  /** The largest size pow2gt can round up in 32 bits. */
  const LIMIT: nat := 0x4000_0000

  /** Bitwise or. */
  function Or(a: nat, b: nat): (r: nat)
    ensures r >= a && r >= b
  {
    if a == 0 then b else 2 * Or(a / 2, b / 2) + (if a % 2 + b % 2 > 0 then 1 else 0)
  }

  function Smear(x: nat, shift: nat): nat {
    Or(x, Quotient(x, Pow2(shift)))
  }

  function Smeared(y: nat): nat {
    Smear(Smear(Smear(Smear(Smear(y, 1), 2), 4), 8), 16)
  }

  function Pow2gt(x: nat): nat
    requires x > 0
  {
    Smeared(x - 1) + 1
  }

  lemma {:induction false} OrBound(a: nat, b: nat, k: nat)
    requires a < Pow2(k) && b < Pow2(k)
    ensures Or(a, b) < Pow2(k)
  {
    if k > 0 { OrBound(a / 2, b / 2, k - 1); }
  }

  /** The top m of h bits are set. */
  predicate TopSet(x: nat, h: nat, m: nat) {
    m <= h && Pow2(h) - Pow2(h - m) <= x < Pow2(h)
  }

  lemma OrZero(a: nat)
    ensures Or(a, 0) == a
  {
    if a > 0 { OrZero(a / 2); }
  }

  lemma OrStep(a: nat, b: nat)
    ensures Or(a, b) == 2 * Or(a / 2, b / 2) + (if a % 2 + b % 2 > 0 then 1 else 0)
  {
    assert 0 / 2 == 0;
  }

  lemma OrHighStep(q: nat, l: nat, b: nat)
    requires Or(q + l / 2, b / 2) == q + Or(l / 2, b / 2)
    ensures Or(2 * q + l, b) == 2 * q + Or(l, b)
  {
    assert (2 * q + l) / 2 == q + l / 2 && (2 * q + l) % 2 == l % 2;
    OrStep(2 * q + l, b);
    OrStep(l, b);
    hide Or;
  }

  /** Bits above those of b are kept. */
  lemma {:induction false} OrHigh(p: nat, l: nat, b: nat, k: nat)
    requires l < Pow2(k) && b < Pow2(k)
    ensures p * Pow2(k) + l >= 0 && Or(p * Pow2(k) + l, b) == p * Pow2(k) + Or(l, b)
  {
    if k == 0 {
      OrZero(p);
      OrZero(0);
    } else {
      Nonnegative(p, Pow2(k - 1));
      Twice(p, Pow2(k - 1));
      OrHigh(p, l / 2, b / 2, k - 1);
      OrHighStep(p * Pow2(k - 1), l, b);
      hide Or;
    }
  }

  lemma MinusOne(a: int, b: int)
    ensures (a - 1) * b == a * b - b && b * a == a * b
  {
  }

  lemma SmearBounds(x: nat, d: nat, k: nat, least: int)
    requires d > 0 && d * Pow2(k) - Pow2(k) <= x < d * Pow2(k) && 0 <= least && least * d <= x
    ensures d * Pow2(k) - Pow2(k) + least <= Or(x, x / d) < d * Pow2(k)
  {
    var e := Pow2(k);
    hide Pow2, Or;
    MinusOne(d, e);
    var low: nat := x - (d * e - e);
    QuotientIn(x, d, least, e);
    OrHigh(d - 1, low, x / d, k);
    OrBound(low, x / d, k);
  }

  lemma LeastDoubled(d: nat, f: nat, x: int)
    requires d * (f * d) - f * d <= x
    ensures (f * d - f) * d <= x
  {
    assert (f * d - f) * d == (f * d) * d - f * d;
  }

  /** A smear by as many bits as are set at the top doubles them. */
  lemma SmearTop(x: nat, h: nat, m: nat)
    requires TopSet(x, h, m)
    ensures TopSet(Smear(x, m), h, if 2 * m <= h then 2 * m else h)
  {
    var k := h - m;
    PowAdd(m, k);
    if m <= k { PowAdd(k - m, m); } else { PowMono(k, m); }
    PowZero();
    hide Pow2, Or;
    var d, e := Pow2(m), Pow2(k);
    if m <= k {
      LeastDoubled(d, Pow2(k - m), x);
      PowMono(k - m, k);
      SmearBounds(x, d, k, e - Pow2(k - m));
    } else {
      MinusOne(e, d);
      SmearBounds(x, d, k, e - 1);
    }
  }

  lemma PowZero()
    ensures Pow2(0) == 1
  {
  }

  function Least(a: nat, b: nat): nat { if a <= b then a else b }

  lemma SmearNext(x: nat, h: nat, s: nat)
    requires TopSet(x, h, Least(s, h))
    ensures TopSet(Smear(x, s), h, Least(2 * s, h))
  {
    if s <= h {
      SmearTop(x, h, s);
    } else {
      PowMono(h, s);
      PowZero();
      OrZero(x);
      QuotientIn(x, Pow2(s), 0, 1);
    }
    hide Or, Pow2;
  }

  /** Number of bits. */
  function BitLength(y: nat): nat {
    if y == 0 then 0 else 1 + BitLength(y / 2)
  }

  lemma {:induction false} BitLengthTop(y: nat)
    ensures TopSet(y, BitLength(y), Least(1, BitLength(y)))
  {
    if y > 0 { BitLengthTop(y / 2); }
  }

  lemma {:induction false} BitLengthBound(y: nat, k: nat)
    requires y < Pow2(k)
    ensures BitLength(y) <= k
  {
    if y > 0 { BitLengthBound(y / 2, k - 1); }
  }

  lemma LimitIsPower()
    ensures LIMIT == Pow2(30)
  {
    assert Pow2(10) == 1024;
    PowAdd(10, 10);
    PowAdd(20, 10);
  }

  /** All bits below the highest set one are set. */
  lemma SmearedFull(y: nat, h: nat)
    requires TopSet(y, h, Least(1, h)) && h <= 30
    ensures TopSet(Smeared(y), h, h)
  {
    hide Smear, TopSet;
    SmearNext(y, h, 1);
    SmearNext(Smear(y, 1), h, 2);
    SmearNext(Smear(Smear(y, 1), 2), h, 4);
    SmearNext(Smear(Smear(Smear(y, 1), 2), 4), h, 8);
    SmearNext(Smear(Smear(Smear(Smear(y, 1), 2), 4), 8), h, 16);
  }

  lemma TopSetMeans(y: nat, h: nat)
    ensures TopSet(y, h, h) ==> y == Pow2(h) - 1
    ensures h > 0 && TopSet(y, h, 1) ==> Pow2(h - 1) <= y < Pow2(h)
  {
    PowZero();
  }

  /** pow2gt gives the least power of two that is at least x. */
  lemma Pow2gtRounds(x: nat)
    requires 0 < x <= LIMIT
    ensures var h := BitLength(x - 1);
            Pow2gt(x) == Pow2(h) && x <= Pow2(h) && (x > 1 ==> Pow2(h - 1) < x)
  {
    var y := x - 1;
    var h := BitLength(y);
    LimitIsPower();
    assert x > 1 ==> h > 0;
    hide Smeared, BitLength, TopSet, Pow2;
    BitLengthTop(y);
    BitLengthBound(y, 30);
    SmearedFull(y, h);
    TopSetMeans(Smeared(y), h);
    TopSetMeans(y, h);
    if h == 0 { PowZero(); }
  }

  class PrintBuffer {
    var buffer: array<byte>
    var offset: nat

    ghost predicate Valid()
      reads this
    {
      offset <= buffer.Length
    }

    /** What was printed. */
    ghost function Contents(): seq<byte>
      requires Valid()
      reads this, buffer
    {
      buffer[..offset]
    }

    constructor (prebuffer: nat)
      ensures Valid() && Contents() == [] && fresh(buffer) && offset == 0
    {
      buffer := new byte[prebuffer];
      offset := 0;
    }

    /** Makes room for needed more bytes, keeping all the bytes there are. */
    method Ensure(needed: nat)
      requires Valid() && 0 < offset + needed <= LIMIT
      modifies this`buffer
      ensures Valid() && offset + needed <= buffer.Length
      ensures buffer == old(buffer) || fresh(buffer)
      ensures buffer[..offset] == old(buffer[..offset])
    {
      var need := needed + offset;
      if need <= buffer.Length { return; }
      Pow2gtRounds(need);
      var newsize := Pow2gt(need);
      var newbuffer := new byte[newsize];
      var i := 0;
      while i < buffer.Length
        modifies newbuffer
        invariant i <= buffer.Length <= newbuffer.Length
        invariant newbuffer[..i] == buffer[..i]
      {
        newbuffer[i] := buffer[i];
        i := i + 1;
      }
      assert newbuffer[..offset] == newbuffer[..i][..offset];
      buffer := newbuffer;
    }

    /** Where the terminator of the text just printed is. */
    method Update(ghost end: nat) returns (r: nat)
      requires offset <= end < buffer.Length && buffer[end] == 0
      requires forall k :: offset <= k < end ==> buffer[k] != 0
      ensures r == end
    {
      r := offset;
      while buffer[r] != 0
        invariant offset <= r <= end
        decreases end - r
      {
        r := r + 1;
      }
    }

    /** Appends s, terminated or not. */
    method Emit(s: chars, terminated: bool)
      requires Valid() && (s != [] || terminated) && offset + |s| + 1 <= LIMIT
      modifies this, buffer
      ensures Valid() && (buffer == old(buffer) || fresh(buffer))
      ensures Contents() == old(Contents()) + s
    {
      Ensure(if terminated then |s| + 1 else |s|);
      var at := offset;
      if terminated {
        at := StrCpy(buffer, offset, s);
      } else {
        at := Put(buffer, offset, s);
      }
      offset := at;
    }

    /** The text s printed behind what was there, terminated; the offset may
        still be inside it. */
    ghost predicate Printed(before: seq<byte>, s: chars)
      reads this, buffer
    {
      && |before| <= offset <= |before| + |s| < buffer.Length
      && buffer[..|before| + |s|] == before + s && buffer[|before| + |s|] == 0
    }

    /** Closes a text without moving the offset. */
    method EmitLast(s: chars)
      requires Valid() && offset + |s| + 1 <= LIMIT
      modifies this, buffer
      ensures buffer == old(buffer) || fresh(buffer)
      ensures Valid() && Printed(old(Contents()), s) && offset == old(offset)
    {
      Ensure(|s| + 1);
      var at := StrCpy(buffer, offset, s);
    }

    /** Moves the offset behind the text just printed. */
    method Advance(ghost before: seq<byte>, ghost s: chars)
      requires Printed(before, s)
      modifies this`offset
      ensures Valid() && Contents() == before + s
    {
      assert forall k :: |before| <= k < |before| + |s| ==> buffer[k] == (before + s)[k];
      offset := Update(|before| + |s|);
    }

    method PrintNumber(n: int)
      requires Valid() && -TWO_31 <= n < TWO_31 && offset + 21 <= LIMIT
      modifies this, buffer
      ensures buffer == old(buffer) || fresh(buffer)
      ensures Printed(old(Contents()), NumberText(n))
    {
      Ensure(NumberRoom(n));
      var next := WriteNumber(buffer, offset, n);
    }

    method PrintString(s: chars)
      requires Valid() && offset + |StringText(s)| + 1 <= LIMIT
      modifies this, buffer
      ensures buffer == old(buffer) || fresh(buffer)
      ensures Printed(old(Contents()), StringText(s))
    {
      hide EscapedAll;
      var len, flag := StringLength(s);
      Ensure(len + 3);
      var next := WriteString(buffer, offset, s, flag);
    }

    method PrintValue(t: Json, depth: nat, fmt: bool)
      requires Valid() && Integral(t) && offset + |Text(t, depth, fmt)| + 32 <= LIMIT
      modifies this, buffer
      ensures buffer == old(buffer) || fresh(buffer)
      ensures Printed(old(Contents()), Text(t, depth, fmt))
      decreases t, 1
    {
      hide Printed, StringText, NumberText, ItemsText, MembersText, Tabs, If;
      match t
      case Null => EmitLast(NULL_TEXT);
      case False => EmitLast(FALSE_TEXT);
      case True => EmitLast(TRUE_TEXT);
      case Number(n, _) => PrintNumber(n);
      case String(s) => PrintString(s);
      case Array(items) => PrintArray(items, depth, fmt);
      case Object(members) => PrintObject(members, depth, fmt);
    }

    /** A text printed behind another is printed with it. */
    lemma PrintedJoin(before: seq<byte>, s: chars, t: chars)
      requires Printed(before + s, t)
      ensures Printed(before, s + t)
    {
      Assoc<byte>(before, s, t);
    }

    method PrintArray(items: Items, depth: nat, fmt: bool)
      requires Valid() && IntegralItems(items) && offset + |Text(Array(items), depth, fmt)| + 32 <= LIMIT
      modifies this, buffer
      ensures buffer == old(buffer) || fresh(buffer)
      ensures Printed(old(Contents()), Text(Array(items), depth, fmt))
      decreases items, 1
    {
      hide Printed, ItemsText;
      ghost var before, all := Contents(), ItemsText(items, depth + 1, fmt);
      if items.NoItem? {
        NoItemsText(depth + 1, fmt);
        EmitLast([LBRACKET, RBRACKET]);
        assert [LBRACKET] + all + [RBRACKET] == [LBRACKET, RBRACKET];
        return;
      }
      Emit([LBRACKET], false);
      PrintItems(items, depth + 1, fmt);
      EmitLast([RBRACKET]);
      Assoc<byte>(before, [LBRACKET], all);
      PrintedJoin(before, [LBRACKET] + all, [RBRACKET]);
    }

    /** One item with its separator. */
    method PrintItem(value: Json, ghost items: Items, more: Items, depth: nat, fmt: bool)
      requires Valid() && Integral(value) && value < items
      requires offset + |Text(value, depth, fmt)| + |ItemEnd(more, fmt)| + 33 <= LIMIT
      modifies this, buffer
      ensures buffer == old(buffer) || fresh(buffer)
      ensures Valid()
      ensures Contents() == old(Contents()) + Text(value, depth, fmt) + ItemEnd(more, fmt)
      decreases items, 0, 0
    {
      hide Printed, Text;
      ghost var before := Contents();
      PrintValue(value, depth, fmt);
      Advance(before, Text(value, depth, fmt));
      if more.Item? { Emit(ItemEnd(more, fmt), true); }
    }

    /** The items of an array, with their separators. */
    method PrintItems(items: Items, depth: nat, fmt: bool)
      requires Valid() && IntegralItems(items) && offset + |ItemsText(items, depth, fmt)| + 33 <= LIMIT
      modifies this, buffer
      ensures buffer == old(buffer) || fresh(buffer)
      ensures Valid() && Contents() == old(Contents()) + ItemsText(items, depth, fmt)
      decreases items, 0, 1
    {
      ghost var before := Contents();
      ghost var done: chars := [];
      var child := items;
      while child.Item?
        invariant IntegralItems(child) && (child == items || child < items)
        invariant buffer == old(buffer) || fresh(buffer)
        invariant Valid() && Contents() == before + done
        invariant done + ItemsText(child, depth, fmt) == ItemsText(items, depth, fmt)
        decreases child
      {
        ghost var text, end := Text(child.value, depth, fmt), ItemEnd(child.more, fmt);
        ItemsSplit(done, child, depth, fmt);
        hide Text, ItemsText, ItemEnd;
        PrintItem(child.value, items, child.more, depth, fmt);
        Assoc<byte>(before + done, text, end);
        Assoc<byte>(before, done, text + end);
        done := done + (text + end);
        child := child.more;
      }
      NoItemsText(depth, fmt);
    }

    /** One member with its tabs, name and separators. */
    method PrintMember(name: chars, value: Json, ghost members: Members, more: Members, depth: nat, fmt: bool)
      requires Valid() && Integral(value) && depth > 0 && value < members
      requires offset + |MemberStart(name, depth, fmt)| + |Text(value, depth, fmt)| + |MemberEnd(more, fmt)| + 33
               <= LIMIT
      modifies this, buffer
      ensures buffer == old(buffer) || fresh(buffer)
      ensures Valid()
      ensures Contents()
          == old(Contents()) + MemberStart(name, depth, fmt) + Text(value, depth, fmt) + MemberEnd(more, fmt)
      decreases members, 0, 0
    {
      hide Printed, Text, StringText;
      ghost var before := Contents();
      ghost var done := If(fmt, Tabs(depth));
      StartLength(name, depth, fmt);
      if fmt { Emit(Tabs(depth), false); }
      hide Tabs;
      assert Contents() == before + done;
      PrintString(name);
      Advance(before + done, StringText(name));
      Assoc<byte>(before, done, StringText(name));
      done := done + StringText(name);
      Emit([COLON] + If(fmt, [TAB]), false);
      Assoc<byte>(before, done, [COLON] + If(fmt, [TAB]));
      done := done + ([COLON] + If(fmt, [TAB]));
      assert done == MemberStart(name, depth, fmt);
      hide MemberStart, MemberEnd;
      PrintValue(value, depth, fmt);
      Advance(before + done, Text(value, depth, fmt));
      Emit(MemberEnd(more, fmt), true);
    }

    method PrintMembers(members: Members, depth: nat, fmt: bool)
      requires Valid() && IntegralMembers(members) && depth > 0
          && offset + |MembersText(members, depth, fmt)| + 33 <= LIMIT
      modifies this, buffer
      ensures buffer == old(buffer) || fresh(buffer)
      ensures Valid() && Contents() == old(Contents()) + MembersText(members, depth, fmt)
      decreases members, 0, 1
    {
      ghost var before := Contents();
      ghost var done: chars := [];
      var child := members;
      while child.Member?
        invariant IntegralMembers(child) && (child == members || child < members)
        invariant buffer == old(buffer) || fresh(buffer)
        invariant Valid() && Contents() == before + done
        invariant done + MembersText(child, depth, fmt) == MembersText(members, depth, fmt)
        decreases child
      {
        ghost var row := MemberStart(child.name, depth, fmt) + Text(child.value, depth, fmt)
            + MemberEnd(child.more, fmt);
        MembersSplit(done, child, depth, fmt);
        hide Text, MembersText, MemberStart, MemberEnd;
        PrintMember(child.name, child.value, members, child.more, depth, fmt);
        RowAppended(before, done, child, depth, fmt);
        done := done + row;
        child := child.more;
      }
      NoMembersText(depth, fmt);
    }

    method PrintObject(members: Members, depth: nat, fmt: bool)
      requires Valid() && IntegralMembers(members) && offset + |Text(Object(members), depth, fmt)| + 32 <= LIMIT
      modifies this, buffer
      ensures buffer == old(buffer) || fresh(buffer)
      ensures Printed(old(Contents()), Text(Object(members), depth, fmt))
      decreases members, 1
    {
      hide Printed, MembersText, Tabs;
      ghost var before := Contents();
      if members.NoMember? {
        NoMembersText(depth + 1, fmt);
        EmitLast([LBRACE] + (if fmt then [LF] + Tabs(depth - 1) else []) + [RBRACE]);
        EmptyIs(depth, fmt);
        return;
      }
      ghost var all := MembersText(members, depth + 1, fmt);
      ObjectIs(members, depth, fmt);
      Emit([LBRACE] + If(fmt, [LF]), true);
      PrintMembers(members, depth + 1, fmt);
      Assoc<byte>(before, [LBRACE] + If(fmt, [LF]), all);
      EmitLast(If(fmt, Tabs(depth)) + [RBRACE]);
      PrintedJoin(before, [LBRACE] + If(fmt, [LF]) + all, If(fmt, Tabs(depth)) + [RBRACE]);
    }
  }

  lemma ItemsSplit(done: chars, items: Items, depth: nat, fmt: bool)
    requires IntegralItems(items) && items.Item?
    ensures done + ItemsText(items, depth, fmt)
         == done + (Text(items.value, depth, fmt) + ItemEnd(items.more, fmt)) + ItemsText(items.more, depth, fmt)
  {
    hide Text, ItemEnd;
  }

  lemma MembersSplit(done: chars, members: Members, depth: nat, fmt: bool)
    requires IntegralMembers(members) && members.Member?
    ensures var row := MemberStart(members.name, depth, fmt) + Text(members.value, depth, fmt)
        + MemberEnd(members.more, fmt);
            done + MembersText(members, depth, fmt) == done + row + MembersText(members.more, depth, fmt)
  {
    hide Text, MemberStart, MemberEnd;
  }

  lemma RowAppended(before: seq<byte>, done: chars, members: Members, depth: nat, fmt: bool)
    requires IntegralMembers(members) && members.Member?
    ensures var start, text, end := MemberStart(members.name, depth, fmt), Text(members.value, depth, fmt),
        MemberEnd(members.more, fmt);
            before + done + start + text + end == before + (done + (start + text + end))
  {
    hide Text, MemberStart, MemberEnd;
  }

  lemma StartLength(name: chars, depth: nat, fmt: bool)
    ensures |MemberStart(name, depth, fmt)| == |If(fmt, Tabs(depth))| + |StringText(name)| + 1 + |If(fmt, [TAB])|
  {
    hide Tabs, StringText;
  }

  lemma EmptyIs(depth: nat, fmt: bool)
    ensures Text(Object(NoMember), depth, fmt) == [LBRACE] + (if fmt then [LF] + Tabs(depth - 1) else []) + [RBRACE]
  {
    hide Tabs;
    NoMembersText(depth + 1, fmt);
    hide MembersText;
  }

  lemma ObjectIs(members: Members, depth: nat, fmt: bool)
    requires IntegralMembers(members) && members.Member?
    ensures Text(Object(members), depth, fmt)
         == [LBRACE] + If(fmt, [LF]) + MembersText(members, depth + 1, fmt) + (If(fmt, Tabs(depth)) + [RBRACE])
  {
    hide MembersText, Tabs;
  }

  /** cJSON_PrintBuffered gives the same text as the printers that size first,
      whatever the size it starts with. */
  method PrintBuffered(t: Json, prebuffer: nat, fmt: bool) returns (text: chars)
    requires prebuffer > 0 && Integral(t) && |Text(t, 0, fmt)| + 32 <= LIMIT
    ensures text == Text(t, 0, fmt)
  {
    hide Text;
    var p := new PrintBuffer(prebuffer);
    p.PrintValue(t, 0, fmt);
    ghost var s := Text(t, 0, fmt);
    assert [] + s == s;
    // What is returned points to the start of the buffer.
    p.offset := 0;
    p.Advance([], s);
    text := p.buffer[..p.offset];
  }
}
