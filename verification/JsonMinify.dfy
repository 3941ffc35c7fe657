// cJSON_Minify: the in-place loop that drops white space and comments.

module JsonMinify {
  import opened Bytes
  import opened JsonText
  import opened JsonStrings
  import opened JsonParser
  import opened JsonSyntax
  import opened JsonRoundTrip

  predicate IsBlank(c: chr) {
    c == SPACE || c == TAB || c == CR || c == LF
  }

  predicate LineComment(s: CString) {
    At(s, SLASH) && At(s.tail, SLASH)
  }

  predicate BlockComment(s: CString) {
    At(s, SLASH) && At(s.tail, STAR)
  }

  /** The end of the line. */
  function LineEnd(s: CString): (r: CString)
    ensures Len(r) <= Len(s)
    ensures At(s, SLASH) ==> Len(r) < Len(s)
  {
    if s.End? || s.head == LF then s else LineEnd(s.tail)
  }

  predicate BlockEndAt(s: CString) {
    At(s, STAR) && At(s.tail, SLASH)
  }

  /** Where a comment's closing pair is; End if there is none. */
  function BlockEnd(s: CString): (r: CString)
    ensures r.Char? ==> BlockEndAt(r)
    ensures Len(r) <= Len(s)
  {
    if s.End? || BlockEndAt(s) then s else BlockEnd(s.tail)
  }

  function PastTwo(s: CString): (r: CString)
    requires s.Char? && s.tail.Char?
    ensures Len(r) == Len(s) - 2
  {
    s.tail.tail
  }

  /** Whether every string and block comment is closed; the C code reads past
      the terminator otherwise. */
  predicate Closed(s: CString, inString: bool)
    decreases Len(s)
  {
    if s.End? then !inString
    else if inString then
      if s.head == QUOTE then Closed(s.tail, false)
      else if s.head == BACKSLASH then s.tail.Char? && Closed(PastTwo(s), true)
      else Closed(s.tail, true)
    else if IsBlank(s.head) then Closed(s.tail, false)
    else if LineComment(s) then Closed(LineEnd(s), false)
    else if BlockComment(s) then BlockEnd(s).Char? && Closed(PastTwo(BlockEnd(s)), false)
    else Closed(s.tail, s.head == QUOTE)
  }

  /** What is left of the text. */
  function Minified(s: CString, inString: bool): CString
    requires Closed(s, inString)
    decreases Len(s)
  {
    if s.End? then End
    else if inString then
      if s.head == QUOTE then Char(QUOTE, Minified(s.tail, false))
      else if s.head == BACKSLASH then Char(BACKSLASH, Char(s.tail.head, Minified(PastTwo(s), true)))
      else Char(s.head, Minified(s.tail, true))
    else if IsBlank(s.head) then Minified(s.tail, false)
    else if LineComment(s) then Minified(LineEnd(s), false)
    else if BlockComment(s) then Minified(PastTwo(BlockEnd(s)), false)
    else Char(s.head, Minified(s.tail, s.head == QUOTE))
  }

  // On documents.

  /** A document without its white space. */
  function Stripped(d: Doc): Doc
    decreases d
  {
    match d
    case EmptyArrayDoc(_) => EmptyArrayDoc(End)
    case ArrayDoc(items) => ArrayDoc(StrippedItems(items))
    case EmptyObjectDoc(_) => EmptyObjectDoc(End)
    case ObjectDoc(members) => ObjectDoc(StrippedMembers(members))
    case _ => d
  }

  function StrippedItems(d: ItemDocs): ItemDocs
    decreases d
  {
    if d.LastItem? then LastItem(End, Stripped(d.value), End)
    else MoreItems(End, Stripped(d.value), End, StrippedItems(d.more))
  }

  function StrippedMembers(d: MemberDocs): MemberDocs
    decreases d
  {
    if d.LastMember? then LastMember(End, d.name, End, End, Stripped(d.value), End)
    else MoreMembers(End, d.name, End, End, Stripped(d.value), End, StrippedMembers(d.more))
  }

  /** That a becomes b, for texts a that are closed. */
  predicate Becomes(a: CString, b: CString) {
    Closed(a, false) && Minified(a, false) == b
  }

  lemma {:induction false} LineSkipped(text: CString, a: CString)
    requires OneLine(text)
    ensures LineEnd(Join(text, Char(LF, a))) == Char(LF, a)
  {
    if text.Char? { LineSkipped(text.tail, a); }
  }

  lemma LineBecomes(text: CString, a: CString, b: CString)
    requires OneLine(text) && Becomes(a, b)
    ensures Becomes(Char(SLASH, Char(SLASH, Join(text, Char(LF, a)))), b)
  {
    LineSkipped(text, a);
    var end, x := Char(LF, a), Join(text, Char(LF, a));
    hide Join;
    assert Becomes(end, b);
    assert LineEnd(Char(SLASH, x)) == end;
    assert LineEnd(Char(SLASH, Char(SLASH, x))) == end;
    hide LineEnd;
  }

  /** The text between the slash-star and the star-slash of a comment, from the
      star of the first on. */
  function Commenting(text: CString, a: CString): CString {
    Join(text, Char(STAR, Char(SLASH, a)))
  }

  lemma {:induction false} BlockSkipped(text: CString, a: CString)
    requires NoClosing(text)
    ensures BlockEnd(Commenting(text, a)) == Char(STAR, Char(SLASH, a))
  {
    if text.Char? {
      BlockSkipped(text.tail, a);
      assert Commenting(text, a) == Char(text.head, Commenting(text.tail, a));
      assert text.tail.End? ==> Commenting(text.tail, a) == Char(STAR, Char(SLASH, a));
    }
  }

  /** The code looks for the end of a block comment from its very first slash on:
      it passes the comment as a whole exactly when its text does not start with
      a slash, and otherwise takes slash-star-slash for all of it. */
  lemma SlashComment(text: CString, a: CString)
    requires NoClosing(text)
    ensures var s := Char(SLASH, Char(STAR, Commenting(text, a)));
      && BlockComment(s) && BlockEnd(s).Char?
      && (PastTwo(BlockEnd(s)) == a <==> !At(text, SLASH))
      && (At(text, SLASH) ==> PastTwo(BlockEnd(s)) == Commenting(text.tail, a))
  {
    hide BlockEnd;
    BlockSkipped(text, a);
    BlockStarts(Commenting(text, a));
    if At(text, SLASH) {
      CommentLonger(text.tail, a);
      assert Commenting(text, a) == Char(SLASH, Commenting(text.tail, a));
    }
  }

  lemma BlockStarts(x: CString)
    ensures var s := Char(SLASH, Char(STAR, x));
      BlockComment(s) && BlockEnd(s) == if At(x, SLASH) then s.tail else BlockEnd(x)
  {
  }

  lemma {:induction false} CommentLonger(text: CString, a: CString)
    ensures Len(Commenting(text, a)) > Len(a)
  {
    if text.Char? { CommentLonger(text.tail, a); }
  }

  lemma BlockBecomes(text: CString, a: CString, b: CString)
    requires NoClosing(text) && !At(text, SLASH) && Becomes(a, b)
    ensures Becomes(Char(SLASH, Char(STAR, Commenting(text, a))), b)
  {
    SlashComment(text, a);
    hide Commenting, BlockEnd;
  }

  lemma {:induction false} GapBecomes(gap: Gap, a: CString, b: CString)
    requires GapForm(gap) && Becomes(a, b)
    ensures Becomes(GapThen(gap, a), b)
  {
    match gap
    case NoGap =>
    case WhiteGap(c, more) =>
      GapBecomes(more, a, b);
    case LineGap(text, more) =>
      GapBecomes(more, a, b);
      LineBecomes(text, GapThen(more, a), b);
    case BlockGap(text, more) =>
      GapBecomes(more, a, b);
      BlockBecomes(text, GapThen(more, a), b);
  }

  lemma {:induction false} JoinJoin(a: CString, b: CString, c: CString)
    ensures Join(Join(a, b), c) == Join(a, Join(b, c))
  {
    if a.Char? { JoinJoin(a.tail, b, c); }
  }

  lemma {:induction false} GapJoin(gap: Gap, rest: CString)
    ensures Join(GapThen(gap, End), rest) == GapThen(gap, rest)
  {
    match gap
    case NoGap =>
    case WhiteGap(_, more) => GapJoin(more, rest);
    case LineGap(text, more) =>
      GapJoin(more, rest);
      JoinJoin(text, Char(LF, GapThen(more, End)), rest);
    case BlockGap(text, more) =>
      GapJoin(more, rest);
      JoinJoin(text, Char(STAR, Char(SLASH, GapThen(more, End))), rest);
  }

  /** White space and comments are dropped. */
  lemma BlankBecomes(blank: CString, a: CString, b: CString)
    requires Blank(blank, Commented) && Becomes(a, b)
    ensures Becomes(Join(blank, a), b)
  {
    var gap :| GapForm(gap) && blank == GapThen(gap, End);
    GapJoin(gap, a);
    GapBecomes(gap, a, b);
    hide Becomes;
  }

  predicate Ordinary(c: chr) {
    !White(c, Rfc8259) && c != SLASH && c != QUOTE
  }

  /** A slash that starts no comment is kept. */
  lemma SlashBecomes(a: CString, b: CString)
    requires Becomes(a, b) && !At(a, SLASH) && !At(a, STAR)
    ensures Becomes(Char(SLASH, a), Char(SLASH, b))
  {
  }

  /** Every other character outside a string is kept. */
  lemma CharBecomes(c: chr, a: CString, b: CString)
    requires Ordinary(c) && Becomes(a, b)
    ensures Becomes(Char(c, a), Char(c, b))
  {
  }

  lemma {:induction false} WordBecomes(word: chars, a: CString, b: CString)
    requires (forall i :: 0 <= i < |word| ==> Ordinary(word[i])) && Becomes(a, b)
    ensures Becomes(Onto(word, a), Onto(word, b))
  {
    hide Ordinary, Becomes;
    if word != [] {
      WordBecomes(word[1..], a, b);
      CharBecomes(word[0], Onto(word[1..], a), Onto(word[1..], b));
    }
  }

  lemma {:induction false} DigitsBecome(digits: CString, a: CString, b: CString)
    requires Digits(digits) && Becomes(a, b)
    ensures Becomes(Join(digits, a), Join(digits, b))
  {
    hide Becomes;
    if digits.Char? {
      DigitsBecome(digits.tail, a, b);
      CharBecomes(digits.head, Join(digits.tail, a), Join(digits.tail, b));
    }
  }

  lemma ExponentBecomes(e: Exponent, a: CString, b: CString)
    requires ExponentForm(e, Commented) && Becomes(a, b)
    ensures Becomes(ExponentThen(e, a), ExponentThen(e, b))
  {
    hide Becomes, Digits;
    if e.Exponent? {
      DigitsBecome(e.digits, a, b);
      var x, y := Join(e.digits, a), Join(e.digits, b);
      NoneOnto(x);
      NoneOnto(y);
      if e.sign.Char? {
        assert Join(e.sign, x) == Char(e.sign.head, x) && Join(e.sign, y) == Char(e.sign.head, y);
        CharBecomes(e.sign.head, x, y);
      }
      CharBecomes(e.mark, Join(e.sign, x), Join(e.sign, y));
    }
  }

  lemma NumeralBecomes(n: Numeral, a: CString, b: CString)
    requires NumeralForm(n, Commented) && Becomes(a, b)
    ensures Becomes(NumeralThen(n, a), NumeralThen(n, b))
  {
    hide Becomes, Join, ExponentThen, ExponentForm, Digits;
    ExponentBecomes(n.exponent, a, b);
    var e, e' := ExponentThen(n.exponent, a), ExponentThen(n.exponent, b);
    if n.fraction.Char? {
      DigitsBecome(n.fraction, e, e');
      CharBecomes(DOT, Join(n.fraction, e), Join(n.fraction, e'));
    }
    var f, f' := FractionThen(n.fraction, e), FractionThen(n.fraction, e');
    DigitsBecome(n.whole, f, f');
    CharBecomes(MINUS, Join(n.whole, f), Join(n.whole, f'));
  }

  lemma {:induction false} LiteralBecomes(l: Literal, a: CString, b: CString)
    requires LiteralForm(l, Cjson) && Becomes(a, b)
    ensures Closed(LiteralThen(l, Char(QUOTE, a)), true)
    ensures Minified(LiteralThen(l, Char(QUOTE, a)), true) == LiteralThen(l, Char(QUOTE, b))
    decreases l
  {
    match l
    case NoPiece =>
    case Plain(_, more) => LiteralBecomes(more, a, b);
    case Short(_, more) => LiteralBecomes(more, a, b);
    case Unit(h0, h1, h2, h3, more) =>
      LiteralBecomes(more, a, b);
      var x := LiteralThen(more, Char(QUOTE, a));
      PlainKept(h3, x);
      PlainKept(h2, Char(h3, x));
      PlainKept(h1, Char(h2, Char(h3, x)));
      PlainKept(h0, Char(h1, Char(h2, Char(h3, x))));
  }

  lemma PlainKept(h: chr, x: CString)
    requires h != QUOTE && h != BACKSLASH && Closed(x, true)
    ensures Closed(Char(h, x), true) && Minified(Char(h, x), true) == Char(h, Minified(x, true))
  {
  }

  /** A string is kept as it is, whatever it holds. */
  lemma QuotedBecomes(l: Literal, a: CString, b: CString)
    requires LiteralForm(l, Cjson) && Becomes(a, b)
    ensures Becomes(Quoted(l, a), Quoted(l, b))
  {
    LiteralBecomes(l, a, b);
    hide LiteralThen;
  }

  lemma {:induction false} LiteralBack(l: Literal)
    ensures LiteralForm(l, Commented) <==> LiteralForm(l, Rfc8259)
    ensures LiteralForm(l, Commented) ==> LiteralForm(l, Cjson)
  {
    match l
    case NoPiece =>
    case Plain(_, more) => LiteralBack(more);
    case Short(_, more) => LiteralBack(more);
    case Unit(_, _, _, _, more) => LiteralBack(more);
  }

  /** Minifying a document's text gives the text of the stripped document. */
  lemma {:induction false} DocBecomes(d: Doc, a: CString, b: CString)
    requires DocForm(d, Commented) && Becomes(a, b)
    ensures Becomes(DocThen(d, a), DocThen(Stripped(d), b))
    decreases d, 1
  {
    hide Becomes, Onto, Join, Blank, NumeralThen, Quoted, NumeralForm, LiteralForm, ItemsThen, MembersThen;
    match d
    case NullDoc => WordBecomes(NULL_TEXT, a, b);
    case FalseDoc => WordBecomes(FALSE_TEXT, a, b);
    case TrueDoc => WordBecomes(TRUE_TEXT, a, b);
    case NumberDoc(n) => NumeralBecomes(n, a, b);
    case StringDoc(l) =>
      LiteralBack(l);
      QuotedBecomes(l, a, b);
    case EmptyArrayDoc(inner) =>
      CharBecomes(RBRACKET, a, b);
      PairBecomes(LBRACKET, inner, Char(RBRACKET, a), Char(RBRACKET, b));
    case EmptyObjectDoc(inner) =>
      CharBecomes(RBRACE, a, b);
      PairBecomes(LBRACE, inner, Char(RBRACE, a), Char(RBRACE, b));
    case ArrayDoc(items) =>
      ItemsBecome(items, a, b);
      CharBecomes(LBRACKET, ItemsThen(items, a), ItemsThen(StrippedItems(items), b));
    case ObjectDoc(members) =>
      MembersBecome(members, a, b);
      CharBecomes(LBRACE, MembersThen(members, a), MembersThen(StrippedMembers(members), b));
  }

  /** A character, white space, and the rest. */
  lemma PairBecomes(c: chr, blank: CString, a: CString, b: CString)
    requires Ordinary(c) && Blank(blank, Commented) && Becomes(a, b)
    ensures Becomes(Char(c, Join(blank, a)), Char(c, Join(End, b)))
  {
    hide Becomes;
    NoneOnto(b);
    BlankBecomes(blank, a, b);
    CharBecomes(c, Join(blank, a), b);
  }

  lemma SpacedBecomes(blank: CString, a: CString, b: CString)
    requires Blank(blank, Commented) && Becomes(a, b)
    ensures Becomes(Join(blank, a), Join(End, b))
  {
    hide Becomes;
    NoneOnto(b);
    BlankBecomes(blank, a, b);
  }

  lemma {:induction false} ItemsBecome(d: ItemDocs, a: CString, b: CString)
    requires ItemsForm(d, Commented) && Becomes(a, b)
    ensures Becomes(ItemsThen(d, a), ItemsThen(StrippedItems(d), b))
    decreases d, 0
  {
    hide Becomes, Join, Blank, DocThen, Stripped, DocForm;
    var x := if d.LastItem? then Char(RBRACKET, a) else Char(COMMA, ItemsThen(d.more, a));
    var y := if d.LastItem? then Char(RBRACKET, b) else Char(COMMA, ItemsThen(StrippedItems(d.more), b));
    if d.LastItem? {
      CharBecomes(RBRACKET, a, b);
    } else {
      ItemsBecome(d.more, a, b);
      CharBecomes(COMMA, ItemsThen(d.more, a), ItemsThen(StrippedItems(d.more), b));
    }
    SpacedBecomes(d.after, x, y);
    DocBecomes(d.value, Join(d.after, x), Join(End, y));
    SpacedBecomes(d.before, DocThen(d.value, Join(d.after, x)), DocThen(Stripped(d.value), Join(End, y)));
  }

  lemma {:induction false} MembersBecome(d: MemberDocs, a: CString, b: CString)
    requires MembersForm(d, Commented) && Becomes(a, b)
    ensures Becomes(MembersThen(d, a), MembersThen(StrippedMembers(d), b))
    decreases d, 0
  {
    hide Becomes, Join, Blank, DocThen, Stripped, DocForm, Quoted, LiteralForm;
    var x := if d.LastMember? then Char(RBRACE, a) else Char(COMMA, MembersThen(d.more, a));
    var y := if d.LastMember? then Char(RBRACE, b) else Char(COMMA, MembersThen(StrippedMembers(d.more), b));
    if d.LastMember? {
      CharBecomes(RBRACE, a, b);
    } else {
      MembersBecome(d.more, a, b);
      CharBecomes(COMMA, MembersThen(d.more, a), MembersThen(StrippedMembers(d.more), b));
    }
    SpacedBecomes(d.after, x, y);
    DocBecomes(d.value, Join(d.after, x), Join(End, y));
    var v, v' := DocThen(d.value, Join(d.after, x)), DocThen(Stripped(d.value), Join(End, y));
    PairBecomes(COLON, d.afterColon, v, v');
    var c, c' := Char(COLON, Join(d.afterColon, v)), Char(COLON, Join(End, v'));
    SpacedBecomes(d.beforeColon, c, c');
    LiteralBack(d.name);
    QuotedBecomes(d.name, Join(d.beforeColon, c), Join(End, c'));
    SpacedBecomes(d.before, Quoted(d.name, Join(d.beforeColon, c)), Quoted(d.name, Join(End, c')));
  }

  // Formatting is what minifying strips.

  lemma {:induction false} LaidStripped(t: Json, depth: nat, depth': nat, fmt: bool)
    requires Integral(t)
    ensures Stripped(Laid(t, depth, fmt)) == Laid(t, depth', false)
    decreases t
  {
    hide LaidNumber, LaidString, Tabs;
    match t
    case Array(items) =>
      if items.Item? { LaidItemsStripped(items, true, depth + 1, depth' + 1, fmt); }
    case Object(members) =>
      NoneOnto(End);
      if members.Member? { LaidMembersStripped(members, depth + 1, depth' + 1, fmt); }
    case _ =>
  }

  lemma {:induction false} LaidItemsStripped(items: Items, first: bool, depth: nat, depth': nat, fmt: bool)
    requires items.Item? && IntegralItems(items)
    ensures StrippedItems(LaidItems(items, first, depth, fmt)) == LaidItems(items, first, depth', false)
    decreases items
  {
    LaidStripped(items.value, depth, depth', fmt);
    NoneOnto(End);
    if items.more.Item? { LaidItemsStripped(items.more, false, depth, depth', fmt); }
    hide Laid;
  }

  lemma {:induction false} LaidMembersStripped(members: Members, depth: nat, depth': nat, fmt: bool)
    requires members.Member? && IntegralMembers(members) && depth > 0 && depth' > 0
    ensures StrippedMembers(LaidMembers(members, depth, fmt)) == LaidMembers(members, depth', false)
    decreases members
  {
    LaidStripped(members.value, depth, depth', fmt);
    NoneOnto(End);
    if members.more.Member? { LaidMembersStripped(members.more, depth, depth', fmt); }
    hide Laid, LaidString, Tabs;
  }

  /** Minifying printed text gives the unformatted text of the same tree. */
  lemma MinifyUndoesFormatting(t: Json, fmt: bool)
    requires Integral(t)
    ensures Becomes(Onto(Text(t, 0, fmt), End), Onto(Text(t, 0, false), End))
  {
    hide Laid, Text, Onto, DocThen, Stripped, DocForm, Tree;
    LaidMeans(t, 0, fmt);
    DocWider(Laid(t, 0, fmt), Commented);
    DocBecomes(Laid(t, 0, fmt), End, End);
    LaidStripped(t, 0, 0, fmt);
    LaidText(t, 0, fmt, End);
    LaidText(t, 0, false, End);
  }

  // So a text with comments can be parsed once it is minified.

  lemma NoBlank(g: Grammar)
    ensures Blank(End, g)
  {
    assert GapForm(NoGap) && GapThen(NoGap, End) == End;
  }

  lemma {:induction false} StrippedForm(d: Doc)
    requires DocForm(d, Commented)
    ensures DocForm(Stripped(d), Rfc8259) && Tree(Stripped(d)) == Tree(d)
    decreases d, 1
  {
    hide Blank, NumeralForm, LiteralForm, NumeralMeaning, Meaning;
    NoBlank(Rfc8259);
    match d
    case NumberDoc(n) => NumeralBack(n);
    case StringDoc(l) => LiteralBack(l);
    case ArrayDoc(items) => StrippedItemsForm(items);
    case ObjectDoc(members) => StrippedMembersForm(members);
    case _ =>
  }

  lemma NumeralBack(n: Numeral)
    ensures NumeralForm(n, Commented) <==> NumeralForm(n, Rfc8259)
  {
  }

  lemma {:induction false} StrippedItemsForm(d: ItemDocs)
    requires ItemsForm(d, Commented)
    ensures ItemsForm(StrippedItems(d), Rfc8259) && ItemTrees(StrippedItems(d)) == ItemTrees(d)
    decreases d, 0
  {
    hide Blank, DocForm, Stripped, Tree;
    NoBlank(Rfc8259);
    StrippedForm(d.value);
    if d.MoreItems? { StrippedItemsForm(d.more); }
  }

  lemma {:induction false} StrippedMembersForm(d: MemberDocs)
    requires MembersForm(d, Commented)
    ensures MembersForm(StrippedMembers(d), Rfc8259) && MemberTrees(StrippedMembers(d)) == MemberTrees(d)
    decreases d, 0
  {
    hide Blank, DocForm, Stripped, Tree, LiteralForm, Meaning;
    NoBlank(Rfc8259);
    LiteralBack(d.name);
    StrippedForm(d.value);
    if d.MoreMembers? { StrippedMembersForm(d.more); }
  }

  /** Minifying a text of the standard, with comments wherever it may have white
      space, gives one that cJSON_Parse reads as its tree. */
  lemma MinifiedParses(before: CString, d: Doc, after: CString, requireNullTerminated: bool)
    requires Blank(before, Commented) && DocForm(d, Commented) && Blank(after, Commented)
    ensures var text := Join(before, DocThen(d, Join(after, End)));
      && Becomes(text, DocThen(Stripped(d), End))
      && TextAt(Minified(text, false), requireNullTerminated) == Done(Tree(d), End)
  {
    hide Blank, DocForm, DocThen, Stripped, Tree, TextAt, Join;
    BlankBecomes(after, End, End);
    DocBecomes(d, Join(after, End), End);
    BlankBecomes(before, DocThen(d, Join(after, End)), DocThen(Stripped(d), End));
    StrippedForm(d);
    NoBlank(Rfc8259);
    NoneOnto(End);
    NoneOnto(DocThen(Stripped(d), End));
    ParseReadsEveryText(End, Stripped(d), End, requireNullTerminated);
  }

  // The loop, in place.

  /** The C string in s from i on. */
  function CStr(s: seq<byte>, i: nat): CString
    requires i <= |s|
    decreases |s| - i
  {
    if i == |s| || s[i] == 0 then End else Char(s[i], CStr(s, i + 1))
  }

  lemma {:induction false} CStrOf(s: seq<byte>, text: chars)
    requires text <= s && |text| < |s| && s[|text|] == 0
    ensures CStr(s, 0) == Onto(text, End)
  {
    CStrFrom(s, text, 0);
  }

  lemma {:induction false} CStrFrom(s: seq<byte>, text: chars, i: nat)
    requires i + |text| < |s| && s[i..i + |text|] == text && s[i + |text|] == 0
    ensures CStr(s, i) == Onto(text, End)
    decreases |text|
  {
    if text != [] {
      assert s[i] == text[0];
      assert s[i + 1..i + 1 + |text[1..]|] == text[1..];
      CStrFrom(s, text[1..], i + 1);
    }
  }

  /** A buffer whose text from i on is still that of s0, which has len characters. */
  ghost predicate Unread(json: seq<byte>, s0: seq<byte>, i: nat, len: nat) {
    && |json| == |s0| && i <= len < |s0| && s0[len] == 0
    && (forall k :: 0 <= k < len ==> s0[k] != 0)
    && (forall k :: i <= k <= len ==> json[k] == s0[k])
  }

  lemma UnreadAt(json: seq<byte>, s0: seq<byte>, i: nat, len: nat)
    requires Unread(json, s0, i, len)
    ensures json[i] == s0[i] && (json[i] == 0 <==> i == len)
    ensures i < len ==> json[i + 1] == s0[i + 1] && Unread(json, s0, i + 1, len)
    ensures i < len ==> CStr(s0, i) == Char(s0[i], CStr(s0, i + 1))
    ensures i == len ==> CStr(s0, i) == End
  {
  }

  /** What was written so far, and what is still to come. */
  ghost predicate Written(json: seq<byte>, into: nat, i: nat, done: chars, rest: CString, all: CString) {
    into <= i <= |json| && json[..into] == done && Onto(done, rest) == all
  }

  lemma CopyStep(json: seq<byte>, into: nat, i: nat, done: chars, c: chr, rest: CString, all: CString)
    requires Written(json, into, i, done, Char(c, rest), all) && i < |json|
    ensures Written(json[into := c], into + 1, i + 1, done + [c], rest, all)
  {
    OntoConcat(done, [c], rest);
    OneOnto(c, rest);
    hide Onto;
  }

  lemma CopyUnread(json: seq<byte>, s0: seq<byte>, into: nat, i: nat, len: nat, c: byte)
    ensures Unread(json, s0, i, len) && into <= i < len ==> Unread(json[into := c], s0, i + 1, len)
  {
  }

  /** Copies one character. */
  method Copy(json: array<byte>, into: nat, i: nat, ghost s0: seq<byte>, ghost len: nat, ghost done: chars,
              ghost rest: CString, ghost all: CString)
    requires Unread(json[..], s0, i, len) && i < len
    requires Written(json[..], into, i, done, Char(s0[i], rest), all)
    modifies json
    ensures Unread(json[..], s0, i + 1, len)
    ensures Written(json[..], into + 1, i + 1, done + [s0[i]], rest, all)
  {
    UnreadAt(json[..], s0, i, len);
    CopyStep(json[..], into, i, done, s0[i], rest, all);
    CopyUnread(json[..], s0, into, i, len, s0[i]);
    ghost var was := json[..];
    json[into] := json[i];
    assert json[..] == was[into := s0[i]];
  }

  /** The loop between two characters: i read and into written. */
  ghost predicate Midway(json: seq<byte>, s0: seq<byte>, len: nat, into: nat, i: nat, done: chars, inString: bool) {
    && Unread(json, s0, i, len)
    && Closed(CStr(s0, 0), false) && Closed(CStr(s0, i), inString)
    && Written(json, into, i, done, Minified(CStr(s0, i), inString), Minified(CStr(s0, 0), false))
  }

  /** Inside a string every character is kept, with the one behind a backslash. */
  method CopyInside(json: array<byte>, into: nat, i: nat, ghost s0: seq<byte>, ghost len: nat, ghost done: chars)
    returns (into': nat, i': nat, ghost done': chars)
    requires Midway(json[..], s0, len, into, i, done, true) && i < len && s0[i] != QUOTE
    modifies json
    ensures Midway(json[..], s0, len, into', i', done', true) && i' > i
  {
    ghost var s, all := CStr(s0, i), Minified(CStr(s0, 0), false);
    into', i', done' := into, i, done;
    UnreadAt(json[..], s0, i, len);
    hide Unread, Written, CStr, Onto;
    if json[i] == BACKSLASH {
      Copy(json, into', i', s0, len, done', Char(s.tail.head, Minified(PastTwo(s), true)), all);
      into', i', done' := into' + 1, i' + 1, done' + [s0[i']];
      UnreadAt(json[..], s0, i', len);
    }
    Copy(json, into', i', s0, len, done', Minified(CStr(s0, i' + 1), true), all);
    into', i', done' := into' + 1, i' + 1, done' + [s0[i']];
  }

  /** A whole string literal. */
  method CopyString(json: array<byte>, into: nat, i: nat, ghost s0: seq<byte>, ghost len: nat, ghost done: chars)
    returns (into': nat, i': nat, ghost done': chars)
    requires Midway(json[..], s0, len, into, i, done, false) && i < len && s0[i] == QUOTE
    modifies json
    ensures Midway(json[..], s0, len, into', i', done', false) && i' > i
  {
    ghost var all := Minified(CStr(s0, 0), false);
    UnreadAt(json[..], s0, i, len);
    hide Unread, Written, CStr, Onto;
    Copy(json, into, i, s0, len, done, Minified(CStr(s0, i + 1), true), all);
    into', i', done' := into + 1, i + 1, done + [s0[i]];
    InBounds(json[..], s0, i', len);
    while json[i'] != 0 && json[i'] != QUOTE
      invariant Midway(json[..], s0, len, into', i', done', true) && i < i' <= len < json.Length
      decreases len - i'
    {
      UnreadAt(json[..], s0, i', len);
      into', i', done' := CopyInside(json, into', i', s0, len, done');
      InBounds(json[..], s0, i', len);
    }
    UnreadAt(json[..], s0, i', len);
    Copy(json, into', i', s0, len, done', Minified(CStr(s0, i' + 1), false), all);
    into', i', done' := into' + 1, i' + 1, done' + [s0[i']];
  }

  lemma InBounds(json: seq<byte>, s0: seq<byte>, i: nat, len: nat)
    ensures Unread(json, s0, i, len) ==> i <= len < |json|
  {
  }

  /** To the end of a line comment. */
  method SkipLine(json: array<byte>, i: nat, ghost s0: seq<byte>, ghost len: nat) returns (i': nat)
    requires Unread(json[..], s0, i, len)
    ensures i <= i' && Unread(json[..], s0, i', len) && CStr(s0, i') == LineEnd(CStr(s0, i))
    ensures At(CStr(s0, i), SLASH) ==> i < i'
  {
    i' := i;
    InBounds(json[..], s0, i, len);
    UnreadAt(json[..], s0, i, len);
    while json[i'] != 0 && json[i'] != LF
      invariant i <= i' <= len < json.Length && Unread(json[..], s0, i', len)
      invariant LineEnd(CStr(s0, i')) == LineEnd(CStr(s0, i))
      decreases len - i'
    {
      UnreadAt(json[..], s0, i', len);
      hide Unread, CStr;
      i' := i' + 1;
      InBounds(json[..], s0, i', len);
    }
    UnreadAt(json[..], s0, i', len);
  }

  /** Past a block comment that is closed. */
  method SkipBlock(json: array<byte>, i: nat, ghost s0: seq<byte>, ghost len: nat) returns (i': nat)
    requires Unread(json[..], s0, i, len) && BlockEnd(CStr(s0, i)).Char?
    ensures i < i' && Unread(json[..], s0, i', len) && CStr(s0, i') == PastTwo(BlockEnd(CStr(s0, i)))
  {
    i' := i;
    UnreadAt(json[..], s0, i, len);
    while json[i'] != 0 && !(json[i'] == STAR && json[i' + 1] == SLASH)
      invariant i <= i' < len < json.Length && Unread(json[..], s0, i', len)
      invariant BlockEnd(CStr(s0, i')) == BlockEnd(CStr(s0, i))
      decreases len - i'
    {
      UnreadAt(json[..], s0, i', len);
      UnreadAt(json[..], s0, i' + 1, len);
      hide Unread, CStr;
      i' := i' + 1;
      InBounds(json[..], s0, i', len);
    }
    UnreadAt(json[..], s0, i', len);
    UnreadAt(json[..], s0, i' + 1, len);
    i' := i' + 2;
  }

  lemma SlashNext(json: seq<byte>, s0: seq<byte>, i: nat, len: nat)
    requires Unread(json, s0, i, len) && i < len
    ensures LineComment(CStr(s0, i)) <==> json[i] == SLASH && json[i + 1] == SLASH
    ensures BlockComment(CStr(s0, i)) <==> json[i] == SLASH && json[i + 1] == STAR
  {
    UnreadAt(json, s0, i, len);
    UnreadAt(json, s0, i + 1, len);
    hide Unread, CStr;
  }

  lemma Skipped(json: seq<byte>, s0: seq<byte>, len: nat, into: nat, i: nat, i': nat, done: chars)
    requires Midway(json, s0, len, into, i, done, false) && Unread(json, s0, i', len) && i <= i'
    requires Closed(CStr(s0, i'), false) && Minified(CStr(s0, i'), false) == Minified(CStr(s0, i), false)
    ensures Midway(json, s0, len, into, i', done, false)
  {
    hide Unread, CStr, Onto, Minified, Closed;
    InBounds(json, s0, i', len);
  }

  /** One round of the loop. */
  method MinifyStep(json: array<byte>, into: nat, i: nat, ghost s0: seq<byte>, ghost len: nat, ghost done: chars)
    returns (into': nat, i': nat, ghost done': chars)
    requires Midway(json[..], s0, len, into, i, done, false) && i < len
    modifies json
    ensures Midway(json[..], s0, len, into', i', done', false) && i' > i
  {
    into', i', done' := into, i, done;
    UnreadAt(json[..], s0, i, len);
    SlashNext(json[..], s0, i, len);
    InBounds(json[..], s0, i, len);
    hide Unread, Written, CStr, Onto, LineComment, BlockComment, LineEnd, BlockEnd;
    if json[i] == SPACE || json[i] == TAB || json[i] == CR || json[i] == LF {
      i' := i + 1;
      Skipped(json[..], s0, len, into, i, i', done);
    } else if json[i] == SLASH && json[i + 1] == SLASH {
      i' := SkipLine(json, i, s0, len);
      Skipped(json[..], s0, len, into, i, i', done);
    } else if json[i] == SLASH && json[i + 1] == STAR {
      i' := SkipBlock(json, i, s0, len);
      Skipped(json[..], s0, len, into, i, i', done);
    } else if json[i] == QUOTE {
      into', i', done' := CopyString(json, into, i, s0, len, done);
    } else {
      Copy(json, into, i, s0, len, done, Minified(CStr(s0, i + 1), false), Minified(CStr(s0, 0), false));
      into', i', done' := into + 1, i + 1, done + [s0[i]];
    }
  }

  lemma MidwayStart(s0: seq<byte>, len: nat)
    requires Unread(s0, s0, 0, len) && Closed(CStr(s0, 0), false)
    ensures Midway(s0, s0, len, 0, 0, [], false)
  {
    assert s0[..0] == [];
  }

  lemma MidwayEnd(json: seq<byte>, s0: seq<byte>, len: nat, into: nat, done: chars)
    requires Midway(json, s0, len, into, len, done, false) && into < |json|
    ensures CStr(json[into := 0], 0) == Minified(CStr(s0, 0), false)
  {
    UnreadAt(json, s0, len, len);
    assert json[into := 0][..into] == done;
    CStrOf(json[into := 0], done);
    hide CStr, Onto;
  }

  /** Minifies the text of len characters in the buffer, which the write
      cursor never overtakes reading. */
  method Minify(json: array<byte>, ghost len: nat)
    requires len < json.Length && json[len] == 0 && forall k :: 0 <= k < len ==> json[k] != 0
    requires Closed(CStr(json[..], 0), false)
    modifies json
    ensures CStr(json[..], 0) == Minified(old(CStr(json[..], 0)), false)
  {
    ghost var s0 := json[..];
    ghost var done: chars := [];
    var into: nat, i: nat := 0, 0;
    MidwayStart(s0, len);
    hide Midway, CStr, Minified, Closed;
    while json[i] != 0
      invariant Midway(json[..], s0, len, into, i, done, false) && into <= i <= len < json.Length
      decreases len - i
    {
      AtEnd(json[..], s0, len, into, i, done);
      into, i, done := MinifyStep(json, into, i, s0, len, done);
      AtEnd(json[..], s0, len, into, i, done);
    }
    AtEnd(json[..], s0, len, into, i, done);
    MidwayEnd(json[..], s0, len, into, done);
    ghost var was := json[..];
    json[into] := 0;
    assert json[..] == was[into := 0];
  }

  lemma AtEnd(json: seq<byte>, s0: seq<byte>, len: nat, into: nat, i: nat, done: chars)
    requires Midway(json, s0, len, into, i, done, false)
    ensures into <= i <= len < |json| && (json[i] == 0 <==> i == len)
  {
    hide CStr, Minified, Closed, Onto;
  }
}
