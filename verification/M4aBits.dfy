// The bit reader of lightduer_m4a_input_bits.c: reads are consecutive slices of
// one big-endian bit string.

module M4aBits {
  import opened Bytes
  import opened Powers

  /** Bit j of a byte, the most significant first. */
  function BitOfByte(b: byte, j: nat): (r: int)
    requires j < 8
    ensures r == 0 || r == 1
  {
    var v := b as int;
    (if j == 0 then v / 128 else if j == 1 then v / 64 else if j == 2 then v / 32 else if j == 3 then v / 16
     else if j == 4 then v / 8 else if j == 5 then v / 4 else if j == 6 then v / 2 else v) % 2
  }

  /** Bit k of the buffer; zero behind its end. */
  function Bit(s: seq<byte>, k: nat): (r: int)
    ensures r == 0 || r == 1
  {
    if k / 8 < |s| then BitOfByte(s[k / 8], k % 8) else 0
  }

  /** The n bits from bit k on, as a number, the first bit the most significant. */
  function Value(s: seq<byte>, k: nat, n: nat): (v: nat)
  {
    if n == 0 then 0 else 2 * Value(s, k, n - 1) + Bit(s, k + n - 1)
  }

  lemma ShiftIn(v: int, p: int, w: int, b: int)
    ensures 2 * (v * p + w) + b == v * (2 * p) + (2 * w + b)
  {
    Twice(v, p);
  }

  lemma {:induction false} ValueBound(s: seq<byte>, k: nat, n: nat)
    ensures Value(s, k, n) < Pow2(n)
  {
    if n > 0 { ValueBound(s, k, n - 1); }
  }

  lemma ValueStep(s: seq<byte>, k: nat, n: nat)
    requires n > 0
    ensures Value(s, k, n) == 2 * Value(s, k, n - 1) + Bit(s, k + n - 1) && Value(s, k, 0) == 0
    ensures Pow2(n) == 2 * Pow2(n - 1) && Pow2(0) == 1
  {
    hide Bit;
  }

  /** A slice of bits is its first part, shifted, and its second part. */
  lemma {:induction false} ValueSplit(s: seq<byte>, k: nat, n: nat, m: nat)
    ensures Value(s, k, n + m) == Value(s, k, n) * Pow2(m) + Value(s, k + n, m)
    decreases m
  {
    hide *;
    ValueStep(s, k + n, m + 1);
    if m == 0 {
      ValueStep(s, k + n, 1);
    } else {
      ValueSplit(s, k, n, m - 1);
      ValueStep(s, k, n + m);
      ValueStep(s, k + n, m);
      var v, w, p, b := Value(s, k, n), Value(s, k + n, m - 1), Pow2(m - 1), Bit(s, k + n + m - 1);
      ShiftIn(v, p, w, b);
    }
  }

  /** Byte i of the buffer; zero behind its end. */
  function ByteAt(s: seq<byte>, i: nat): int {
    if i < |s| then s[i] as int else 0
  }

  lemma BitAt(s: seq<byte>, i: nat, j: nat)
    requires j < 8
    ensures Bit(s, 8 * i + j) == if i < |s| then BitOfByte(s[i], j) else 0
  {
    hide BitOfByte;
    assert (8 * i + j) / 8 == i && (8 * i + j) % 8 == j;
  }

  lemma FourAt(s: seq<byte>, i: nat, j: nat)
    requires j < 5
    ensures FourBits(s, 8 * i + j)
         == if i < |s| then 8 * BitOfByte(s[i], j) + 4 * BitOfByte(s[i], j + 1) + 2 * BitOfByte(s[i], j + 2)
                            + BitOfByte(s[i], j + 3)
            else 0
  {
    hide Bit, BitOfByte;
    BitAt(s, i, j);
    BitAt(s, i, j + 1);
    BitAt(s, i, j + 2);
    BitAt(s, i, j + 3);
  }

  /** Eight bits at a byte boundary are that byte. */
  lemma ByteValue(s: seq<byte>, i: nat)
    ensures Value(s, 8 * i, 8) == ByteAt(s, i)
  {
    hide Value, Bit, BitOfByte, FourBits;
    Unroll8(s, 8 * i);
    FourAt(s, i, 0);
    FourAt(s, i, 4);
    if i < |s| { ByteFromBits(s[i]); }
  }

  lemma ByteFromBits(b: byte)
    ensures b as int == 128 * BitOfByte(b, 0) + 64 * BitOfByte(b, 1) + 32 * BitOfByte(b, 2) + 16 * BitOfByte(b, 3)
                      + 8 * BitOfByte(b, 4) + 4 * BitOfByte(b, 5) + 2 * BitOfByte(b, 6) + BitOfByte(b, 7)
  {
    EightHalves(b as int);
  }

  lemma EightHalves(v: int)
    requires 0 <= v < 256
    ensures v == 128 * (v / 128 % 2) + 64 * (v / 64 % 2) + 32 * (v / 32 % 2) + 16 * (v / 16 % 2)
               + 8 * (v / 8 % 2) + 4 * (v / 4 % 2) + 2 * (v / 2 % 2) + v % 2
  {
    var a := v / 2;
    var b := a / 2;
    var c := b / 2;
    var d := c / 2;
    assert v / 4 == b && v / 8 == c && v / 16 == d;
    assert v / 32 == d / 2 && v / 64 == d / 4 && v / 128 == d / 8;
    assert v == 16 * d + 8 * (c % 2) + 4 * (b % 2) + 2 * (a % 2) + v % 2;
    FourHalves(d);
  }

  lemma FourHalves(d: int)
    requires 0 <= d < 16
    ensures d == 8 * (d / 8 % 2) + 4 * (d / 4 % 2) + 2 * (d / 2 % 2) + d % 2
  {
    var e := d / 2;
    var f := e / 2;
    assert d / 4 == f && d / 8 == f / 2;
  }

  function FourBits(s: seq<byte>, k: nat): int {
    8 * Bit(s, k) + 4 * Bit(s, k + 1) + 2 * Bit(s, k + 2) + Bit(s, k + 3)
  }

  lemma Unroll4(s: seq<byte>, k: nat, n: nat)
    ensures Value(s, k, n + 4) == 16 * Value(s, k, n) + FourBits(s, k + n)
  {
    hide Bit;
    assert Value(s, k, n + 2) == 2 * Value(s, k, n + 1) + Bit(s, k + n + 1);
    assert Value(s, k, n + 3) == 2 * Value(s, k, n + 2) + Bit(s, k + n + 2);
  }

  lemma Unroll8(s: seq<byte>, k: nat)
    ensures Value(s, k, 8) == 16 * FourBits(s, k) + FourBits(s, k + 4)
  {
    hide *;
    NoBits(s, k);
    Unroll4(s, k, 0);
    Unroll4(s, k, 4);
  }

  lemma NoBits(s: seq<byte>, k: nat)
    ensures Value(s, k, 0) == 0
  {
  }

  /** The big-endian word at byte position 4w, with zeros for missing bytes. */
  lemma WordValue(s: seq<byte>, w: nat)
    ensures Value(s, 32 * w, 32) == ByteAt(s, 4 * w) * 0x100_0000 + ByteAt(s, 4 * w + 1) * 0x1_0000
                                  + ByteAt(s, 4 * w + 2) * 0x100 + ByteAt(s, 4 * w + 3)
  {
    hide Value;
    AppendByte(s, 8 * (4 * w), 8, 4 * w + 1);
    AppendByte(s, 8 * (4 * w), 16, 4 * w + 2);
    AppendByte(s, 8 * (4 * w), 24, 4 * w + 3);
    ByteValue(s, 4 * w);
    hide ByteAt;
  }

  /** A slice that stops at a byte boundary, extended by that byte. */
  lemma AppendByte(s: seq<byte>, k: nat, n: nat, i: nat)
    requires k + n == 8 * i
    ensures Value(s, k, n + 8) == Value(s, k, n) * 256 + ByteAt(s, i)
  {
    hide Value;
    ByteValue(s, i);
    ValueSplit(s, k, n, 8);
    PowByte();
  }

  lemma PowByte()
    ensures Pow2(8) == 256
  {
    assert Pow2(4) == 16;
  }

  // 32-bit shifts. A shift by 32 only ever happens to 0.

  function Shl(x: int, n: nat): int { x * Pow2(n) % TWO_32 }
  function Shr(x: int, n: nat): int { x / Pow2(n) }
  function LowBits(x: int, n: nat): int { x % Pow2(n) }

  class BitContext {
    const buffer: seq<byte>
    var firstBuf: int
    var secondBuf: int
    var bitsLeft: int     // bits of firstBuf not read yet
    var bytesLeft: int    // bytes not loaded yet
    var tail: int         // next word to load, counted from the buffer's start

    /** The look-ahead words are the two before the tail. */
    ghost predicate Valid()
      reads this
    {
      && 2 <= tail && 0 <= bitsLeft <= 32
      && firstBuf == Value(buffer, 32 * (tail - 2), 32)
      && secondBuf == Value(buffer, 32 * (tail - 1), 32)
      && bytesLeft == if 4 * tail <= |buffer| then |buffer| - 4 * tail else 0
    }

    /** Number of bits read so far. */
    function Position(): int
      reads this
    {
      32 * (tail - 1) - bitsLeft
    }

    constructor (buffer: seq<byte>)
      requires buffer != []
      ensures Valid() && Position() == 0 && this.buffer == buffer
    {
      this.buffer := buffer;
      firstBuf, secondBuf, bitsLeft, bytesLeft, tail := 0, 0, 32, |buffer|, 2;
      new;
      firstBuf, bytesLeft := LoadWord(0);
      secondBuf, bytesLeft := LoadWord(1);
    }

    /** Sets a reader up; an empty buffer is refused. */
    static method InitInputBits(buffer: seq<byte>) returns (bc: BitContext?)
      ensures bc == null <==> buffer == []
      ensures bc != null ==> fresh(bc) && bc.buffer == buffer && bc.Valid() && bc.Position() == 0
    {
      if buffer == [] { return null; }
      bc := new BitContext(buffer);
    }

    /** Loads word w: a whole one, or what is left of the buffer. */
    method LoadWord(w: nat) returns (word: int, left: int)
      requires bytesLeft == if 4 * w <= |buffer| then |buffer| - 4 * w else 0
      ensures word == Value(buffer, 32 * w, 32)
      ensures left == if 4 * w + 4 <= |buffer| then |buffer| - 4 * w - 4 else 0
    {
      WordValue(buffer, w);
      hide Value;
      if bytesLeft >= 4 {
        word := Be32(buffer, 4 * w);
        left := bytesLeft - 4;
      } else {
        word := GetInt32N(w, bytesLeft);
        left := 0;
      }
    }

    /** The first n bytes of word w, the rest zero. */
    method GetInt32N(w: nat, n: int) returns (ret: int)
      requires 0 <= n < 4 && n == (if 4 * w <= |buffer| then |buffer| - 4 * w else 0)
      ensures ret == ByteAt(buffer, 4 * w) * 0x100_0000 + ByteAt(buffer, 4 * w + 1) * 0x1_0000
                   + ByteAt(buffer, 4 * w + 2) * 0x100 + ByteAt(buffer, 4 * w + 3)
    {
      ret := 0;
      if n > 0 { ret := ret + (buffer[4 * w] as int) * 0x100_0000; }
      if n > 1 { ret := ret + (buffer[4 * w + 1] as int) * 0x1_0000; }
      if n > 2 { ret := ret + (buffer[4 * w + 2] as int) * 0x100; }
    }

    /** The next bits, not yet consumed. */
    method ShowBits(bits: int) returns (ret: int)
      requires Valid() && 1 <= bits <= 32
      ensures ret == Value(buffer, Position(), bits)
    {
      hide Bit;
      if bits <= bitsLeft {
        ret := Shr(Shl(firstBuf, 32 - bitsLeft), 32 - bits);
        FromOneWord(buffer, 32 * (tail - 2), bitsLeft, bits);
      } else {
        var rest := bits - bitsLeft;
        ret := Shl(LowBits(firstBuf, bitsLeft), rest) + Shr(secondBuf, 32 - rest);
        FromTwoWords(buffer, 32 * (tail - 2), bitsLeft, rest);
      }
    }

    method FlushBits(bits: int)
      requires Valid() && 1 <= bits <= 32
      modifies this
      ensures Valid() && Position() == old(Position()) + bits
    {
      hide Value;
      if bits < bitsLeft {
        bitsLeft := bitsLeft - bits;
      } else {
        firstBuf := secondBuf;
        secondBuf, bytesLeft := LoadWord(tail);
        tail := tail + 1;
        bitsLeft := bitsLeft + (32 - bits);
      }
    }

    /** Reads n bits; any other count than 1 to 32 reads nothing. */
    method GetBits(n: int) returns (ret: int)
      requires Valid()
      modifies this
      ensures Valid()
      ensures 1 <= n <= 32 ==> ret == Value(buffer, old(Position()), n) && Position() == old(Position()) + n
      ensures !(1 <= n <= 32) ==> ret == 0 && Position() == old(Position())
    {
      hide Value;
      ret := 0;
      if 0 < n <= 32 {
        ret := ShowBits(n);
        FlushBits(n);
      }
    }

    method GetOneBit() returns (ret: int)
      requires Valid()
      modifies this
      ensures Valid() && Position() == old(Position()) + 1
      ensures ret == Bit(buffer, old(Position()))
    {
      hide Bit, Value, Shr, LowBits, Pow2;
      if bitsLeft > 0 {
        ret := NextLoadedBit();
      } else {
        ghost var k := Position();
        ret := GetBits(1);
        OneBitIs(buffer, k);
      }
    }

    /** The next bit when the first word still holds one. */
    method NextLoadedBit() returns (ret: int)
      requires Valid() && bitsLeft > 0
      modifies `bitsLeft
      ensures Valid() && Position() == old(Position()) + 1
      ensures ret == Bit(buffer, old(Position()))
    {
      hide Bit, Value, Shr, LowBits, Pow2;
      OneBitOf(buffer, 32 * (tail - 2), bitsLeft);
      bitsLeft := bitsLeft - 1;
      ret := LowBits(Shr(firstBuf, bitsLeft), 1);
    }

    /** Bits consumed, as a 32-bit count. */
    method GetProcessedBits() returns (n: int)
      requires Valid()
      ensures n == Position() % TWO_32
    {
      n := (32 * (tail - 1) - bitsLeft) % TWO_32;
    }
  }

  // The arithmetic of the two cases.

  /** The last left bits of a word. */
  lemma LastBits(s: seq<byte>, k: nat, left: nat)
    requires left <= 32
    ensures LowBits(Value(s, k, 32), left) == Value(s, k + 32 - left, left)
  {
    hide Value;
    ValueSplit(s, k, 32 - left, left);
    ValueBound(s, k + 32 - left, left);
    DivideShifted(Value(s, k, 32), Pow2(left), Value(s, k, 32 - left), Value(s, k + 32 - left, left));
  }

  /** The first n bits of a word. */
  lemma FirstBits(s: seq<byte>, k: nat, n: nat)
    requires n <= 32
    ensures Shr(Value(s, k, 32), 32 - n) == Value(s, k, n)
  {
    hide Value;
    ValueSplit(s, k, n, 32 - n);
    ValueBound(s, k + n, 32 - n);
    DivideShifted(Value(s, k, 32), Pow2(32 - n), Value(s, k, n), Value(s, k + n, 32 - n));
  }

  /** Shifting a word left drops its read bits. */
  lemma ShlDrops(x: int, left: nat)
    requires 0 <= x < TWO_32 && left <= 32
    ensures Shl(x, 32 - left) == LowBits(x, left) * Pow2(32 - left)
  {
    Pow32();
    PowAdd(left, 32 - left);
    hide Pow2;
    ShlDropsBy(x, Pow2(left), Pow2(32 - left));
  }

  lemma ShlDropsBy(x: int, p: int, q: int)
    requires 0 <= x && p > 0 && q > 0 && p * q == TWO_32
    ensures x * q % TWO_32 == x % p * q
  {
    var a, r := x / p, x % p;
    assert x == a * p + r;
    Regroup(a, r, p, q);
    DivideShifted(x * q, TWO_32, a, r * q);
  }

  lemma Pow32()
    ensures Pow2(32) == TWO_32
  {
    assert Pow2(8) == 256;
    PowAdd(8, 8);
    PowAdd(16, 16);
  }

  lemma FromOneWord(s: seq<byte>, k: nat, left: nat, bits: nat)
    requires bits <= left <= 32
    ensures Shr(Shl(Value(s, k, 32), 32 - left), 32 - bits) == Value(s, k + 32 - left, bits)
  {
    hide Value;
    Pow32();
    ValueBound(s, k, 32);
    ShlDrops(Value(s, k, 32), left);
    LastBits(s, k, left);
    FirstOfShifted(s, k + 32 - left, left, bits);
    hide Pow2, Shl, Shr, LowBits;
  }

  /** The first bits of a slice that has been moved to the top of a word. */
  lemma FirstOfShifted(s: seq<byte>, p: nat, left: nat, bits: nat)
    requires bits <= left <= 32
    ensures Shr(Value(s, p, left) * Pow2(32 - left), 32 - bits) == Value(s, p, bits)
  {
    hide Value, Pow2;
    ValueSplit(s, p, bits, left - bits);
    ValueBound(s, p + bits, left - bits);
    PowAdd(left - bits, 32 - left);
    var a, r, d, e := Value(s, p, bits), Value(s, p + bits, left - bits), Pow2(left - bits), Pow2(32 - left);
    assert left - bits + (32 - left) == 32 - bits;
    Regroup(a, r, d, e);
    DivideShifted((a * d + r) * e, d * e, a, r * e);
  }

  lemma Regroup(a: int, r: int, d: int, e: int)
    ensures 0 <= r < d && e > 0 ==> (a * d + r) * e == a * (d * e) + r * e && 0 <= r * e < d * e
  {
  }

  lemma FromTwoWords(s: seq<byte>, k: nat, left: nat, rest: nat)
    requires left + rest <= 32 && 1 <= rest
    ensures Shl(LowBits(Value(s, k, 32), left), rest) + Shr(Value(s, k + 32, 32), 32 - rest)
         == Value(s, k + 32 - left, left + rest)
  {
    hide Value, Pow2, Shl, Shr, LowBits;
    var p := k + 32 - left;
    LastBits(s, k, left);
    FirstBits(s, k + 32, rest);
    ValueSplit(s, p, left, rest);
    assert p + left == k + 32;
    ValueBound(s, p, left);
    ShlSmall(Value(s, p, left), left, rest);
  }

  lemma ShlSmall(v: nat, left: nat, rest: nat)
    requires v < Pow2(left) && left + rest <= 32
    ensures Shl(v, rest) == v * Pow2(rest)
  {
    PowAdd(left, rest);
    PowMono(left + rest, 32);
    Pow32();
    hide Pow2;
    Regroup(0, v, Pow2(left), Pow2(rest));
    DivideShifted(v * Pow2(rest), TWO_32, 0, v * Pow2(rest));
  }

  lemma OneBitIs(s: seq<byte>, k: nat)
    ensures Value(s, k, 1) == Bit(s, k) && 0 <= Bit(s, k) <= 1
  {
    assert Value(s, k, 0) == 0;
  }

  /** A single bit of a word. */
  lemma OneBitOf(s: seq<byte>, k: nat, left: nat)
    requires 1 <= left <= 32
    ensures LowBits(Shr(Value(s, k, 32), left - 1), 1) == Bit(s, k + 32 - left)
  {
    hide Value, Bit, Shr, Pow2;
    FirstBits(s, k, 33 - left);
    ValueSplit(s, k, 32 - left, 1);
    OneBitIs(s, k + 32 - left);
    PowOne();
    LastOfTwo(Value(s, k, 32 - left), Bit(s, k + 32 - left));
  }

  lemma PowOne()
    ensures Pow2(1) == 2
  {
    assert Pow2(0) == 1;
  }

  lemma LastOfTwo(v: int, b: int)
    ensures 0 <= b <= 1 ==> (v * 2 + b) % 2 == b
  {
  }
}
