// CRC-32 (section 8 of RFC 1952) by a table look-up per byte, proved equal to
// division bit by bit.

module Crc32 {
  type octet = bv8

  const POLYNOMIAL: bv32 := 0xedb88320

  function Xor(a: bv32, b: bv32): bv32 { a ^ b }

  function Shift8(c: bv32): bv32 { c >> 8 }

  function Half(c: bv32): bv32 { c >> 1 }

  predicate Odd(c: bv32) { c & 1 == 1 }

  /** One bit of the division by the polynomial. */
  function Step(c: bv32): bv32 {
    if c & 1 == 1 then (c >> 1) ^ POLYNOMIAL else c >> 1
  }

  /** One byte's worth of bits. */
  function Step8(c: bv32): bv32 {
    Step(Step(Step(Step(Step(Step(Step(Step(c))))))))
  }

  function Not(c: bv32): bv32 { !c }

  function Wide(b: octet): bv32 { b as bv32 }

  /** The remainder after the bytes of s, one bit at a time. */
  function Remainder(c: bv32, s: seq<octet>): bv32
    decreases |s|
  {
    if s == [] then c else Remainder(Step8(Xor(c, Wide(s[0]))), s[1..])
  }

  /** CRC of s continued from crc, before and after which the register is inverted. */
  function Crc(crc: bv32, s: seq<octet>): bv32 {
    Not(Remainder(Not(crc), s))
  }

  // The table, eight entries a row as in the source, four rows a function.

  function CrcRows0(r: bv8): (row: seq<bv32>)
    requires 0 <= r < 4
    ensures |row| == 8
  {
    match r
    case 0 => [0x00000000, 0x77073096, 0xee0e612c, 0x990951ba, 0x076dc419, 0x706af48f, 0xe963a535, 0x9e6495a3]
    case 1 => [0x0edb8832, 0x79dcb8a4, 0xe0d5e91e, 0x97d2d988, 0x09b64c2b, 0x7eb17cbd, 0xe7b82d07, 0x90bf1d91]
    case 2 => [0x1db71064, 0x6ab020f2, 0xf3b97148, 0x84be41de, 0x1adad47d, 0x6ddde4eb, 0xf4d4b551, 0x83d385c7]
    case 3 => [0x136c9856, 0x646ba8c0, 0xfd62f97a, 0x8a65c9ec, 0x14015c4f, 0x63066cd9, 0xfa0f3d63, 0x8d080df5]
  }

  function CrcRows1(r: bv8): (row: seq<bv32>)
    requires 4 <= r < 8
    ensures |row| == 8
  {
    match r
    case 4 => [0x3b6e20c8, 0x4c69105e, 0xd56041e4, 0xa2677172, 0x3c03e4d1, 0x4b04d447, 0xd20d85fd, 0xa50ab56b]
    case 5 => [0x35b5a8fa, 0x42b2986c, 0xdbbbc9d6, 0xacbcf940, 0x32d86ce3, 0x45df5c75, 0xdcd60dcf, 0xabd13d59]
    case 6 => [0x26d930ac, 0x51de003a, 0xc8d75180, 0xbfd06116, 0x21b4f4b5, 0x56b3c423, 0xcfba9599, 0xb8bda50f]
    case 7 => [0x2802b89e, 0x5f058808, 0xc60cd9b2, 0xb10be924, 0x2f6f7c87, 0x58684c11, 0xc1611dab, 0xb6662d3d]
  }

  function CrcRows2(r: bv8): (row: seq<bv32>)
    requires 8 <= r < 12
    ensures |row| == 8
  {
    match r
    case 8 => [0x76dc4190, 0x01db7106, 0x98d220bc, 0xefd5102a, 0x71b18589, 0x06b6b51f, 0x9fbfe4a5, 0xe8b8d433]
    case 9 => [0x7807c9a2, 0x0f00f934, 0x9609a88e, 0xe10e9818, 0x7f6a0dbb, 0x086d3d2d, 0x91646c97, 0xe6635c01]
    case 10 => [0x6b6b51f4, 0x1c6c6162, 0x856530d8, 0xf262004e, 0x6c0695ed, 0x1b01a57b, 0x8208f4c1, 0xf50fc457]
    case 11 => [0x65b0d9c6, 0x12b7e950, 0x8bbeb8ea, 0xfcb9887c, 0x62dd1ddf, 0x15da2d49, 0x8cd37cf3, 0xfbd44c65]
  }

  function CrcRows3(r: bv8): (row: seq<bv32>)
    requires 12 <= r < 16
    ensures |row| == 8
  {
    match r
    case 12 => [0x4db26158, 0x3ab551ce, 0xa3bc0074, 0xd4bb30e2, 0x4adfa541, 0x3dd895d7, 0xa4d1c46d, 0xd3d6f4fb]
    case 13 => [0x4369e96a, 0x346ed9fc, 0xad678846, 0xda60b8d0, 0x44042d73, 0x33031de5, 0xaa0a4c5f, 0xdd0d7cc9]
    case 14 => [0x5005713c, 0x270241aa, 0xbe0b1010, 0xc90c2086, 0x5768b525, 0x206f85b3, 0xb966d409, 0xce61e49f]
    case 15 => [0x5edef90e, 0x29d9c998, 0xb0d09822, 0xc7d7a8b4, 0x59b33d17, 0x2eb40d81, 0xb7bd5c3b, 0xc0ba6cad]
  }

  function CrcRows4(r: bv8): (row: seq<bv32>)
    requires 16 <= r < 20
    ensures |row| == 8
  {
    match r
    case 16 => [0xedb88320, 0x9abfb3b6, 0x03b6e20c, 0x74b1d29a, 0xead54739, 0x9dd277af, 0x04db2615, 0x73dc1683]
    case 17 => [0xe3630b12, 0x94643b84, 0x0d6d6a3e, 0x7a6a5aa8, 0xe40ecf0b, 0x9309ff9d, 0x0a00ae27, 0x7d079eb1]
    case 18 => [0xf00f9344, 0x8708a3d2, 0x1e01f268, 0x6906c2fe, 0xf762575d, 0x806567cb, 0x196c3671, 0x6e6b06e7]
    case 19 => [0xfed41b76, 0x89d32be0, 0x10da7a5a, 0x67dd4acc, 0xf9b9df6f, 0x8ebeeff9, 0x17b7be43, 0x60b08ed5]
  }

  function CrcRows5(r: bv8): (row: seq<bv32>)
    requires 20 <= r < 24
    ensures |row| == 8
  {
    match r
    case 20 => [0xd6d6a3e8, 0xa1d1937e, 0x38d8c2c4, 0x4fdff252, 0xd1bb67f1, 0xa6bc5767, 0x3fb506dd, 0x48b2364b]
    case 21 => [0xd80d2bda, 0xaf0a1b4c, 0x36034af6, 0x41047a60, 0xdf60efc3, 0xa867df55, 0x316e8eef, 0x4669be79]
    case 22 => [0xcb61b38c, 0xbc66831a, 0x256fd2a0, 0x5268e236, 0xcc0c7795, 0xbb0b4703, 0x220216b9, 0x5505262f]
    case 23 => [0xc5ba3bbe, 0xb2bd0b28, 0x2bb45a92, 0x5cb36a04, 0xc2d7ffa7, 0xb5d0cf31, 0x2cd99e8b, 0x5bdeae1d]
  }

  function CrcRows6(r: bv8): (row: seq<bv32>)
    requires 24 <= r < 28
    ensures |row| == 8
  {
    match r
    case 24 => [0x9b64c2b0, 0xec63f226, 0x756aa39c, 0x026d930a, 0x9c0906a9, 0xeb0e363f, 0x72076785, 0x05005713]
    case 25 => [0x95bf4a82, 0xe2b87a14, 0x7bb12bae, 0x0cb61b38, 0x92d28e9b, 0xe5d5be0d, 0x7cdcefb7, 0x0bdbdf21]
    case 26 => [0x86d3d2d4, 0xf1d4e242, 0x68ddb3f8, 0x1fda836e, 0x81be16cd, 0xf6b9265b, 0x6fb077e1, 0x18b74777]
    case 27 => [0x88085ae6, 0xff0f6a70, 0x66063bca, 0x11010b5c, 0x8f659eff, 0xf862ae69, 0x616bffd3, 0x166ccf45]
  }

  function CrcRows7(r: bv8): (row: seq<bv32>)
    requires 28 <= r < 32
    ensures |row| == 8
  {
    match r
    case 28 => [0xa00ae278, 0xd70dd2ee, 0x4e048354, 0x3903b3c2, 0xa7672661, 0xd06016f7, 0x4969474d, 0x3e6e77db]
    case 29 => [0xaed16a4a, 0xd9d65adc, 0x40df0b66, 0x37d83bf0, 0xa9bcae53, 0xdebb9ec5, 0x47b2cf7f, 0x30b5ffe9]
    case 30 => [0xbdbdf21c, 0xcabac28a, 0x53b39330, 0x24b4a3a6, 0xbad03605, 0xcdd70693, 0x54de5729, 0x23d967bf]
    case 31 => [0xb3667a2e, 0xc4614ab8, 0x5d681b02, 0x2a6f2b94, 0xb40bbe37, 0xc30c8ea1, 0x5a05df1b, 0x2d02ef8d]
  }

  function CrcRow(r: bv8): (row: seq<bv32>)
    requires r < 32
    ensures |row| == 8
  {
    if r < 16 then
      if r < 8 then (if r < 4 then CrcRows0(r) else CrcRows1(r)) else (if r < 12 then CrcRows2(r) else CrcRows3(r))
    else
      if r < 24 then (if r < 20 then CrcRows4(r) else CrcRows5(r)) else (if r < 28 then CrcRows6(r) else CrcRows7(r))
  }

  function CrcTable(i: octet): bv32 {
    RowLimit(i);
    CrcRow(i >> 3)[ColumnOf(i)]
  }

  function ColumnOf(i: octet): (j: nat)
    ensures j < 8
  {
    var j := i & 7;
    if j == 0 then 0 else if j == 1 then 1 else if j == 2 then 2 else if j == 3 then 3
    else if j == 4 then 4 else if j == 5 then 5 else if j == 6 then 6 else 7
  }

  lemma RowLimit(i: octet)
    ensures i >> 3 < 32
  {
  }

  /** The checksum of a buffer, by table. */
  method CryptoCrc32(crc: bv32, buf: seq<octet>) returns (r: bv32)
    ensures r == Crc(crc, buf)
  {
    hide CrcTable, Step8, Xor, Wide, Shift8, LowByte;
    var c := !crc;
    var i := 0;
    while i < |buf|
      invariant 0 <= i <= |buf| && Remainder(c, buf[i..]) == Remainder(!crc, buf)
    {
      TableStep(c, buf[i]);
      assert buf[i..][1..] == buf[i + 1..];
      c := Xor(CrcTable(LowByte(Xor(c, Wide(buf[i])))), Shift8(c));
      i := i + 1;
    }
    assert buf[i..] == [];
    r := !c;
  }

  function LowByte(c: bv32): octet { (c & 0xff) as bv8 }

  // The table holds the remainders of single bytes.

  function Entry(r: bv8, j: bv8): bv32 { Step8(((r << 3) | j) as bv32) }

  function RowOf(r: bv8): seq<bv32> {
    [Entry(r, 0), Entry(r, 1), Entry(r, 2), Entry(r, 3), Entry(r, 4), Entry(r, 5), Entry(r, 6), Entry(r, 7)]
  }

  lemma Rows0Correct(r: bv8)
    requires 0 <= r < 4
    ensures CrcRows0(r) == RowOf(r)
  {
    if r == 0 { } else if r == 1 { } else if r == 2 { } else { }
  }

  lemma Rows1Correct(r: bv8)
    requires 4 <= r < 8
    ensures CrcRows1(r) == RowOf(r)
  {
    if r == 4 { } else if r == 5 { } else if r == 6 { } else { }
  }

  lemma Rows2Correct(r: bv8)
    requires 8 <= r < 12
    ensures CrcRows2(r) == RowOf(r)
  {
    if r == 8 { } else if r == 9 { } else if r == 10 { } else { }
  }

  lemma Rows3Correct(r: bv8)
    requires 12 <= r < 16
    ensures CrcRows3(r) == RowOf(r)
  {
    if r == 12 { } else if r == 13 { } else if r == 14 { } else { }
  }

  lemma Rows4Correct(r: bv8)
    requires 16 <= r < 20
    ensures CrcRows4(r) == RowOf(r)
  {
    if r == 16 { } else if r == 17 { } else if r == 18 { } else { }
  }

  lemma Rows5Correct(r: bv8)
    requires 20 <= r < 24
    ensures CrcRows5(r) == RowOf(r)
  {
    if r == 20 { } else if r == 21 { } else if r == 22 { } else { }
  }

  lemma Rows6Correct(r: bv8)
    requires 24 <= r < 28
    ensures CrcRows6(r) == RowOf(r)
  {
    if r == 24 { } else if r == 25 { } else if r == 26 { } else { }
  }

  lemma Rows7Correct(r: bv8)
    requires 28 <= r < 32
    ensures CrcRows7(r) == RowOf(r)
  {
    if r == 28 { } else if r == 29 { } else if r == 30 { } else { }
  }

  lemma RowCorrect(r: bv8)
    requires r < 32
    ensures CrcRow(r) == RowOf(r)
  {
    hide RowOf, CrcRows0, CrcRows1, CrcRows2, CrcRows3, CrcRows4, CrcRows5, CrcRows6, CrcRows7;
    if r < 16 {
      if r < 8 { if r < 4 { Rows0Correct(r); } else { Rows1Correct(r); } }
      else { if r < 12 { Rows2Correct(r); } else { Rows3Correct(r); } }
    } else {
      if r < 24 { if r < 20 { Rows4Correct(r); } else { Rows5Correct(r); } }
      else { if r < 28 { Rows6Correct(r); } else { Rows7Correct(r); } }
    }
  }

  lemma TableCorrect(i: octet)
    ensures CrcTable(i) == Step8(Wide(i))
  {
    RowLimit(i);
    RowCorrect(i >> 3);
    EntryOf(i);
    hide CrcRow, Step8;
  }

  lemma EntryOf(i: octet)
    ensures i & 7 < 8 && Entry(i >> 3, i & 7) == Step8(Wide(i))
  {
    assert ((i >> 3) << 3) | (i & 7) == i;
    hide Step8;
  }

  lemma StepIs(c: bv32)
    ensures Step(c) == if Odd(c) then Xor(Half(c), POLYNOMIAL) else Half(c)
  {
  }

  // Steps are linear, and bits shifted in from above pass through unchanged.

  lemma HalfXor(x: bv32, y: bv32)
    ensures Half(Xor(x, y)) == Xor(Half(x), Half(y))
  {
  }

  lemma OddXor(x: bv32, y: bv32)
    ensures Odd(Xor(x, y)) == (Odd(x) != Odd(y))
  {
  }

  lemma XorBoth(a: bv32, b: bv32, p: bv32)
    ensures Xor(a, b) == Xor(Xor(a, p), Xor(b, p))
  {
    XorTwice(p, b);
    XorRight(a, p, Xor(b, p));
    hide Xor;
  }

  lemma XorTwice(p: bv32, b: bv32)
    ensures Xor(p, Xor(b, p)) == b
  {
  }

  lemma XorLeft(a: bv32, b: bv32, p: bv32)
    ensures Xor(Xor(a, b), p) == Xor(Xor(a, p), b)
  {
    XorRight(a, b, p);
    XorRight(a, p, b);
    XorSwap(b, p);
    hide Xor;
  }

  lemma XorSwap(a: bv32, b: bv32)
    ensures Xor(a, b) == Xor(b, a)
  {
  }

  lemma XorRight(a: bv32, b: bv32, p: bv32)
    ensures Xor(Xor(a, b), p) == Xor(a, Xor(b, p))
  {
  }

  lemma StepLinear(x: bv32, y: bv32)
    ensures Step(Xor(x, y)) == Xor(Step(x), Step(y))
  {
    StepIs(x);
    StepIs(y);
    StepIs(Xor(x, y));
    HalfXor(x, y);
    OddXor(x, y);
    XorBoth(Half(x), Half(y), POLYNOMIAL);
    XorLeft(Half(x), Half(y), POLYNOMIAL);
    XorRight(Half(x), Half(y), POLYNOMIAL);
    hide Step, Half, Odd, Xor;
  }

  lemma Step8Linear(x: bv32, y: bv32)
    ensures Step8(Xor(x, y)) == Xor(Step8(x), Step8(y))
  {
    hide Step, Xor;
    StepLinear(x, y);
    var x1, y1 := Step(x), Step(y);
    StepLinear(x1, y1);
    var x2, y2 := Step(x1), Step(y1);
    StepLinear(x2, y2);
    var x3, y3 := Step(x2), Step(y2);
    StepLinear(x3, y3);
    var x4, y4 := Step(x3), Step(y3);
    StepLinear(x4, y4);
    var x5, y5 := Step(x4), Step(y4);
    StepLinear(x5, y5);
    var x6, y6 := Step(x5), Step(y5);
    StepLinear(x6, y6);
    StepLinear(Step(x6), Step(y6));
  }

  lemma HighBitsShift(x: bv32)
    requires x & 0xff == 0
    ensures Step8(x) == Shift8(x)
  {
  }

  function High(c: bv32): bv32 { c & 0xffffff00 }

  lemma SplitLow(c: bv32, b: octet)
    ensures Xor(c, Wide(b)) == Xor(Wide(LowByte(Xor(c, Wide(b)))), High(c))
    ensures High(c) & 0xff == 0 && Shift8(High(c)) == Shift8(c)
  {
  }

  /** One table look-up does a byte's worth of division. */
  lemma TableStep(c: bv32, b: octet)
    ensures Xor(CrcTable(LowByte(Xor(c, Wide(b)))), Shift8(c)) == Step8(Xor(c, Wide(b)))
  {
    var low := LowByte(Xor(c, Wide(b)));
    SplitLow(c, b);
    TableCorrect(low);
    Step8Linear(Wide(low), High(c));
    HighBitsShift(High(c));
    hide CrcTable, Step8, LowByte, High, Xor, Wide, Shift8;
  }

  // Continuation.

  lemma {:induction false} RemainderConcat(c: bv32, a: seq<octet>, b: seq<octet>)
    ensures Remainder(c, a + b) == Remainder(Remainder(c, a), b)
    decreases |a|
  {
    hide Step8, Xor, Wide;
    if a == [] {
      assert a + b == b;
    } else {
      assert (a + b)[1..] == a[1..] + b;
      RemainderConcat(Step8(Xor(c, Wide(a[0]))), a[1..], b);
    }
  }

  /** A checksum can be continued: that of a then b is that of their join. */
  lemma CrcContinues(crc: bv32, a: seq<octet>, b: seq<octet>)
    ensures Crc(Crc(crc, a), b) == Crc(crc, a + b)
  {
    hide Remainder, Not;
    RemainderConcat(Not(crc), a, b);
    Inverted(Remainder(Not(crc), a));
  }

  lemma Inverted(c: bv32)
    ensures Not(Not(c)) == c
  {
  }

  // Burst errors.

  lemma StepInjective(x: bv32, y: bv32)
    ensures Step(x) == Step(y) ==> x == y
  {
  }

  lemma Step8Injective(x: bv32, y: bv32)
    requires Step8(x) == Step8(y)
    ensures x == y
  {
    hide Step;
    var x1, y1 := Step(x), Step(y);
    var x2, y2 := Step(x1), Step(y1);
    var x3, y3 := Step(x2), Step(y2);
    var x4, y4 := Step(x3), Step(y3);
    var x5, y5 := Step(x4), Step(y4);
    var x6, y6 := Step(x5), Step(y5);
    var x7, y7 := Step(x6), Step(y6);
    StepInjective(x7, y7);
    StepInjective(x6, y6);
    StepInjective(x5, y5);
    StepInjective(x4, y4);
    StepInjective(x3, y3);
    StepInjective(x2, y2);
    StepInjective(x1, y1);
    StepInjective(x, y);
  }

  lemma XorInjective(x: bv32, y: bv32, b: bv32)
    requires Xor(x, b) == Xor(y, b)
    ensures x == y
  {
  }

  /** The same bytes keep different registers different. */
  lemma {:induction false} RemainderInjective(x: bv32, y: bv32, s: seq<octet>)
    requires Remainder(x, s) == Remainder(y, s)
    ensures x == y
    decreases |s|
  {
    hide Step8, Xor, Wide;
    if s != [] {
      var b := Wide(s[0]);
      RemainderInjective(Step8(Xor(x, b)), Step8(Xor(y, b)), s[1..]);
      Step8Injective(Xor(x, b), Xor(y, b));
      XorInjective(x, y, b);
    }
  }

  /** Four bytes as a little-endian word. */
  function Word(s: seq<octet>): bv32
    requires |s| == 4
  {
    Xor(Xor(Xor(Wide(s[0]), Up8(Wide(s[1]))), Up16(Wide(s[2]))), Up24(Wide(s[3])))
  }

  function Up8(x: bv32): bv32 { x << 8 }
  function Up16(x: bv32): bv32 { x << 16 }
  function Up24(x: bv32): bv32 { x << 24 }

  lemma UpShift(b: octet)
    ensures Step8(Up8(Wide(b))) == Wide(b)
    ensures Step8(Up16(Wide(b))) == Up8(Wide(b))
    ensures Step8(Up24(Wide(b))) == Up16(Wide(b))
  {
    UpClean(b);
    HighBitsShift(Up8(Wide(b)));
    HighBitsShift(Up16(Wide(b)));
    HighBitsShift(Up24(Wide(b)));
    hide Step8, Up8, Up16, Up24, Wide, Shift8;
  }

  lemma UpClean(b: octet)
    ensures Up8(Wide(b)) & 0xff == 0 && Shift8(Up8(Wide(b))) == Wide(b)
    ensures Up16(Wide(b)) & 0xff == 0 && Shift8(Up16(Wide(b))) == Up8(Wide(b))
    ensures Up24(Wide(b)) & 0xff == 0 && Shift8(Up24(Wide(b))) == Up16(Wide(b))
  {
  }

  /** Four bytes of division act on the register xor their word. */
  lemma WordRemainder(c: bv32, s: seq<octet>)
    requires |s| == 4
    ensures Remainder(c, s) == Step8(Step8(Step8(Step8(Xor(c, Word(s))))))
  {
    var b0, b1, b2, b3 := Wide(s[0]), Wide(s[1]), Wide(s[2]), Wide(s[3]);
    UpShift(s[1]);
    UpShift(s[2]);
    UpShift(s[3]);
    Unroll4(c, s);
    hide Remainder, Step8, Xor, Up8, Up16, Up24, Wide;
    XorRight(c, Xor(Xor(b0, Up8(b1)), Up16(b2)), Up24(b3));
    XorRight(c, Xor(b0, Up8(b1)), Up16(b2));
    XorRight(c, b0, Up8(b1));
    // The register after one byte, with the bytes still to come above it.
    var r := Xor(c, b0);
    Step8Linear(Xor(Xor(r, Up8(b1)), Up16(b2)), Up24(b3));
    Step8Linear(Xor(r, Up8(b1)), Up16(b2));
    Step8Linear(r, Up8(b1));
    var r1 := Xor(Step8(r), b1);
    Step8Linear(Xor(r1, Up8(b2)), Up16(b3));
    Step8Linear(r1, Up8(b2));
    var r2 := Xor(Step8(r1), b2);
    Step8Linear(r2, Up8(b3));
  }

  lemma Unroll4(c: bv32, s: seq<octet>)
    requires |s| == 4
    ensures Remainder(c, s)
        == Step8(Xor(Step8(Xor(Step8(Xor(Step8(Xor(c, Wide(s[0]))), Wide(s[1]))), Wide(s[2]))), Wide(s[3])))
  {
    var c1 := Step8(Xor(c, Wide(s[0])));
    var c2 := Step8(Xor(c1, Wide(s[1])));
    var c3 := Step8(Xor(c2, Wide(s[2])));
    hide Remainder, Step8, Xor, Wide;
    UnrollOne(c, s);
    UnrollOne(c1, s[1..]);
    UnrollOne(c2, s[1..][1..]);
    UnrollOne(c3, s[1..][1..][1..]);
  }

  lemma UnrollOne(c: bv32, s: seq<octet>)
    requires s != []
    ensures Remainder(c, s) == Remainder(Step8(Xor(c, Wide(s[0]))), s[1..])
    ensures |s| == 1 ==> Remainder(c, s) == Step8(Xor(c, Wide(s[0])))
  {
    hide Step8, Xor, Wide;
    if |s| == 1 { assert s[1..] == []; }
  }

  lemma WordInjective(s: seq<octet>, t: seq<octet>)
    requires |s| == |t| == 4 && Word(s) == Word(t)
    ensures s == t
  {
    BytesOfWord(s[0], s[1], s[2], s[3], t[0], t[1], t[2], t[3]);
    assert forall i :: 0 <= i < 4 ==> s[i] == t[i];
  }

  lemma BytesOfWord(a: octet, b: octet, c: octet, d: octet, a': octet, b': octet, c': octet, d': octet)
    requires Xor(Xor(Xor(Wide(a), Up8(Wide(b))), Up16(Wide(c))), Up24(Wide(d)))
          == Xor(Xor(Xor(Wide(a'), Up8(Wide(b'))), Up16(Wide(c'))), Up24(Wide(d')))
    ensures a == a' && b == b' && c == c' && d == d'
  {
  }

  lemma XorInjectiveRight(c: bv32, x: bv32, y: bv32)
    ensures Xor(c, x) == Xor(c, y) ==> x == y
  {
  }

  /** Different words of four bytes leave different remainders. */
  lemma FourBytesInjective(c: bv32, s: seq<octet>, t: seq<octet>)
    requires |s| == |t| == 4 && Remainder(c, s) == Remainder(c, t)
    ensures s == t
  {
    hide Step8, Xor, Remainder, Word;
    WordRemainder(c, s);
    WordRemainder(c, t);
    var x, y := Xor(c, Word(s)), Xor(c, Word(t));
    Step8Injective(Step8(Step8(Step8(x))), Step8(Step8(Step8(y))));
    Step8Injective(Step8(Step8(x)), Step8(Step8(y)));
    Step8Injective(Step8(x), Step8(y));
    Step8Injective(x, y);
    XorInjectiveRight(c, Word(s), Word(t));
    WordInjective(s, t);
  }

  lemma ShortInjective(c: bv32, s: seq<octet>, t: seq<octet>)
    requires |s| == |t| <= 4 && Remainder(c, s) == Remainder(c, t)
    ensures s == t
  {
    hide Remainder;
    var fill := seq(4 - |s|, _ => 0);
    RemainderConcat(c, s, fill);
    RemainderConcat(c, t, fill);
    FourBytesInjective(c, s + fill, t + fill);
    assert s == (s + fill)[..|s|] && t == (t + fill)[..|s|];
  }

  lemma Cut(s: seq<octet>, from: nat, to: nat)
    ensures from <= to <= |s| ==> s == s[..from] + (s[from..to] + s[to..])
  {
  }

  /** Parts between equal ends that leave equal remainders are equal. */
  lemma MiddleInjective(c: bv32, p: seq<octet>, m: seq<octet>, m': seq<octet>, e: seq<octet>)
    requires |m| == |m'| <= 4 && Remainder(c, p + (m + e)) == Remainder(c, p + (m' + e))
    ensures m == m'
  {
    hide Remainder;
    RemainderConcat(c, p, m + e);
    RemainderConcat(c, p, m' + e);
    var d := Remainder(c, p);
    RemainderConcat(d, m, e);
    RemainderConcat(d, m', e);
    RemainderInjective(Remainder(d, m), Remainder(d, m'), e);
    ShortInjective(d, m, m');
  }

  /** Two buffers of the same length that differ, but only inside four
      consecutive bytes, never have the same checksum. */
  lemma BurstDetected(crc: bv32, s: seq<octet>, t: seq<octet>, k: nat)
    requires |s| == |t| && s != t
    requires forall i :: 0 <= i < |s| && !(k <= i < k + 4) ==> s[i] == t[i]
    ensures Crc(crc, s) != Crc(crc, t)
  {
    hide Remainder, Not;
    var from := if k < |s| then k else |s|;
    var to := if k + 4 < |s| then k + 4 else |s|;
    Cut(s, from, to);
    Cut(t, from, to);
    assert t[..from] == s[..from] && t[to..] == s[to..];
    if Crc(crc, s) == Crc(crc, t) {
      Inverted(Remainder(Not(crc), s));
      Inverted(Remainder(Not(crc), t));
      MiddleInjective(Not(crc), s[..from], s[from..to], t[from..to], s[to..]);
      assert false;
    }
  }
  // Check values, which do not depend on how the register is kept.

  lemma EmptyCrc(crc: bv32)
    ensures Crc(crc, []) == crc
  {
    Inverted(crc);
  }

  /** The four bytes of a checksum, lowest first. */
  function LowBytes(w: bv32): (s: seq<octet>)
    ensures |s| == 4
  {
    [LowByte(w), LowByte(w >> 8), LowByte(w >> 16), LowByte(w >> 24)]
  }

  function Masked(w: bv32): bv32 { w & 0xff }

  lemma WideLow(w: bv32)
    ensures Wide(LowByte(w)) == Masked(w)
  {
  }

  lemma PutTogether(w: bv32)
    ensures Xor(Xor(Xor(Masked(w), Up8(Masked(w >> 8))), Up16(Masked(w >> 16))), Up24(Masked(w >> 24))) == w
  {
  }

  lemma LowBytesWord(w: bv32)
    ensures Word(LowBytes(w)) == w
  {
    hide Wide, LowByte, Masked, Xor, Up8, Up16, Up24;
    WideLow(w);
    WideLow(w >> 8);
    WideLow(w >> 16);
    WideLow(w >> 24);
    PutTogether(w);
  }

  lemma AllOnes(c: bv32)
    ensures Xor(c, Not(c)) == 0xffffffff
  {
  }

  lemma FourSteps()
    ensures Not(Step8(Step8(Step8(Step8(0xffffffff))))) == 0x2144df1c
  {
    assert Step8(0xffffffff) == 0x2dfd1072;
    assert Step8(0x2dfd1072) == 0xbe26ed00;
    assert Step8(0xbe26ed00) == 0x00be26ed;
    assert Step8(0x00be26ed) == 0xdebb20e3;
  }

  /** Whatever the buffer, the checksum of the buffer with its own checksum
      behind it is a constant of the polynomial. */
  lemma Residue(crc: bv32, s: seq<octet>)
    ensures Crc(crc, s + LowBytes(Crc(crc, s))) == 0x2144df1c
  {
    hide Remainder, Step8, Xor, Not, Word, LowBytes;
    var r := Remainder(Not(crc), s);
    RemainderConcat(Not(crc), s, LowBytes(Not(r)));
    WordRemainder(r, LowBytes(Not(r)));
    LowBytesWord(Not(r));
    AllOnes(r);
    FourSteps();
  }

  lemma OneByte(c: bv32, b: octet, next: bv32, s: seq<octet>, rest: seq<octet>)
    requires s == [b] + rest && next == Step8(Xor(c, Wide(b)))
    ensures Remainder(c, s) == Remainder(next, rest)
  {
    hide Step8, Xor, Wide;
    UnrollOne(c, s);
    assert s[1..] == rest;
  }

  lemma FiveDigits(rest: seq<octet>)
    ensures Remainder(0xffffffff, [0x31, 0x32, 0x33, 0x34, 0x35] + rest) == Remainder(0x340ac5e3, rest)
  {
    hide Remainder;
    OneByte(0xffffffff, 0x31, 0x7c231048, [0x31, 0x32, 0x33, 0x34, 0x35] + rest, [0x32, 0x33, 0x34, 0x35] + rest);
    OneByte(0x7c231048, 0x32, 0xb0acbb32, [0x32, 0x33, 0x34, 0x35] + rest, [0x33, 0x34, 0x35] + rest);
    OneByte(0xb0acbb32, 0x33, 0x77b79c2d, [0x33, 0x34, 0x35] + rest, [0x34, 0x35] + rest);
    OneByte(0x77b79c2d, 0x34, 0x641c1f5c, [0x34, 0x35] + rest, [0x35] + rest);
    OneByte(0x641c1f5c, 0x35, 0x340ac5e3, [0x35] + rest, rest);
  }

  lemma FourDigits()
    ensures Remainder(0x340ac5e3, [0x36, 0x37, 0x38, 0x39]) == 0x340bc6d9
  {
    OneByte(0x340ac5e3, 0x36, 0xf68d2c9e, [0x36, 0x37, 0x38, 0x39], [0x37, 0x38, 0x39]);
    OneByte(0xf68d2c9e, 0x37, 0xaffc9660, [0x37, 0x38, 0x39], [0x38, 0x39]);
    OneByte(0xaffc9660, 0x38, 0x651f2550, [0x38, 0x39], [0x39]);
    OneByte(0x651f2550, 0x39, 0x340bc6d9, [0x39], []);
  }

  /** The check value of the catalogues: the checksum of "123456789". */
  lemma CheckValue()
    ensures Crc(0, [0x31, 0x32, 0x33, 0x34, 0x35, 0x36, 0x37, 0x38, 0x39]) == 0xcbf43926
  {
    hide Remainder;
    var five: seq<octet>, four: seq<octet> := [0x31, 0x32, 0x33, 0x34, 0x35], [0x36, 0x37, 0x38, 0x39];
    var nine: seq<octet> := [0x31, 0x32, 0x33, 0x34, 0x35, 0x36, 0x37, 0x38, 0x39];
    assert Not(0) == 0xffffffff && Not(0x340bc6d9) == 0xcbf43926;
    FiveDigits(four);
    FourDigits();
    assert nine == five + four;
    assert Remainder(0xffffffff, nine) == 0x340bc6d9;
    assert Crc(0, nine) == Not(Remainder(Not(0), nine));
  }
}
