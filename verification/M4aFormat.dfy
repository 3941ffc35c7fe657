// The size check made before an M4A file goes to the player, in 32-bit words: the
// sum that is_support_m4a_format computes from the sizes of the two leading boxes
// is not the sum it means.

module M4aFormat {
  const MAX_M4A_HEADER_SIZE: bv32 := 512 * 1024

  /** The size of the second box, as its four bytes give it. */
  function Word(b0: bv32, b1: bv32, b2: bv32, b3: bv32): bv32 {
    (b0 << 24) | (b1 << 16) | (b2 << 8) | b3
  }

  /** The header size the check computes: the first box's size is added before
      the lower three bytes are put in. */
  function CheckedSize(boxSize: bv32, b0: bv32, b1: bv32, b2: bv32, b3: bv32): bv32 {
    (boxSize + (b0 << 24)) | (b1 << 16) | (b2 << 8) | b3
  }

  predicate Accepted(size: bv32) {
    size <= MAX_M4A_HEADER_SIZE
  }

  /** For sizes below 2^31 the check accepts a header exactly when the bitwise or
      of both sizes is within the limit. */
  lemma CheckIsOr(boxSize: bv32, b0: bv32, b1: bv32, b2: bv32, b3: bv32)
    requires b0 < 0x80 && boxSize < 0x8000_0000
    ensures Accepted(CheckedSize(boxSize, b0, b1, b2, b3)) <==> Accepted(boxSize | Word(b0, b1, b2, b3))
  {
    if b0 == 0 { NoHighByte(boxSize, b1, b2, b3); } else { HighByte(boxSize, b0, b1, b2, b3); }
  }

  lemma NoHighByte(boxSize: bv32, b1: bv32, b2: bv32, b3: bv32)
    ensures CheckedSize(boxSize, 0, b1, b2, b3) == boxSize | Word(0, b1, b2, b3)
  {
  }

  lemma HighByte(boxSize: bv32, b0: bv32, b1: bv32, b2: bv32, b3: bv32)
    requires 0 < b0 < 0x80 && boxSize < 0x8000_0000
    ensures !Accepted(CheckedSize(boxSize, b0, b1, b2, b3)) && !Accepted(boxSize | Word(b0, b1, b2, b3))
  {
  }

  /** So a header that the check refuses is too large. */
  lemma RefusedIsTooLarge(boxSize: bv32, moovSize: bv32)
    requires boxSize < 0x8000_0000 && moovSize < 0x8000_0000 && !Accepted(boxSize | moovSize)
    ensures !Accepted(boxSize + moovSize)
  {
    hide Accepted;
    if !Accepted(boxSize) {
      LargeSum(boxSize, moovSize);
    } else if !Accepted(moovSize) {
      LargeSum(moovSize, boxSize);
    } else {
      SmallSum(boxSize, moovSize);
    }
  }

  lemma LargeSum(x: bv32, y: bv32)
    requires x < 0x8000_0000 && y < 0x8000_0000 && !Accepted(x)
    ensures !Accepted(x + y) && !Accepted(y + x)
  {
  }

  lemma SmallSum(x: bv32, y: bv32)
    requires Accepted(x) && Accepted(y) && !Accepted(x | y)
    ensures !Accepted(x + y)
  {
  }

  /** And one it accepts is small enough when the sizes have no bit in common. */
  lemma DisjointIsExact(boxSize: bv32, moovSize: bv32)
    requires boxSize & moovSize == 0
    ensures boxSize | moovSize == boxSize + moovSize
  {
  }

  /** A header of 524304 bytes is accepted: 24 for the first box and 524280 for
      the second, whose lower bytes have the bits of 24 already. */
  lemma TooLargeAccepted()
    ensures Word(0, 0x07, 0xFF, 0xF8) == 524280
    ensures Accepted(CheckedSize(24, 0, 0x07, 0xFF, 0xF8)) && !Accepted(24 + Word(0, 0x07, 0xFF, 0xF8))
  {
  }
}
