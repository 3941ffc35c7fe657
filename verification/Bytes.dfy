// Bytes, strings of 8-bit characters and fixed-width integers in both byte orders,
// joined pieces, and the division and signed readings of C: what the models of all
// components share.

module Bytes {
  type byte = x: int | 0 <= x < 256

  const TWO_31: int := 0x8000_0000
  const TWO_32: int := 0x1_0000_0000

  /** Truncating (C) division by a positive divisor. */
  function CDiv(a: int, b: int): int
    requires b > 0
  {
    if a >= 0 then a / b else -((-a) / b)
  }

  /** The signed reading of an unsigned 32-bit value. */
  function AsInt32(u: int): int
  {
    if u < TWO_31 then u else u - TWO_32
  }

  /** Big-endian 32-bit value of the four bytes of s that start at p. */
  function Be32(s: seq<byte>, p: nat): (u: int)
    requires p + 4 <= |s|
    ensures 0 <= u < TWO_32
  {
    (s[p] as int) * 0x100_0000 + (s[p + 1] as int) * 0x1_0000 + (s[p + 2] as int) * 0x100 + (s[p + 3] as int)
  }

  /** Little-endian 32-bit value of the four bytes of s that start at p. */
  function Le32(s: seq<byte>, p: nat): (u: int)
    requires p + 4 <= |s|
    ensures 0 <= u < TWO_32
  {
    (s[p] as int) + (s[p + 1] as int) * 0x100 + (s[p + 2] as int) * 0x1_0000 + (s[p + 3] as int) * 0x100_0000
  }

  /** The four big-endian bytes of an unsigned 32-bit value. */
  function Be32Bytes(u: int): (b: seq<byte>)
    requires 0 <= u < TWO_32
    ensures |b| == 4 && Be32(b, 0) == u
  {
    var a := u / 0x100;
    var b := a / 0x100;
    [b / 0x100, b % 0x100, a % 0x100, u % 0x100]
  }

  /** The four little-endian bytes of an unsigned 32-bit value. */
  function Le32Bytes(u: int): (b: seq<byte>)
    requires 0 <= u < TWO_32
    ensures |b| == 4 && Le32(b, 0) == u
  {
    var a := u / 0x100;
    var b := a / 0x100;
    [u % 0x100, a % 0x100, b % 0x100, b / 0x100]
  }

  /** Pieces one after the other. */
  function Joined(pieces: seq<seq<byte>>): seq<byte> {
    if pieces == [] then [] else Joined(pieces[..|pieces| - 1]) + pieces[|pieces| - 1]
  }

  /** A string of 8-bit characters. */
  type ascii = s: string | forall i :: 0 <= i < |s| ==> s[i] < 256 as char

  /** Bytes as a string. */
  function FromBytes(b: seq<byte>): (s: ascii)
    ensures |s| == |b|
  {
    seq(|b|, i requires 0 <= i < |b| => b[i] as char)
  }

  lemma Assoc<T>(a: seq<T>, b: seq<T>, c: seq<T>)
    ensures a + b + c == a + (b + c)
  {
  }
}
