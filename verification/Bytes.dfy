/** Bytes, and big-endian numbers made of them. */
module Bytes {

  type byte = x: int | 0 <= x < 256

  function U16(b: seq<byte>, i: nat): nat
    requires i + 2 <= |b|
  {
    (b[i] as int) * 256 + b[i + 1] as int
  }

  function U32(b: seq<byte>, i: nat): nat
    requires i + 4 <= |b|
  {
    U16(b, i) * 65536 + U16(b, i + 2)
  }

  /** The two bytes of a 16-bit number, most significant first. */
  function Be16(x: nat): (b: seq<byte>)
    requires x < 65536
    ensures |b| == 2 && U16(b, 0) == x
  {
    [x / 256, x % 256]
  }
}
