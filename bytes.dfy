/** Machine words as the C code sees them: bytes, little-endian 16- and
    32-bit words, and the two's-complement view of a `signed short`. */
module Bytes {

  type byte = bv8

  /** An `unsigned int` (a Bluetooth address half). */
  type u32 = x: int | 0 <= x < 0x1_0000_0000

  /** An `unsigned short` (a USB vendor or product id). */
  type u16 = x: int | 0 <= x < 0x1_0000

  /** `n` bytes cleared by `memset(p, 0, n)`. */
  function Zeros(n: nat): (z: seq<byte>)
    ensures |z| == n
    ensures forall i :: 0 <= i < n ==> z[i] == 0
  {
    seq(n, _ => 0)
  }

  /** The 16-bit word stored little-endian in `lo`, `hi`. */
  function U16(lo: byte, hi: byte): (w: bv16)
    ensures (w & 0xFF) as byte == lo && (w >> 8) as byte == hi
  {
    ((hi as bv16) << 8) | (lo as bv16)
  }

  /** The two bytes that store `w` little-endian. */
  function U16Bytes(w: bv16): (b: seq<byte>)
    ensures |b| == 2 && U16(b[0], b[1]) == w
  {
    [(w & 0xFF) as byte, (w >> 8) as byte]
  }

  /** The value of a `signed short` whose bits are `w`. */
  function Signed16(w: bv16): (v: int)
    ensures -0x8000 <= v < 0x8000
    ensures v >= 0 <==> w < 0x8000
    ensures v == (if v < 0 then w as int - 0x1_0000 else w as int)
  {
    if w < 0x8000 then w as int else w as int - 0x1_0000
  }

  /** The 32-bit word stored little-endian in `b0` .. `b3`. */
  function U32(b0: byte, b1: byte, b2: byte, b3: byte): (w: bv32)
    ensures (w & 0xFF) as byte == b0 && ((w >> 8) & 0xFF) as byte == b1
    ensures ((w >> 16) & 0xFF) as byte == b2 && (w >> 24) as byte == b3
  {
    ((b3 as bv32) << 24) | ((b2 as bv32) << 16) | ((b1 as bv32) << 8) | (b0 as bv32)
  }

  /** The four bytes that store `w` little-endian. */
  function U32Bytes(w: bv32): (b: seq<byte>)
    ensures |b| == 4 && U32(b[0], b[1], b[2], b[3]) == w
  {
    [(w & 0xFF) as byte, ((w >> 8) & 0xFF) as byte, ((w >> 16) & 0xFF) as byte, (w >> 24) as byte]
  }
}
