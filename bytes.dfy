/** Integer widths of the wire and the little-endian codec shared by host and firmware. */
module Bytes {
  import opened Arith

  /** An unsigned 8-bit value (C# byte, C uint8_t). */
  type Byte = x: int | 0 <= x < 0x100
  /** An unsigned 16-bit value (C# ushort, C uint16_t). */
  type UShort = x: int | 0 <= x < 0x1_0000
  /** An unsigned 32-bit value (C# uint, C uint32_t). */
  type UInt = x: int | 0 <= x < 0x1_0000_0000

  /** The unchecked C# cast `(byte)x` of an int: the value modulo 256. */
  function ToByte(x: int): (b: Byte)
    ensures 0 <= x < 0x100 ==> b == x
    ensures (b - x) % 0x100 == 0
  {
    x % 0x100
  }

  /** `n` zero bytes: a freshly allocated array, or a buffer slot's `default(T)`. */
  function Zeros(n: nat): (s: seq<Byte>)
    ensures |s| == n && forall i :: 0 <= i < n ==> s[i] == 0
  {
    seq(n, _ => 0)
  }

  /** `BitConverter.GetBytes(ushort)` on a little-endian host: low byte first. */
  function Word(v: UShort): (bs: seq<Byte>)
    ensures |bs| == 2
    ensures bs[0] as int + 0x100 * (bs[1] as int) == v
  {
    [v % 0x100, v / 0x100]
  }

  /** `BitConverter.GetBytes(uint)` on a little-endian host: least significant byte first. */
  function DWord(v: UInt): (bs: seq<Byte>)
    ensures |bs| == 4
    ensures DWordValue(bs[0], bs[1], bs[2], bs[3]) == v
  {
    var q1 := v / 0x100;
    var q2 := v / 0x1_0000;
    var q3 := v / 0x100_0000;
    assert q2 == q1 / 0x100;
    assert q3 == q2 / 0x100;
    [v % 0x100, q1 % 0x100, q2 % 0x100, q3]
  }

  /** Little-endian value of two bytes: `b0 + (b1 << 8)`. */
  function WordValue(b0: Byte, b1: Byte): (v: UShort)
    ensures v % 0x100 == b0 && v / 0x100 == b1
  {
    b0 + 0x100 * b1
  }

  /** Little-endian value of four bytes: `b0 + (b1 << 8) + (b2 << 16) + (b3 << 24)`. */
  function DWordValue(b0: Byte, b1: Byte, b2: Byte, b3: Byte): (v: UInt)
    ensures v % 0x100 == b0
  {
    ModUnique(b0 + 0x100 * b1 + 0x1_0000 * b2 + 0x100_0000 * b3, 0x100, b1 + 0x100 * b2 + 0x1_0000 * b3, b0);
    b0 + 0x100 * b1 + 0x1_0000 * b2 + 0x100_0000 * b3
  }

  /** Decoding what `Word` encodes gives the value back. */
  lemma WordRoundTrip(v: UShort)
    ensures WordValue(Word(v)[0], Word(v)[1]) == v
  {
  }

  /** Encoding a decoded pair of bytes gives the same bytes back. */
  lemma WordValueRoundTrip(b0: Byte, b1: Byte)
    ensures Word(WordValue(b0, b1)) == [b0, b1]
  {
  }

  /** Decoding what `DWord` encodes gives the value back. */
  lemma DWordRoundTrip(v: UInt)
    ensures var bs := DWord(v); DWordValue(bs[0], bs[1], bs[2], bs[3]) == v
  {
  }

  /** Encoding a decoded quadruple of bytes gives the same bytes back. */
  lemma DWordValueRoundTrip(b0: Byte, b1: Byte, b2: Byte, b3: Byte)
    ensures DWord(DWordValue(b0, b1, b2, b3)) == [b0, b1, b2, b3]
  {
    var v := DWordValue(b0, b1, b2, b3);
    var hi := b1 + 0x100 * b2 + 0x1_0000 * b3;
    var top := b2 + 0x100 * b3;
    ModUnique(v, 0x100, hi, b0);
    ModUnique(hi, 0x100, top, b1);
    ModUnique(v, 0x1_0000, top, b0 + 0x100 * b1);
    ModUnique(top, 0x100, b3, b2);
    ModUnique(v, 0x100_0000, b3, b0 + 0x100 * b1 + 0x1_0000 * b2);
  }
}
