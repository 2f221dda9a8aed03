/** Bytes and machine words: the little-endian memory image of a word and byte reversal. */
module Bytes {
  type byte = bv8

  /** The bytes of a 32-bit word in memory, on a little-endian host. */
  function LittleEndian32(v: bv32): (b: seq<byte>)
    ensures |b| == 4
  {
    [(v & 0xFF) as bv8, ((v >> 8) & 0xFF) as bv8, ((v >> 16) & 0xFF) as bv8, ((v >> 24) & 0xFF) as bv8]
  }

  function LittleEndian16(v: bv16): (b: seq<byte>)
    ensures |b| == 2
  {
    [(v & 0xFF) as bv8, ((v >> 8) & 0xFF) as bv8]
  }

  function LittleEndian64(v: bv64): (b: seq<byte>)
    ensures |b| == 8
  {
    [(v & 0xFF) as bv8, ((v >> 8) & 0xFF) as bv8, ((v >> 16) & 0xFF) as bv8, ((v >> 24) & 0xFF) as bv8,
     ((v >> 32) & 0xFF) as bv8, ((v >> 40) & 0xFF) as bv8, ((v >> 48) & 0xFF) as bv8, ((v >> 56) & 0xFF) as bv8]
  }

  function Join32(b0: byte, b1: byte, b2: byte, b3: byte): bv32 {
    (b0 as bv32) | ((b1 as bv32) << 8) | ((b2 as bv32) << 16) | ((b3 as bv32) << 24)
  }

  /** A binary32 float, by its four bytes in memory. */
  datatype Float32 = Float32(b0: byte, b1: byte, b2: byte, b3: byte)

  function FloatImage(f: Float32): (image: seq<byte>)
    ensures |image| == 4
  {
    [f.b0, f.b1, f.b2, f.b3]
  }

  function Reversed(f: Float32): Float32 {
    Float32(f.b3, f.b2, f.b1, f.b0)
  }

  function ByteSwap(v: bv16): bv16 {
    (v >> 8) | (v << 8)
  }

  function Low16(v: bv32): bv16 {
    (v & 0xFFFF) as bv16
  }

  function Low8(v: bv32): bv8 {
    (v & 0xFF) as bv8
  }

  /** Sign extension to 32 bits: the sign bit is repeated. */
  function SignExtend16(w: bv16): bv32 {
    if w & 0x8000 == 0 then w as bv32 else (w as bv32) | 0xFFFF0000
  }

  function SignExtend8(b: bv8): bv32 {
    if b & 0x80 == 0 then b as bv32 else (b as bv32) | 0xFFFFFF00
  }

  /** Two's complement: what a 32-bit word means as `int`. With the sign bit set, the inverted word
      is counted down from -1. */
  function Signed(v: bv32): int {
    if v & 0x80000000 == 0 then v as int else -((!v) as int) - 1
  }

  // ----- bytes as the digits of a number

  /** A little-endian image is the number in base 256, lowest digit first. */
  lemma LittleEndian16Value(v: bv16)
    ensures var b := LittleEndian16(v); v == (b[0] as bv16) + 0x100 * (b[1] as bv16)
  {
  }

  lemma LittleEndian32Value(v: bv32)
    ensures var b := LittleEndian32(v);
      v == (b[0] as bv32) + 0x100 * (b[1] as bv32) + 0x1_0000 * (b[2] as bv32) + 0x100_0000 * (b[3] as bv32)
  {
  }

  lemma LittleEndian64Value(v: bv64)
    ensures var b := LittleEndian64(v);
      v == (b[0] as bv64) + 0x100 * (b[1] as bv64) + 0x1_0000 * (b[2] as bv64) + 0x100_0000 * (b[3] as bv64)
         + 0x1_0000_0000 * (b[4] as bv64) + 0x100_0000_0000 * (b[5] as bv64)
         + 0x1_0000_0000_0000 * (b[6] as bv64) + 0x100_0000_0000_0000 * (b[7] as bv64)
  {
  }

  lemma Join32Value(b0: byte, b1: byte, b2: byte, b3: byte)
    ensures Join32(b0, b1, b2, b3) ==
      (b0 as bv32) + 0x100 * (b1 as bv32) + 0x1_0000 * (b2 as bv32) + 0x100_0000 * (b3 as bv32)
  {
  }

  lemma JoinOfImage(v: bv32)
    ensures var b := LittleEndian32(v); Join32(b[0], b[1], b[2], b[3]) == v
  {
  }

  /** Cutting off is reduction modulo a power of two, sign extension subtracts that power from words
      with a sign. */
  lemma LowBitsValue(v: bv32)
    ensures Low8(v) as bv32 == v % 0x100 && Low16(v) as bv32 == v % 0x1_0000
  {
  }

  lemma SignExtendValue(w: bv16, b: bv8)
    ensures SignExtend16(w) == if w >= 0x8000 then (w as bv32) - 0x1_0000 else w as bv32
    ensures SignExtend8(b) == if b >= 0x80 then (b as bv32) - 0x100 else b as bv32
  {
  }

  // ----- what survives narrowing

  lemma LowWordBits(v: bv32)
    ensures v & 0xFFFF8000 == 0 ==> Low16(v) & 0x8000 == 0 && Low16(v) as bv32 == v
    ensures v & 0xFFFF8000 == 0xFFFF8000 ==> Low16(v) & 0x8000 != 0 && (Low16(v) as bv32) | 0xFFFF0000 == v
  {
  }

  lemma ExtendedBits(w: bv16)
    ensures SignExtend16(w) & 0xFFFF8000 == 0 || SignExtend16(w) & 0xFFFF8000 == 0xFFFF8000
  {
  }

  /** As a signed number, between -2^15 and 2^15 - 1. */
  predicate InInt16Range(v: bv32) {
    -0x8000 <= Signed(v) < 0x8000
  }

  lemma SmallWord(v: bv32)
    requires v & 0xFFFF8000 == 0
    ensures v as int < 0x8000
  {
  }

  lemma LargeWord(v: bv32)
    requires v & 0xFFFF8000 != 0
    ensures v as int >= 0x8000
  {
  }

  lemma InRangeFromBits(v: bv32)
    requires v & 0xFFFF8000 == 0 || v & 0xFFFF8000 == 0xFFFF8000
    ensures InInt16Range(v)
  {
    if v & 0xFFFF8000 == 0 {
      SmallWord(v);
    } else {
      SmallWord(!v);
    }
  }

  lemma OutOfRangeFromBits(v: bv32)
    requires v & 0xFFFF8000 != 0 && v & 0xFFFF8000 != 0xFFFF8000
    ensures !InInt16Range(v)
  {
    if v & 0x80000000 == 0 {
      LargeWord(v);
    } else {
      LargeWord(!v);
    }
  }

  /** In bits: the upper 17 agree. */
  lemma Int16RangeBits(v: bv32)
    ensures InInt16Range(v) <==> v & 0xFFFF8000 == 0 || v & 0xFFFF8000 == 0xFFFF8000
  {
    if v & 0xFFFF8000 == 0 || v & 0xFFFF8000 == 0xFFFF8000 {
      InRangeFromBits(v);
    } else {
      OutOfRangeFromBits(v);
    }
  }

  /** A 32-bit value comes back from 16 bits, sign included, exactly when it is in the range of int16. */
  lemma SignSurvives16(v: bv32)
    ensures SignExtend16(Low16(v)) == v <==> InInt16Range(v)
  {
    Int16RangeBits(v);
    LowWordBits(v);
    if v & 0xFFFF8000 == 0 {
      assert SignExtend16(Low16(v)) == v;
    } else if v & 0xFFFF8000 == 0xFFFF8000 {
      assert SignExtend16(Low16(v)) == v;
    } else {
      ExtendedBits(Low16(v));
    }
  }
  /** The same for 8 bits. */
  predicate InInt8Range(v: bv32) {
    -0x80 <= Signed(v) < 0x80
  }

  lemma SmallByte(v: bv32)
    requires v & 0xFFFFFF80 == 0
    ensures v as int < 0x80
  {
  }

  lemma LargeByte(v: bv32)
    requires v & 0xFFFFFF80 != 0
    ensures v as int >= 0x80
  {
  }

  lemma InByteFromBits(v: bv32)
    requires v & 0xFFFFFF80 == 0 || v & 0xFFFFFF80 == 0xFFFFFF80
    ensures InInt8Range(v)
  {
    if v & 0xFFFFFF80 == 0 {
      SmallByte(v);
    } else {
      SmallByte(!v);
    }
  }

  lemma OutOfByteFromBits(v: bv32)
    requires v & 0xFFFFFF80 != 0 && v & 0xFFFFFF80 != 0xFFFFFF80
    ensures !InInt8Range(v)
  {
    if v & 0x80000000 == 0 {
      LargeByte(v);
    } else {
      LargeByte(!v);
    }
  }

  lemma ExtendedByteBits(v: bv32)
    ensures SignExtend8(Low8(v)) == v <==> v & 0xFFFFFF80 == 0 || v & 0xFFFFFF80 == 0xFFFFFF80
  {
  }

  lemma SignSurvives8(v: bv32)
    ensures SignExtend8(Low8(v)) == v <==> InInt8Range(v)
  {
    ExtendedByteBits(v);
    if v & 0xFFFFFF80 == 0 || v & 0xFFFFFF80 == 0xFFFFFF80 {
      InByteFromBits(v);
    } else {
      OutOfByteFromBits(v);
    }
  }

  /** Only zero means zero. */
  lemma SignedZero(v: bv32)
    ensures Signed(v) == 0 <==> v == 0
  {
  }
}
