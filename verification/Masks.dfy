/** The bit tests, masks and shifts of the listpack code, as the integer arithmetic the model uses. */
module Masks {
  import opened Bytes
  import opened ListpackCodec

  /** The tag tests of decode_entry, in the order they are made. */
  lemma TagTests(b: bv8)
    ensures b & 0x80 == 0 <==> (b as int) < 0x80
    ensures b & 0xC0 == 0x80 <==> 0x80 <= b as int < 0xC0
    ensures b & 0xE0 == 0xC0 <==> 0xC0 <= b as int < 0xE0
    ensures b & 0xF0 == 0xE0 <==> 0xE0 <= b as int < 0xF0
  {
  }

  /** The payload bits left under each tag. */
  lemma TagPayloads(b: bv8)
    ensures b < 0x80 ==> (b & 0x7F) as int == b as int
    ensures 0x80 <= b < 0xC0 ==> (b & 0x3F) as int == b as int - 0x80
    ensures 0xC0 <= b < 0xE0 ==> (b & 0x1F) as int == b as int - 0xC0
    ensures 0xE0 <= b < 0xF0 ==> (b & 0x0F) as int == b as int - 0xE0
  {
  }

  /** Setting a tag on a payload that leaves its bits free is adding it. */
  lemma TagSetting(b: bv8)
    ensures b < 64 ==> (0x80 | b) as int == 0x80 + b as int
    ensures b < 16 ==> (0xE0 | b) as int == 0xE0 + b as int
    ensures b < 32 ==> (b | 0xC0) as int == 0xC0 + b as int
    ensures b < 128 ==> (b | 128) as int == 128 + b as int
  {
  }

  /** The low byte and the higher bytes of a length or a 13-bit number. */
  lemma Bytes16(u: bv16)
    ensures (u & 0xFF) as int == u as int % 256
    ensures (u >> 8) as int == u as int / 256
  {
  }

  /** Two bytes joined by shift and or. */
  lemma Join(hi: bv16, lo: bv16)
    requires hi < 32 && lo < 256
    ensures ((hi << 8) | lo) as int == 256 * hi as int + lo as int
  {
  }

  /** Masking the low half of a byte below 16 changes nothing. */
  lemma LowNibble(b: bv8)
    requires b < 16
    ensures b & 0x0F == b
  {
  }

  /** Three bytes joined by shifts and ors, least significant first. */
  lemma Join24(b0: bv32, b1: bv32, b2: bv32)
    requires b0 < 256 && b1 < 256 && b2 < 256
    ensures b0 | (b1 << 8) | (b2 << 16) == b0 + 256 * b1 + 65536 * b2 < 0x100_0000
  {
  }

  /** An arithmetic shift to the right of a 32-bit number in two's complement: the sign fills the top. */
  function ShiftSigned(u: bv32, k: bv6): bv32
    requires k < 32
  {
    if u & 0x8000_0000 == 0 then u >> k else (u >> k) | !(0xFFFF_FFFF >> k)
  }

  /** The three masked bytes of a signed 32-bit number are the low bytes of its two's complement. */
  lemma Split24(u: bv32)
    ensures u & 0xFF == u % 256
    ensures ShiftSigned(u, 8) & 0xFF == u / 256 % 256
    ensures ShiftSigned(u, 16) & 0xFF == u / 65536 % 256
  {
  }

  lemma LeBytes3(w: nat)
    ensures LeBytes(3, w) == [w % 256, w / 256 % 256, w / 65536 % 256]
  {
    assert LeBytes(3, w) == [w % 256] + LeBytes(2, w / 256);
    assert LeBytes(2, w / 256) == [w / 256 % 256] + LeBytes(1, w / 256 / 256);
    assert LeBytes(1, w / 256 / 256) == [w / 256 / 256 % 256] + LeBytes(0, w / 256 / 256 / 256);
    assert w / 256 / 256 == w / 65536;
  }

  lemma Quotient(u: nat, m: nat, q: nat, r: nat)
    requires m == 256 || m == 65536
    requires u == m * q + r && r < m
    ensures u / m == q && u % m == r
  {
    if m == 256 {
      assert u == 256 * q + r;
    } else {
      assert u == 65536 * q + r;
    }
  }

  /** For a number of 24 bits these are the bytes of its two's complement with 24 bits. */
  lemma Low24(v: int)
    requires -0x80_0000 <= v < 0x80_0000
    ensures var u := ToUnsigned(v, 0x1_0000_0000);
            LeBytes(3, ToUnsigned(v, 0x100_0000)) == [u % 256, u / 256 % 256, u / 65536 % 256]
  {
    var w := ToUnsigned(v, 0x100_0000);
    assert LeBytes(3, w) == [w % 256, w / 256 % 256, w / 65536 % 256] by { LeBytes3(w); }
    hide LeBytes;
    if v < 0 {
      var u := ToUnsigned(v, 0x1_0000_0000);
      Quotient(u, 65536, w / 65536 + 0xFF00, w % 65536);
      Quotient(u, 256, w / 256 + 0xFF_0000, w % 256);
      Quotient(u / 256, 256, w / 256 / 256 + 0xFF00, w / 256 % 256);
      Quotient(w / 65536 + 0xFF00, 256, w / 65536 / 256 + 0xFF, w / 65536 % 256);
    }
  }

  /** The sign bit of a 13-bit number; filling the bits above it is subtracting 2^13 modulo 2^16. */
  lemma Sign13(u: bv16)
    requires u < 0x2000
    ensures u & 0x1000 != 0 <==> u as int >= 0x1000
    ensures u >= 0x1000 ==> (u | 0xE000) as int - 0x1_0000 == u as int - 0x2000
  {
  }

  /** The sign bit of a 24-bit number; filling the byte above it is subtracting 2^24 modulo 2^32. */
  lemma Sign24(u: bv32)
    requires u < 0x100_0000
    ensures u & 0x80_0000 != 0 <==> u as int >= 0x80_0000
    ensures u >= 0x80_0000 ==> (u | 0xFF00_0000) as int - 0x1_0000_0000 == u as int - 0x100_0000
  {
  }

  /** The seven-bit groups of a back-length. */
  lemma Groups(l: bv64)
    ensures l & 127 == l % 128
    ensures l >> 7 == l / 128
    ensures l >> 14 == l / 16384
    ensures l >> 21 == l / 2097152
    ensures l >> 28 == l / 268435456
  {
  }
}
