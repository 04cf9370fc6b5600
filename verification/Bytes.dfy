/** Fixed-width unsigned integers, byte strings and the two byte orders the sources read. */
module Bytes {

  type u8 = x: int | 0 <= x < 0x100
  type u16 = x: int | 0 <= x < 0x1_0000
  type u24 = x: int | 0 <= x < 0x100_0000
  type u32 = x: int | 0 <= x < 0x1_0000_0000
  type bytes = seq<u8>

  /** Conversion to a 32-bit unsigned integer. */
  function Wrap(x: int): u32 {
    x % 0x1_0000_0000
  }

  function U16BE(d: bytes, i: nat): u16
    requires i + 2 <= |d|
  {
    (d[i] as int) * 0x100 + d[i + 1]
  }

  function U24BE(d: bytes, i: nat): u24
    requires i + 3 <= |d|
  {
    (d[i] as int) * 0x1_0000 + U16BE(d, i + 1)
  }

  function U32BE(d: bytes, i: nat): u32
    requires i + 4 <= |d|
  {
    (U16BE(d, i) as int) * 0x1_0000 + U16BE(d, i + 2)
  }

  function U16LE(d: bytes, i: nat): u16
    requires i + 2 <= |d|
  {
    (d[i + 1] as int) * 0x100 + d[i]
  }

  function U32LE(d: bytes, i: nat): u32
    requires i + 4 <= |d|
  {
    (U16LE(d, i + 2) as int) * 0x1_0000 + U16LE(d, i)
  }

  function PutU16BE(x: u16): (b: bytes)
    ensures |b| == 2 && U16BE(b, 0) == x
  {
    [x / 0x100, x % 0x100]
  }

  function PutU24BE(x: u24): (b: bytes)
    ensures |b| == 3 && U24BE(b, 0) == x
  {
    [x / 0x1_0000] + PutU16BE(x % 0x1_0000)
  }

  function PutU32BE(x: u32): (b: bytes)
    ensures |b| == 4 && U32BE(b, 0) == x
  {
    PutU16BE(x / 0x1_0000) + PutU16BE(x % 0x1_0000)
  }

  function PutU16LE(x: u16): (b: bytes)
    ensures |b| == 2 && U16LE(b, 0) == x
  {
    [x % 0x100, x / 0x100]
  }

  function PutU32LE(x: u32): (b: bytes)
    ensures |b| == 4 && U32LE(b, 0) == x
  {
    PutU16LE(x % 0x1_0000) + PutU16LE(x / 0x1_0000)
  }

  // ---- The numbers that digits stand for -------------------------------------------------------------

  /** Base 256, most significant digit first. */
  function BigEndian(digits: bytes): nat {
    if digits == [] then 0 else BigEndian(digits[..|digits| - 1]) * 256 + digits[|digits| - 1]
  }

  /** Base 256, least significant digit first. */
  function LittleEndian(digits: bytes): nat {
    if digits == [] then 0 else digits[0] + 256 * LittleEndian(digits[1..])
  }

  lemma BigEndianOf2(a: u8, b: u8)
    ensures BigEndian([a, b]) == a * 256 + b
  {
    assert [a, b][..1] == [a] && [a][..0] == [];
    assert BigEndian([a]) == a;
  }

  lemma BigEndianOf4(a: u8, b: u8, c: u8, d: u8)
    ensures BigEndian([a, b, c, d]) == ((a * 256 + b) * 256 + c) * 256 + d
  {
    assert [a, b, c, d][..3] == [a, b, c] && [a, b, c][..2] == [a, b];
    BigEndianOf2(a, b);
  }

  lemma LittleEndianOf4(a: u8, b: u8, c: u8, d: u8)
    ensures LittleEndian([a, b, c, d]) == ((d * 256 + c) * 256 + b) * 256 + a
  {
    assert [a, b, c, d][1..] == [b, c, d] && [b, c, d][1..] == [c, d] && [c, d][1..] == [d] && [d][1..] == [];
    assert LittleEndian([c, d]) == c + 256 * d by { assert LittleEndian([d]) == d; }
  }

  /** The 16-bit and 32-bit loads read the number that the bytes stand for in their order. */
  lemma U16BEIsBigEndian(d: bytes, i: nat)
    requires i + 2 <= |d|
    ensures U16BE(d, i) == BigEndian(d[i..i + 2])
  {
    assert d[i..i + 2] == [d[i], d[i + 1]];
    BigEndianOf2(d[i], d[i + 1]);
  }

  lemma U32BEIsBigEndian(d: bytes, i: nat)
    requires i + 4 <= |d|
    ensures U32BE(d, i) == BigEndian(d[i..i + 4])
  {
    assert d[i..i + 4] == [d[i], d[i + 1], d[i + 2], d[i + 3]];
    BigEndianOf4(d[i], d[i + 1], d[i + 2], d[i + 3]);
  }

  lemma U32LEIsLittleEndian(d: bytes, i: nat)
    requires i + 4 <= |d|
    ensures U32LE(d, i) == LittleEndian(d[i..i + 4])
  {
    assert d[i..i + 4] == [d[i], d[i + 1], d[i + 2], d[i + 3]];
    LittleEndianOf4(d[i], d[i + 1], d[i + 2], d[i + 3]);
  }

  /** Two readings of the same two bytes agree, so a 16-bit field has one encoding. */
  lemma U16Unique(d: bytes, i: nat)
    requires i + 2 <= |d|
    ensures d[i..i + 2] == PutU16BE(U16BE(d, i))
  {
  }

  lemma U24Unique(d: bytes, i: nat)
    requires i + 3 <= |d|
    ensures d[i..i + 3] == PutU24BE(U24BE(d, i))
  {
  }
}
