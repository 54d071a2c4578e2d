/**
 * The little-endian reads that `DataView` performs on the LAS buffer
 * (`getUint16`, `getUint32`, `getInt32`, `getFloat64` with `littleEndian = true`),
 * and the matching encoders used to state round trips.
 *
 * A read is a partial function: `DataView` raises a RangeError when
 * `offset + width` passes the end of the buffer, so each read requires
 * that bound and the callers decide what an out-of-range read means.
 * An f64 field is kept as its 64-bit pattern; turning it into a double is
 * floating point and is not part of this model.
 */
module LittleEndian {

  type Byte = b: int | 0 <= b < 0x100

  const TwoTo16: nat := 0x1_0000
  const TwoTo31: nat := 0x8000_0000
  const TwoTo32: nat := 0x1_0000_0000

  predicate InU16(v: int) { 0 <= v < TwoTo16 }
  predicate InU32(v: int) { 0 <= v < TwoTo32 }
  predicate InI32(v: int) { -(TwoTo31 as int) <= v < TwoTo31 }
  predicate InU64(v: int) { 0 <= v < TwoTo32 * TwoTo32 }

  /** `getUint16(off, true)`: low byte first. */
  function U16(buf: seq<Byte>, off: nat): (v: nat)
    requires off + 2 <= |buf|
    ensures InU16(v)
  {
    buf[off] as int + 0x100 * (buf[off + 1] as int)
  }

  /** `getUint32(off, true)`: two little-endian halves, low half first. */
  function U32(buf: seq<Byte>, off: nat): (v: nat)
    requires off + 4 <= |buf|
    ensures InU32(v)
  {
    U16(buf, off) + TwoTo16 * U16(buf, off + 2)
  }

  /** `getInt32(off, true)`: the same four bytes read as two's complement. */
  function I32(buf: seq<Byte>, off: nat): (v: int)
    requires off + 4 <= |buf|
    ensures InI32(v)
    ensures v < 0 <==> buf[off + 3] >= 0x80
  {
    var u := U32(buf, off);
    if u < TwoTo31 then u else u - TwoTo32
  }

  /** The bit pattern `getFloat64(off, true)` interprets as an IEEE 754 double. */
  function F64Bits(buf: seq<Byte>, off: nat): (v: nat)
    requires off + 8 <= |buf|
    ensures InU64(v)
  {
    U32(buf, off) + TwoTo32 * U32(buf, off + 4)
  }

  function Zeros(n: nat): (z: seq<Byte>)
    ensures |z| == n && forall i :: 0 <= i < n ==> z[i] == 0
  {
    seq(n, _ => 0)
  }

  function EncodeU16(v: nat): (bs: seq<Byte>)
    requires InU16(v)
    ensures |bs| == 2
  {
    [v % 0x100, v / 0x100]
  }

  function EncodeU32(v: nat): (bs: seq<Byte>)
    requires InU32(v)
    ensures |bs| == 4
  {
    EncodeU16(v % TwoTo16) + EncodeU16(v / TwoTo16)
  }

  function EncodeI32(v: int): (bs: seq<Byte>)
    requires InI32(v)
    ensures |bs| == 4
  {
    EncodeU32(if v < 0 then v + TwoTo32 else v)
  }

  function EncodeU64(v: nat): (bs: seq<Byte>)
    requires InU64(v)
    ensures |bs| == 8
  {
    EncodeU32(v % TwoTo32) + EncodeU32(v / TwoTo32)
  }

  /** A 16-bit field written little-endian reads back as itself. */
  lemma U16Decodes(buf: seq<Byte>, off: nat, v: nat)
    requires InU16(v) && off + 2 <= |buf| && buf[off..off + 2] == EncodeU16(v)
    ensures U16(buf, off) == v
  {
    assert buf[off] == EncodeU16(v)[0] && buf[off + 1] == EncodeU16(v)[1];
  }

  lemma U32Decodes(buf: seq<Byte>, off: nat, v: nat)
    requires InU32(v) && off + 4 <= |buf| && buf[off..off + 4] == EncodeU32(v)
    ensures U32(buf, off) == v
  {
    assert buf[off..off + 2] == buf[off..off + 4][..2] == EncodeU16(v % TwoTo16);
    assert buf[off + 2..off + 4] == buf[off..off + 4][2..] == EncodeU16(v / TwoTo16);
    U16Decodes(buf, off, v % TwoTo16);
    U16Decodes(buf, off + 2, v / TwoTo16);
  }

  lemma I32Decodes(buf: seq<Byte>, off: nat, v: int)
    requires InI32(v) && off + 4 <= |buf| && buf[off..off + 4] == EncodeI32(v)
    ensures I32(buf, off) == v
  {
    U32Decodes(buf, off, if v < 0 then v + TwoTo32 else v);
  }

  lemma F64BitsDecode(buf: seq<Byte>, off: nat, v: nat)
    requires InU64(v) && off + 8 <= |buf| && buf[off..off + 8] == EncodeU64(v)
    ensures F64Bits(buf, off) == v
  {
    assert buf[off..off + 4] == buf[off..off + 8][..4] == EncodeU32(v % TwoTo32);
    assert buf[off + 4..off + 8] == buf[off..off + 8][4..] == EncodeU32(v / TwoTo32);
    U32Decodes(buf, off, v % TwoTo32);
    U32Decodes(buf, off + 4, v / TwoTo32);
  }

  /** The other direction: a 32-bit read determines its four bytes. */
  lemma U32Encodes(buf: seq<Byte>, off: nat)
    requires off + 4 <= |buf|
    ensures EncodeU32(U32(buf, off)) == buf[off..off + 4]
  {
    var lo, hi := U16(buf, off), U16(buf, off + 2);
    assert U32(buf, off) % TwoTo16 == lo && U32(buf, off) / TwoTo16 == hi;
    assert EncodeU16(lo) == buf[off..off + 2];
    assert EncodeU16(hi) == buf[off + 2..off + 4];
  }
}
