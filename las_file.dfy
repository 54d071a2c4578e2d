/** Concatenations of equal-size chunks, as a file of fixed-size records is. */
module Chunks {

  function Concat<T>(chunks: seq<seq<T>>): seq<T>
  {
    if chunks == [] then [] else chunks[0] + Concat(chunks[1..])
  }

  /** Where chunk `i` starts when every chunk is `size` long, counted chunk by chunk. */
  function Offset(i: nat, size: nat): nat
  {
    if i == 0 then 0 else Offset(i - 1, size) + size
  }

  lemma {:induction false} OffsetIsProduct(i: nat, size: nat)
    ensures Offset(i, size) == i * size
  {
    if i > 0 {
      OffsetIsProduct(i - 1, size);
    }
  }

  /** In a concatenation of chunks of one size, chunk `i` starts at `Offset(i, size)`. */
  lemma {:induction false} ChunkAt<T>(chunks: seq<seq<T>>, size: nat, i: nat)
    requires forall j :: 0 <= j < |chunks| ==> |chunks[j]| == size
    requires i < |chunks|
    ensures Offset(i, size) + size <= |Concat(chunks)|
    ensures Concat(chunks)[Offset(i, size)..Offset(i, size) + size] == chunks[i]
  {
    var first, rest := chunks[0], Concat(chunks[1..]);
    assert Concat(chunks) == first + rest;
    if i == 0 {
      assert (first + rest)[0..size] == first;
    } else {
      var at := Offset(i - 1, size);
      ChunkAt(chunks[1..], size, i - 1);
      SliceOfAppend(first, rest, size + at, size + at + size);
    }
  }

  lemma SliceOfSlice<T>(s: seq<T>, lo: nat, hi: nat, a: nat, b: nat)
    requires lo <= hi <= |s| && a <= b <= hi - lo
    ensures s[lo..hi][a..b] == s[lo + a..lo + b]
  {
    var t := s[lo..hi];
    forall k | 0 <= k < b - a ensures t[a..b][k] == s[lo + a..lo + b][k] {
      assert t[a..b][k] == t[a + k] == s[lo + a + k];
    }
  }

  lemma SliceOfAppend<T>(a: seq<T>, b: seq<T>, lo: nat, hi: nat)
    requires |a| <= lo <= hi <= |a| + |b|
    ensures (a + b)[lo..hi] == b[lo - |a|..hi - |a|]
  {
  }
}

/**
 * Building LAS files from known header fields and point records, to state
 * what the decoder of `LoadModel` recovers from a well-formed file: every
 * coordinate and colour channel of every point, in point order, paired
 * with the header's scale and offset for its axis.
 */
module LasFile {
  import opened Wrappers
  import opened LittleEndian
  import opened Las
  import opened Chunks

  /** A point as stored: raw i32 coordinates and u16 colour channels. */
  datatype PointRecord = PointRecord(x: int, y: int, z: int, red: nat, green: nat, blue: nat)

  predicate ValidRecord(p: PointRecord)
  {
    InI32(p.x) && InI32(p.y) && InI32(p.z) && InU16(p.red) && InU16(p.green) && InU16(p.blue)
  }

  function Coord(p: PointRecord, c: nat): int
    requires c < 3
  {
    if c == 0 then p.x else if c == 1 then p.y else p.z
  }

  function Rgb(p: PointRecord, c: nat): nat
    requires c < 3
  {
    if c == 0 then p.red else if c == 1 then p.green else p.blue
  }

  /** A record of `size` bytes: X, Y, Z, eight bytes the decoder skips, red, green, blue, padding. */
  function RecordBytes(p: PointRecord, size: nat): (bs: seq<Byte>)
    requires ValidRecord(p) && RecordExtent <= size
    ensures |bs| == size
  {
    EncodeI32(p.x) + EncodeI32(p.y) + EncodeI32(p.z) + Zeros(RgbAt - 12)
      + EncodeU16(p.red) + EncodeU16(p.green) + EncodeU16(p.blue) + Zeros(size - RecordExtent)
  }

  /** The records one after another, in point order. */
  function RecordsBytes(ps: seq<PointRecord>, size: nat): seq<Byte>
    requires forall i :: 0 <= i < |ps| ==> ValidRecord(ps[i])
    requires RecordExtent <= size
  {
    Concat(seq(|ps|, i requires 0 <= i < |ps| => RecordBytes(ps[i], size)))
  }

  /** The first 179 header bytes, with every field the decoder reads in its place and zeros elsewhere. */
  function HeaderBytes(h: Header): (bs: seq<Byte>)
    requires WellFormed(h)
    ensures |bs| == HeaderExtent
  {
    Zeros(PointDataOffsetAt) + EncodeU32(h.pointDataOffset) + Zeros(PointRecordLengthAt - 100)
      + EncodeU16(h.pointSize) + EncodeU32(h.pointCount) + Zeros(ScaleAt - 111)
      + EncodeU64(h.scale[0]) + EncodeU64(h.scale[1]) + EncodeU64(h.scale[2])
      + EncodeU64(h.offset[0]) + EncodeU64(h.offset[1]) + EncodeU64(h.offset[2])
  }

  /** The header and records can be laid out as a file: point data after the header, records long enough. */
  predicate Encodable(h: Header, ps: seq<PointRecord>)
  {
    && WellFormed(h)
    && HeaderExtent <= h.pointDataOffset
    && RecordExtent <= h.pointSize
    && |ps| == h.pointCount
    && 3 * |ps| <= MaxArrayLength
    && forall i :: 0 <= i < |ps| ==> ValidRecord(ps[i])
  }

  function FileBytes(h: Header, ps: seq<PointRecord>): (bs: seq<Byte>)
    requires Encodable(h, ps)
  {
    HeaderBytes(h) + Zeros(h.pointDataOffset - HeaderExtent) + RecordsBytes(ps, h.pointSize)
  }

  /** What the points stand for, independently of any bytes. */
  function Expected(h: Header, ps: seq<PointRecord>): Cloud
    requires Encodable(h, ps)
  {
    var n := 3 * |ps|;
    Cloud(
      seq(n, k requires 0 <= k < n => ScaledCoord(Coord(ps[k / 3], k % 3), h.scale[k % 3], h.offset[k % 3])),
      seq(n, k requires 0 <= k < n => Channel(Rgb(ps[k / 3], k % 3))))
  }

  /** Decoding a file built from a header and records gives back every point, in order. */
  lemma RoundTrip(h: Header, ps: seq<PointRecord>)
    requires Encodable(h, ps)
    ensures Decoded(FileBytes(h, ps)) == Some(Expected(h, ps))
  {
    var buf := FileBytes(h, ps);
    FileHeader(h, ps);
    forall i | 0 <= i < h.pointCount
      ensures RecordFits(buf, h, i)
      ensures PointPositions(buf, h, i) == PositionsOf(h, ps[i]) && PointColors(buf, h, i) == ColorsOf(ps[i])
    {
      PointReadsBack(h, ps, i);
    }
    CloudIsExpected(buf, h, ps);
  }

  /** The header of the file reads back as the header it was built from. */
  lemma FileHeader(h: Header, ps: seq<PointRecord>)
    requires Encodable(h, ps)
    ensures HeaderExtent <= |FileBytes(h, ps)| && ReadHeader(FileBytes(h, ps)) == h
  {
    var rest := Zeros(h.pointDataOffset - HeaderExtent) + RecordsBytes(ps, h.pointSize);
    HeaderReadsBack(h, rest);
    assert FileBytes(h, ps) == HeaderBytes(h) + rest;
  }

  /** The three positions a point stands for. */
  function PositionsOf(h: Header, p: PointRecord): seq<ScaledCoord>
    requires WellFormed(h)
  {
    [ScaledCoord(p.x, h.scale[0], h.offset[0]), ScaledCoord(p.y, h.scale[1], h.offset[1]), ScaledCoord(p.z, h.scale[2], h.offset[2])]
  }

  /** The three colour channels a point stands for. */
  function ColorsOf(p: PointRecord): seq<Channel>
  {
    [Channel(p.red), Channel(p.green), Channel(p.blue)]
  }

  /** Whatever the bytes, reading every point as the points stand for decodes to the expected cloud. */
  lemma CloudIsExpected(buf: seq<Byte>, h: Header, ps: seq<PointRecord>)
    requires Encodable(h, ps) && AllRecordsFit(buf, h)
    requires forall i :: 0 <= i < |ps| ==> PointPositions(buf, h, i) == PositionsOf(h, ps[i])
    requires forall i :: 0 <= i < |ps| ==> PointColors(buf, h, i) == ColorsOf(ps[i])
    ensures CloudUpTo(buf, h, h.pointCount) == Expected(h, ps)
  {
    var cloud, expected := CloudUpTo(buf, h, h.pointCount), Expected(h, ps);
    forall k | 0 <= k < 3 * h.pointCount
      ensures cloud.positions[k] == expected.positions[k] && cloud.colors[k] == expected.colors[k]
    {
      var i, c := k / 3, k % 3;
      assert k == 3 * i + c;
      CloudEntries(buf, h, h.pointCount, i, c);
      assert PointPositions(buf, h, i) == PositionsOf(h, ps[i]);
      assert PointColors(buf, h, i) == ColorsOf(ps[i]);
    }
  }

  /** The fields of point `i` read back from its record. */
  lemma PointReadsBack(h: Header, ps: seq<PointRecord>, i: nat)
    requires Encodable(h, ps) && i < |ps|
    ensures RecordFits(FileBytes(h, ps), h, i)
    ensures PointPositions(FileBytes(h, ps), h, i) == PositionsOf(h, ps[i])
    ensures PointColors(FileBytes(h, ps), h, i) == ColorsOf(ps[i])
  {
    var buf := FileBytes(h, ps);
    RecordInFile(h, ps, i);
    var base := RecordBase(h, i);
    FieldsReadBack(buf, base, ps[i], h.pointSize, 0);
    FieldsReadBack(buf, base, ps[i], h.pointSize, 1);
    FieldsReadBack(buf, base, ps[i], h.pointSize, 2);
  }

  /** A record laid down at `base` gives back its coordinates and colour channels. */
  lemma FieldsReadBack(buf: seq<Byte>, base: nat, p: PointRecord, size: nat, c: nat)
    requires ValidRecord(p) && RecordExtent <= size && c < 3
    requires base + size <= |buf| && buf[base..base + size] == RecordBytes(p, size)
    ensures I32(buf, base + 4 * c) == Coord(p, c)
    ensures U16(buf, base + RgbAt + 2 * c) == Rgb(p, c)
  {
    var rec := RecordBytes(p, size);
    FieldsInRecord(p, size, c);
    SliceOfSlice(buf, base, base + size, 4 * c, 4 * c + 4);
    I32Decodes(buf, base + 4 * c, Coord(p, c));
    var at := RgbAt + 2 * c;
    SliceOfSlice(buf, base, base + size, at, at + 2);
    U16Decodes(buf, base + at, Rgb(p, c));
  }

  /** The header fields read back from the header bytes, whatever follows them. */
  lemma HeaderReadsBack(h: Header, rest: seq<Byte>)
    requires WellFormed(h)
    ensures ReadHeader(HeaderBytes(h) + rest) == h
  {
    var buf := HeaderBytes(h) + rest;
    var hb := HeaderBytes(h);
    assert buf[..HeaderExtent] == hb;
    assert hb[96..100] == EncodeU32(h.pointDataOffset);
    assert hb[105..107] == EncodeU16(h.pointSize);
    assert hb[107..111] == EncodeU32(h.pointCount);
    assert hb[131..139] == EncodeU64(h.scale[0]);
    assert hb[139..147] == EncodeU64(h.scale[1]);
    assert hb[147..155] == EncodeU64(h.scale[2]);
    assert hb[155..163] == EncodeU64(h.offset[0]);
    assert hb[163..171] == EncodeU64(h.offset[1]);
    assert hb == hb[..171] + EncodeU64(h.offset[2]);
    SliceOfAppend(hb[..171], EncodeU64(h.offset[2]), 171, 179);
    U32Decodes(buf, 96, h.pointDataOffset);
    U16Decodes(buf, 105, h.pointSize);
    U32Decodes(buf, 107, h.pointCount);
    F64BitsDecode(buf, 131, h.scale[0]);
    F64BitsDecode(buf, 139, h.scale[1]);
    F64BitsDecode(buf, 147, h.scale[2]);
    F64BitsDecode(buf, 155, h.offset[0]);
    F64BitsDecode(buf, 163, h.offset[1]);
    F64BitsDecode(buf, 171, h.offset[2]);
  }

  /**
   * Every read can be in range and still the decode fails: with a record
   * length of 0 all 2^32 - 1 points read the same 26 bytes, but their
   * positions would need more entries than a JavaScript array holds.
   */
  lemma TooManyPointsFail()
    ensures var h := Header(HeaderExtent, 0, MaxArrayLength, [0, 0, 0], [0, 0, 0]);
      var buf := HeaderBytes(h) + Zeros(RecordExtent);
      && ReadHeader(buf) == h && AllRecordsFit(buf, h)
      && Decoded(buf) == None
  {
    var h := Header(HeaderExtent, 0, MaxArrayLength, [0, 0, 0], [0, 0, 0]);
    HeaderReadsBack(h, Zeros(RecordExtent));
  }

  /** Record `i` of the file is the bytes of point `i`. */
  lemma RecordInFile(h: Header, ps: seq<PointRecord>, i: nat)
    requires Encodable(h, ps) && i < |ps|
    ensures RecordFits(FileBytes(h, ps), h, i)
    ensures RecordBase(h, i) + h.pointSize <= |FileBytes(h, ps)|
    ensures FileBytes(h, ps)[RecordBase(h, i)..RecordBase(h, i) + h.pointSize] == RecordBytes(ps[i], h.pointSize)
  {
    var size := h.pointSize;
    var prefix := HeaderBytes(h) + Zeros(h.pointDataOffset - HeaderExtent);
    var chunks := seq(|ps|, j requires 0 <= j < |ps| => RecordBytes(ps[j], size));
    var records := Concat(chunks);
    var at := Offset(i, size);
    ChunkAt(chunks, size, i);
    OffsetIsProduct(i, size);
    assert |prefix| == h.pointDataOffset;
    assert RecordBase(h, i) == |prefix| + at;
    SliceOfAppend(prefix, records, |prefix| + at, |prefix| + at + size);
  }

  lemma FieldsInRecord(p: PointRecord, size: nat, c: nat)
    requires ValidRecord(p) && RecordExtent <= size && c < 3
    ensures RecordBytes(p, size)[4 * c..4 * c + 4] == EncodeI32(Coord(p, c))
    ensures RecordBytes(p, size)[RgbAt + 2 * c..RgbAt + 2 * c + 2] == EncodeU16(Rgb(p, c))
  {
    var xyz := EncodeI32(p.x) + EncodeI32(p.y) + EncodeI32(p.z);
    var rgb := EncodeU16(p.red) + EncodeU16(p.green) + EncodeU16(p.blue);
    var rec := RecordBytes(p, size);
    assert rec[..12] == xyz && rec[RgbAt..RecordExtent] == rgb;
    SliceOfSlice(rec, 0, 12, 4 * c, 4 * c + 4);
    SliceOfSlice(rec, RgbAt, RecordExtent, 2 * c, 2 * c + 2);
  }
}
