/**
 * The `las` branch of `LoadModel`: a hand-written decoder for LAS point
 * clouds. It reads the Public Header Block of the ASPRS LAS 1.2
 * specification at fixed offsets and then walks fixed-size point records,
 * taking the raw coordinates at +0/+4/+8 and the colour at +20/+22/+24,
 * which is the Point Data Record Format 2 layout. The point data format
 * byte at offset 104 is never consulted, and there is no bound check
 * before the loop: the first read that passes the end of the buffer makes
 * `DataView` raise a RangeError, which aborts the whole decode, and so does
 * a `push` that would take an array past 2^32 - 1 entries.
 *
 * Arithmetic on doubles is kept symbolic: a position is the triple
 * (raw, scale, offset) that the source turns into `raw * scale + offset`,
 * with the scale and offset kept as their f64 bit patterns, and a colour
 * channel is the raw 16-bit value that the source divides by 256 and then
 * by 255.
 */
module Las {
  import opened Wrappers
  import opened LittleEndian

  // Public Header Block offsets (LAS 1.2, section 2.2 "Public Header Block")
  const PointDataOffsetAt: nat := 96
  const PointFormatAt: nat := 104
  const PointRecordLengthAt: nat := 105
  const PointCountAt: nat := 107
  const ScaleAt: nat := 131    // X; Y at +8, Z at +16
  const OffsetAt: nat := 155   // X; Y at +8, Z at +16
  /** One past the last header byte the decoder reads (the Z offset). */
  const HeaderExtent: nat := 179

  // Point record layout (Point Data Record Format 2)
  const RgbAt: nat := 20       // red; green at +22, blue at +24
  /** One past the last record byte the decoder reads (the blue channel). */
  const RecordExtent: nat := 26

  /** The longest a JavaScript array can be: `push` past it raises a RangeError. */
  const MaxArrayLength: nat := 0xFFFF_FFFF

  /** The header fields the decoder uses; scales and offsets as f64 bit patterns, X, Y, Z. */
  datatype Header = Header(
    pointDataOffset: nat,
    pointSize: nat,
    pointCount: nat,
    scale: seq<nat>,
    offset: seq<nat>)

  predicate WellFormed(h: Header)
  {
    && InU32(h.pointDataOffset) && InU16(h.pointSize) && InU32(h.pointCount)
    && |h.scale| == 3 && |h.offset| == 3
    && (forall c :: 0 <= c < 3 ==> InU64(h.scale[c]))
    && (forall c :: 0 <= c < 3 ==> InU64(h.offset[c]))
  }

  /** One coordinate of one point: `raw * scale + offset`, left unevaluated. */
  datatype ScaledCoord = ScaledCoord(raw: int, scale: nat, offset: nat)

  /** One colour channel: `raw / 256 / 255`, left unevaluated. */
  datatype Channel = Channel(raw: nat)

  /** The `positions` and `colors` arrays, three entries per point in point order. */
  datatype Cloud = Cloud(positions: seq<ScaledCoord>, colors: seq<Channel>)

  function ReadHeader(buf: seq<Byte>): (h: Header)
    requires HeaderExtent <= |buf|
    ensures WellFormed(h)
  {
    Header(
      U32(buf, PointDataOffsetAt),
      U16(buf, PointRecordLengthAt),
      U32(buf, PointCountAt),
      [F64Bits(buf, ScaleAt), F64Bits(buf, ScaleAt + 8), F64Bits(buf, ScaleAt + 16)],
      [F64Bits(buf, OffsetAt), F64Bits(buf, OffsetAt + 8), F64Bits(buf, OffsetAt + 16)])
  }

  /** `pointDataOffset + i * pointSize`: where the record of point `i` starts. */
  function RecordBase(h: Header, i: nat): nat
  {
    h.pointDataOffset + i * h.pointSize
  }

  /** Every read of record `i` stays inside the buffer. */
  predicate RecordFits(buf: seq<Byte>, h: Header, i: nat)
  {
    RecordBase(h, i) + RecordExtent <= |buf|
  }

  predicate AllRecordsFit(buf: seq<Byte>, h: Header)
  {
    forall i :: 0 <= i < h.pointCount ==> RecordFits(buf, h, i)
  }

  /** The three positions pushed for point `i`: X, Y, Z read as i32 at +0, +4, +8. */
  function PointPositions(buf: seq<Byte>, h: Header, i: nat): seq<ScaledCoord>
    requires WellFormed(h) && RecordFits(buf, h, i)
  {
    var base := RecordBase(h, i);
    [ ScaledCoord(I32(buf, base), h.scale[0], h.offset[0]),
      ScaledCoord(I32(buf, base + 4), h.scale[1], h.offset[1]),
      ScaledCoord(I32(buf, base + 8), h.scale[2], h.offset[2]) ]
  }

  /** The three colours pushed for point `i`: red, green, blue read as u16 at +20, +22, +24. */
  function PointColors(buf: seq<Byte>, h: Header, i: nat): seq<Channel>
    requires RecordFits(buf, h, i)
  {
    var base := RecordBase(h, i);
    [Channel(U16(buf, base + RgbAt)), Channel(U16(buf, base + RgbAt + 2)), Channel(U16(buf, base + RgbAt + 4))]
  }

  /** The two arrays after the loop has handled points `0 .. n - 1`. */
  function CloudUpTo(buf: seq<Byte>, h: Header, n: nat): (r: Cloud)
    requires WellFormed(h) && forall j :: 0 <= j < n ==> RecordFits(buf, h, j)
    ensures |r.positions| == 3 * n && |r.colors| == 3 * n
  {
    if n == 0 then Cloud([], [])
    else
      var c := CloudUpTo(buf, h, n - 1);
      Cloud(c.positions + PointPositions(buf, h, n - 1), c.colors + PointColors(buf, h, n - 1))
  }

  /**
   * What the `las` branch produces: None when some read passes the end of
   * the buffer or some `push` would make an array longer than a JavaScript
   * array can be (either raises the RangeError that aborts it), otherwise
   * the two arrays.
   */
  function Decoded(buf: seq<Byte>): (r: Option<Cloud>)
    ensures r.Some? ==> HeaderExtent <= |buf| && AllRecordsFit(buf, ReadHeader(buf))
    ensures r.Some? ==> |r.value.positions| == |r.value.colors| == 3 * ReadHeader(buf).pointCount <= MaxArrayLength
  {
    if |buf| < HeaderExtent then None
    else
      var h := ReadHeader(buf);
      if !AllRecordsFit(buf, h) || 3 * h.pointCount > MaxArrayLength then None
      else Some(CloudUpTo(buf, h, h.pointCount))
  }

  /** The decode loop: reads the header, then pushes three positions and three colours per point. */
  method Decode(buf: seq<Byte>) returns (r: Option<Cloud>)
    ensures r == Decoded(buf)
  {
    if |buf| < HeaderExtent {
      return None;  // a header read raises RangeError
    }
    var pointDataOffset := U32(buf, PointDataOffsetAt);
    var pointCount := U32(buf, PointCountAt);
    var pointSize := U16(buf, PointRecordLengthAt);
    var scaleX, scaleY, scaleZ := F64Bits(buf, ScaleAt), F64Bits(buf, ScaleAt + 8), F64Bits(buf, ScaleAt + 16);
    var offsetX, offsetY, offsetZ := F64Bits(buf, OffsetAt), F64Bits(buf, OffsetAt + 8), F64Bits(buf, OffsetAt + 16);
    ghost var h := ReadHeader(buf);
    assert h.pointDataOffset == pointDataOffset && h.pointSize == pointSize && h.pointCount == pointCount;
    assert h.scale == [scaleX, scaleY, scaleZ] && h.offset == [offsetX, offsetY, offsetZ];

    var positions: seq<ScaledCoord> := [];
    var colors: seq<Channel> := [];
    var i: nat := 0;
    while i < pointCount
      invariant i <= pointCount && 3 * i <= MaxArrayLength
      invariant forall j :: 0 <= j < i ==> RecordFits(buf, h, j)
      invariant Cloud(positions, colors) == CloudUpTo(buf, h, i)
    {
      var base := pointDataOffset + i * pointSize;
      if |buf| < base + RecordExtent {
        assert !RecordFits(buf, h, i) && !AllRecordsFit(buf, h);
        return None;  // getInt32 / getUint16 raise RangeError
      }
      assert RecordFits(buf, h, i) && RecordBase(h, i) == base;
      var x := ScaledCoord(I32(buf, base), scaleX, offsetX);
      var y := ScaledCoord(I32(buf, base + 4), scaleY, offsetY);
      var z := ScaledCoord(I32(buf, base + 8), scaleZ, offsetZ);
      if |positions| + 3 > MaxArrayLength {
        assert 3 * h.pointCount > MaxArrayLength;
        return None;  // push raises RangeError
      }
      positions := positions + [x, y, z];

      var red := Channel(U16(buf, base + RgbAt));
      var green := Channel(U16(buf, base + RgbAt + 2));
      var blue := Channel(U16(buf, base + RgbAt + 4));
      colors := colors + [red, green, blue];
      assert [x, y, z] == PointPositions(buf, h, i) && [red, green, blue] == PointColors(buf, h, i);
      CloudStep(buf, h, i);
      i := i + 1;
    }
    assert AllRecordsFit(buf, h) && 3 * h.pointCount <= MaxArrayLength;
    return Some(Cloud(positions, colors));
  }

  /** One more iteration appends the point's three positions and three colours. */
  lemma CloudStep(buf: seq<Byte>, h: Header, i: nat)
    requires WellFormed(h) && forall j :: 0 <= j <= i ==> RecordFits(buf, h, j)
    ensures CloudUpTo(buf, h, i + 1).positions == CloudUpTo(buf, h, i).positions + PointPositions(buf, h, i)
    ensures CloudUpTo(buf, h, i + 1).colors == CloudUpTo(buf, h, i).colors + PointColors(buf, h, i)
  {
  }

  /** A later record never starts before an earlier one. */
  lemma RecordBaseMonotone(h: Header, i: nat, j: nat)
    requires i <= j
    ensures RecordBase(h, i) <= RecordBase(h, j)
  {
    assert j * h.pointSize == i * h.pointSize + (j - i) * h.pointSize;
  }

  /**
   * Decoding fails exactly when the header is cut short, the last record
   * does not fit, or the points need more array entries than a JavaScript
   * array holds: with no pre-loop check, those are the only ways it fails.
   */
  lemma DecodeSucceedsIff(buf: seq<Byte>)
    ensures Decoded(buf).Some? <==>
      && HeaderExtent <= |buf|
      && var h := ReadHeader(buf);
         && (h.pointCount == 0 || RecordFits(buf, h, h.pointCount - 1))
         && 3 * h.pointCount <= MaxArrayLength
  {
    if HeaderExtent <= |buf| {
      var h := ReadHeader(buf);
      if h.pointCount > 0 && RecordFits(buf, h, h.pointCount - 1) {
        forall i | 0 <= i < h.pointCount ensures RecordFits(buf, h, i) {
          RecordBaseMonotone(h, i, h.pointCount - 1);
        }
      }
    }
  }

  /** Entry `3 * i + c` of each array is field `c` of point `i`. */
  lemma {:induction false} CloudEntries(buf: seq<Byte>, h: Header, n: nat, i: nat, c: nat)
    requires WellFormed(h) && forall j :: 0 <= j < n ==> RecordFits(buf, h, j)
    requires i < n && c < 3
    ensures CloudUpTo(buf, h, n).positions[3 * i + c] == PointPositions(buf, h, i)[c]
    ensures CloudUpTo(buf, h, n).colors[3 * i + c] == PointColors(buf, h, i)[c]
  {
    if i < n - 1 {
      CloudEntries(buf, h, n - 1, i, c);
    }
  }

  /** The two arrays grow in lock step: three entries each per point, both empty without points. */
  lemma DecodedLockStep(buf: seq<Byte>)
    requires Decoded(buf).Some?
    ensures |Decoded(buf).value.positions| == 3 * ReadHeader(buf).pointCount
    ensures |Decoded(buf).value.colors| == 3 * ReadHeader(buf).pointCount
    ensures ReadHeader(buf).pointCount == 0 ==> Decoded(buf) == Some(Cloud([], []))
  {
  }

  /**
   * Point `i` is read from its own record: raw X/Y/Z as i32 at base, base+4,
   * base+8 and red/green/blue as u16 at base+20, base+22, base+24, where
   * base = pointDataOffset + i * pointSize.
   */
  lemma PointLayout(buf: seq<Byte>, i: nat, c: nat)
    requires Decoded(buf).Some? && i < ReadHeader(buf).pointCount && c < 3
    ensures var h := ReadHeader(buf);
      && RecordFits(buf, h, i)
      && Decoded(buf).value.positions[3 * i + c] == ScaledCoord(I32(buf, RecordBase(h, i) + 4 * c), h.scale[c], h.offset[c])
      && Decoded(buf).value.colors[3 * i + c] == Channel(U16(buf, RecordBase(h, i) + RgbAt + 2 * c))
  {
    var h := ReadHeader(buf);
    assert AllRecordsFit(buf, h) && Decoded(buf).value == CloudUpTo(buf, h, h.pointCount);
    CloudEntries(buf, h, h.pointCount, i, c);
    PointFields(buf, h, i, c);
  }

  /** Field `c` of point `i`, as read from its record. */
  lemma PointFields(buf: seq<Byte>, h: Header, i: nat, c: nat)
    requires WellFormed(h) && RecordFits(buf, h, i) && c < 3
    ensures PointPositions(buf, h, i)[c] == ScaledCoord(I32(buf, RecordBase(h, i) + 4 * c), h.scale[c], h.offset[c])
    ensures PointColors(buf, h, i)[c] == Channel(U16(buf, RecordBase(h, i) + RgbAt + 2 * c))
  {
  }

  /** Two buffers of one length that agree from the point data on give the same point `i`. */
  lemma SamePoint(buf: seq<Byte>, buf': seq<Byte>, h: Header, i: nat)
    requires WellFormed(h) && RecordFits(buf, h, i) && |buf'| == |buf|
    requires forall k :: h.pointDataOffset <= k < |buf| ==> buf'[k] == buf[k]
    ensures RecordFits(buf', h, i)
    ensures PointPositions(buf', h, i) == PointPositions(buf, h, i)
    ensures PointColors(buf', h, i) == PointColors(buf, h, i)
  {
    RecordBaseMonotone(h, 0, i);
  }

  lemma {:induction false} SameCloud(buf: seq<Byte>, buf': seq<Byte>, h: Header, n: nat)
    requires WellFormed(h) && (forall j :: 0 <= j < n ==> RecordFits(buf, h, j)) && |buf'| == |buf|
    requires forall k :: h.pointDataOffset <= k < |buf| ==> buf'[k] == buf[k]
    ensures forall j :: 0 <= j < n ==> RecordFits(buf', h, j)
    ensures CloudUpTo(buf', h, n) == CloudUpTo(buf, h, n)
  {
    if n > 0 {
      SameCloud(buf, buf', h, n - 1);
      SamePoint(buf, buf', h, n - 1);
      assert forall j :: 0 <= j < n ==> RecordFits(buf', h, j) by {
        forall j | 0 <= j < n ensures RecordFits(buf', h, j) {
          assert RecordFits(buf, h, j);
        }
      }
    }
  }

  /** The point data format byte is never consulted: changing it changes nothing, as long as no record covers it. */
  lemma PointFormatIgnored(buf: seq<Byte>, format: Byte)
    requires HeaderExtent <= |buf| && ReadHeader(buf).pointDataOffset > PointFormatAt
    ensures Decoded(buf[PointFormatAt := format]) == Decoded(buf)
  {
    var buf' := buf[PointFormatAt := format];
    var h := ReadHeader(buf);
    assert ReadHeader(buf') == h;
    if AllRecordsFit(buf, h) {
      SameCloud(buf, buf', h, h.pointCount);
    } else {
      var i :| 0 <= i < h.pointCount && !RecordFits(buf, h, i);
      assert !RecordFits(buf', h, i);
    }
  }

  /** The value a channel stands for; for raw values above 65280 it exceeds 1. */
  function ChannelValue(ch: Channel): real
  {
    (ch.raw as real / 256.0) / 255.0
  }

  lemma ChannelRange(ch: Channel)
    requires InU16(ch.raw)
    ensures 0.0 <= ChannelValue(ch) <= 65535.0 / 65280.0
    ensures ChannelValue(ch) > 1.0 <==> ch.raw > 65280
  {
  }
}
