/**
 * Flag bits, dimensions and the packed wire records of the glove
 * (Manus/Manus/Glove.h). Each packed record is given a parser and a
 * serialiser over little-endian bytes, and the two are proved inverse.
 */
module Wire {
  import opened Wrappers

  type uint8 = x: int | 0 <= x < 0x100
  type uint16 = x: int | 0 <= x < 0x1_0000
  type int16 = x: int | -0x8000 <= x < 0x8000

  // Device flag bits (handedness: 0 = left, 1 = right).
  const GLOVE_FLAGS_HANDEDNESS: bv8 := 0x1
  const GLOVE_FLAGS_CAL_GYRO: bv8 := 0x2
  const GLOVE_FLAGS_CAL_ACCEL: bv8 := 0x4
  const GLOVE_FLAGS_CAL_FINGERS: bv8 := 0x8

  const GLOVE_AXES: nat := 3
  const GLOVE_QUATS: nat := 4
  const GLOVE_FINGERS: nat := 5

  const GLOVE_REPORT_ID: nat := 1
  const COMPASS_REPORT_ID: nat := 2

  // Byte offsets of the fields of the packed GLOVE_REPORT (no padding).
  const FLAGS_OFFSET: nat := 0
  const QUAT_OFFSET: nat := FLAGS_OFFSET + 1
  const ACCEL_OFFSET: nat := QUAT_OFFSET + 2 * GLOVE_QUATS
  const FINGERS_OFFSET: nat := ACCEL_OFFSET + 2 * GLOVE_AXES
  const GLOVE_REPORT_SIZE: nat := FINGERS_OFFSET + GLOVE_FINGERS
  const GLOVE_OUTPUT_REPORT_SIZE: nat := 2
  const COMPASS_REPORT_SIZE: nat := 2 * GLOVE_AXES

  /** The four flag constants are non-zero single bits and pairwise disjoint. */
  lemma FlagBitsDisjoint()
    ensures forall f :: f in [GLOVE_FLAGS_HANDEDNESS, GLOVE_FLAGS_CAL_GYRO, GLOVE_FLAGS_CAL_ACCEL, GLOVE_FLAGS_CAL_FINGERS]
                        ==> f != 0 && f & (f - 1) == 0
    ensures GLOVE_FLAGS_HANDEDNESS & GLOVE_FLAGS_CAL_GYRO == 0
    ensures GLOVE_FLAGS_HANDEDNESS & GLOVE_FLAGS_CAL_ACCEL == 0
    ensures GLOVE_FLAGS_HANDEDNESS & GLOVE_FLAGS_CAL_FINGERS == 0
    ensures GLOVE_FLAGS_CAL_GYRO & GLOVE_FLAGS_CAL_ACCEL == 0
    ensures GLOVE_FLAGS_CAL_GYRO & GLOVE_FLAGS_CAL_FINGERS == 0
    ensures GLOVE_FLAGS_CAL_ACCEL & GLOVE_FLAGS_CAL_FINGERS == 0
  {
  }

  /** The packed layout: flags at 0, quat at 1, accel at 9, fingers at 15, 20 bytes in all. */
  lemma ReportLayout()
    ensures FLAGS_OFFSET == 0 && QUAT_OFFSET == 1 && ACCEL_OFFSET == 9 && FINGERS_OFFSET == 15
    ensures GLOVE_REPORT_SIZE == 20 && GLOVE_OUTPUT_REPORT_SIZE == 2 && COMPASS_REPORT_SIZE == 6
  {
  }

  // ---------------------------------------------------------------------------
  // Little-endian 16-bit fields

  function Uint16Of(lo: uint8, hi: uint8): uint16
  {
    lo + 0x100 * hi
  }

  function Uint16Bytes(v: uint16): (b: seq<uint8>)
    ensures |b| == 2 && Uint16Of(b[0], b[1]) == v
  {
    [v % 0x100, v / 0x100]
  }

  /** Two's-complement little-endian encoding of a signed 16-bit value. */
  function Int16Bytes(v: int16): (b: seq<uint8>)
    ensures |b| == 2
    ensures Uint16Of(b[0], b[1]) == if v < 0 then v + 0x1_0000 else v
  {
    Uint16Bytes(if v < 0 then v + 0x1_0000 else v)
  }

  function Int16Of(lo: uint8, hi: uint8): int16
  {
    var u := Uint16Of(lo, hi);
    if u >= 0x8000 then u - 0x1_0000 else u
  }

  /** The signed 16-bit value stored at byte offset `off`. */
  function Int16At(b: seq<uint8>, off: nat): int16
    requires off + 2 <= |b|
  {
    Int16Of(b[off], b[off + 1])
  }

  lemma Int16RoundTrip(v: int16)
    ensures Int16Of(Int16Bytes(v)[0], Int16Bytes(v)[1]) == v
  {
  }

  lemma Int16BytesRoundTrip(lo: uint8, hi: uint8)
    ensures Int16Bytes(Int16Of(lo, hi)) == [lo, hi]
  {
  }

  function Int16sToBytes(s: seq<int16>): (b: seq<uint8>)
    ensures |b| == 2 * |s|
  {
    if s == [] then [] else Int16Bytes(s[0]) + Int16sToBytes(s[1..])
  }

  function Int16sOf(b: seq<uint8>): (s: seq<int16>)
    requires |b| % 2 == 0
    ensures |s| == |b| / 2
  {
    seq(|b| / 2, i requires 0 <= i < |b| / 2 => Int16At(b, 2 * i))
  }

  /** Element i of a serialised array sits at bytes 2i and 2i+1. */
  lemma {:induction false} Int16sToBytesAt(s: seq<int16>, i: nat)
    requires i < |s|
    ensures Int16sToBytes(s)[2 * i] == Int16Bytes(s[i])[0]
    ensures Int16sToBytes(s)[2 * i + 1] == Int16Bytes(s[i])[1]
  {
    if i > 0 {
      Int16sToBytesAt(s[1..], i - 1);
    }
  }

  /** Serialising then parsing an int16 array gives back the array. */
  lemma Int16sRoundTrip(s: seq<int16>)
    ensures Int16sOf(Int16sToBytes(s)) == s
  {
    var b := Int16sToBytes(s);
    forall i | 0 <= i < |s|
      ensures Int16sOf(b)[i] == s[i]
    {
      Int16sToBytesAt(s, i);
      Int16RoundTrip(s[i]);
    }
  }

  /** Parsing then serialising an even-length byte buffer gives back the buffer. */
  lemma Int16sBytesRoundTrip(b: seq<uint8>)
    requires |b| % 2 == 0
    ensures Int16sToBytes(Int16sOf(b)) == b
  {
    var s := Int16sOf(b);
    var b' := Int16sToBytes(s);
    forall k | 0 <= k < |b|
      ensures b'[k] == b[k]
    {
      var i := k / 2;
      Int16sToBytesAt(s, i);
      Int16BytesRoundTrip(b[2 * i], b[2 * i + 1]);
    }
  }

  // ---------------------------------------------------------------------------
  // GLOVE_REPORT: flags u8, quat[4] i16, accel[3] i16, fingers[5] u8

  datatype GloveReport = GloveReport(flags: uint8, quat: seq<int16>, accel: seq<int16>, fingers: seq<uint8>)
  {
    predicate WellFormed()
    {
      |quat| == GLOVE_QUATS && |accel| == GLOVE_AXES && |fingers| == GLOVE_FINGERS
    }
  }

  function SerializeGloveReport(r: GloveReport): (b: seq<uint8>)
    requires r.WellFormed()
    ensures |b| == GLOVE_REPORT_SIZE
    ensures b[FLAGS_OFFSET] == r.flags
    ensures forall i :: 0 <= i < GLOVE_QUATS ==> Int16At(b, QUAT_OFFSET + 2 * i) == r.quat[i]
    ensures forall i :: 0 <= i < GLOVE_AXES ==> Int16At(b, ACCEL_OFFSET + 2 * i) == r.accel[i]
    ensures forall i :: 0 <= i < GLOVE_FINGERS ==> b[FINGERS_OFFSET + i] == r.fingers[i]
  {
    var b := [r.flags] + Int16sToBytes(r.quat) + Int16sToBytes(r.accel) + r.fingers;
    assert b[QUAT_OFFSET..ACCEL_OFFSET] == Int16sToBytes(r.quat);
    assert b[ACCEL_OFFSET..FINGERS_OFFSET] == Int16sToBytes(r.accel);
    Int16sRoundTrip(r.quat);
    Int16sRoundTrip(r.accel);
    assert forall i :: 0 <= i < GLOVE_QUATS ==> Int16At(b, QUAT_OFFSET + 2 * i) == Int16sOf(b[QUAT_OFFSET..ACCEL_OFFSET])[i];
    assert forall i :: 0 <= i < GLOVE_AXES ==> Int16At(b, ACCEL_OFFSET + 2 * i) == Int16sOf(b[ACCEL_OFFSET..FINGERS_OFFSET])[i];
    b
  }

  /** Reinterprets a buffer as a GLOVE_REPORT; only a buffer of exactly its size is one. */
  function ParseGloveReport(b: seq<uint8>): (r: Option<GloveReport>)
    ensures r.Some? <==> |b| == GLOVE_REPORT_SIZE
    ensures r.Some? ==> r.value.WellFormed()
  {
    if |b| != GLOVE_REPORT_SIZE then None
    else Some(GloveReport(b[FLAGS_OFFSET],
                          Int16sOf(b[QUAT_OFFSET..ACCEL_OFFSET]),
                          Int16sOf(b[ACCEL_OFFSET..FINGERS_OFFSET]),
                          b[FINGERS_OFFSET..GLOVE_REPORT_SIZE]))
  }

  lemma GloveReportRoundTrip(r: GloveReport)
    requires r.WellFormed()
    ensures ParseGloveReport(SerializeGloveReport(r)) == Some(r)
  {
    var b := SerializeGloveReport(r);
    assert b[QUAT_OFFSET..ACCEL_OFFSET] == Int16sToBytes(r.quat);
    assert b[ACCEL_OFFSET..FINGERS_OFFSET] == Int16sToBytes(r.accel);
    assert b[FINGERS_OFFSET..GLOVE_REPORT_SIZE] == r.fingers;
    Int16sRoundTrip(r.quat);
    Int16sRoundTrip(r.accel);
  }

  lemma GloveReportBytesRoundTrip(b: seq<uint8>)
    requires |b| == GLOVE_REPORT_SIZE
    ensures SerializeGloveReport(ParseGloveReport(b).value) == b
  {
    var r := ParseGloveReport(b).value;
    Int16sBytesRoundTrip(b[QUAT_OFFSET..ACCEL_OFFSET]);
    Int16sBytesRoundTrip(b[ACCEL_OFFSET..FINGERS_OFFSET]);
    assert b == [b[0]] + b[QUAT_OFFSET..ACCEL_OFFSET] + b[ACCEL_OFFSET..FINGERS_OFFSET] + b[FINGERS_OFFSET..GLOVE_REPORT_SIZE];
  }

  // ---------------------------------------------------------------------------
  // GLOVE_OUTPUT_REPORT: rumbler u16

  datatype GloveOutputReport = GloveOutputReport(rumbler: uint16)

  function SerializeOutputReport(r: GloveOutputReport): (b: seq<uint8>)
    ensures |b| == GLOVE_OUTPUT_REPORT_SIZE
    ensures Uint16Of(b[0], b[1]) == r.rumbler
  {
    Uint16Bytes(r.rumbler)
  }

  function ParseOutputReport(b: seq<uint8>): (r: Option<GloveOutputReport>)
    ensures r.Some? <==> |b| == GLOVE_OUTPUT_REPORT_SIZE
  {
    if |b| != GLOVE_OUTPUT_REPORT_SIZE then None else Some(GloveOutputReport(Uint16Of(b[0], b[1])))
  }

  lemma OutputReportRoundTrip(r: GloveOutputReport)
    ensures ParseOutputReport(SerializeOutputReport(r)) == Some(r)
  {
  }

  lemma OutputReportBytesRoundTrip(b: seq<uint8>)
    requires |b| == GLOVE_OUTPUT_REPORT_SIZE
    ensures SerializeOutputReport(ParseOutputReport(b).value) == b
  {
  }

  // ---------------------------------------------------------------------------
  // COMPASS_REPORT: compass[3] i16

  datatype CompassReport = CompassReport(compass: seq<int16>)
  {
    predicate WellFormed() { |compass| == GLOVE_AXES }
  }

  function SerializeCompassReport(r: CompassReport): (b: seq<uint8>)
    requires r.WellFormed()
    ensures |b| == COMPASS_REPORT_SIZE
    ensures forall i :: 0 <= i < GLOVE_AXES ==> Int16At(b, 2 * i) == r.compass[i]
  {
    var b := Int16sToBytes(r.compass);
    Int16sRoundTrip(r.compass);
    assert forall i :: 0 <= i < GLOVE_AXES ==> Int16At(b, 2 * i) == Int16sOf(b)[i];
    b
  }

  function ParseCompassReport(b: seq<uint8>): (r: Option<CompassReport>)
    ensures r.Some? <==> |b| == COMPASS_REPORT_SIZE
    ensures r.Some? ==> r.value.WellFormed()
  {
    if |b| != COMPASS_REPORT_SIZE then None else Some(CompassReport(Int16sOf(b)))
  }

  lemma CompassReportRoundTrip(r: CompassReport)
    requires r.WellFormed()
    ensures ParseCompassReport(SerializeCompassReport(r)) == Some(r)
  {
    Int16sRoundTrip(r.compass);
  }

  lemma CompassReportBytesRoundTrip(b: seq<uint8>)
    requires |b| == COMPASS_REPORT_SIZE
    ensures SerializeCompassReport(ParseCompassReport(b).value) == b
  {
    Int16sBytesRoundTrip(b);
  }
}
