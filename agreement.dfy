/**
 * How the desktop and the mobile decoders relate. Neither program says that
 * the mobile primary input report is the desktop GLOVE_REPORT without its
 * leading flags byte, nor that byte 0 of the mobile feature report is the
 * desktop flags byte; the offsets match, which suggests it. The lemmas
 * here state the consequence: if the mobile side is given those bytes,
 * it decodes what the desktop decodes.
 */
module Agreement {
  import opened Wrappers
  import opened Wire
  import opened ManusTypes
  import GloveSession
  import ManusMobile

  /** The mobile hand of a feature report holding the flags byte. */
  lemma HandsAgree(flags: uint8)
    ensures ManusMobile.GetHandedness(Some([flags])) == Some(ManusMobile.RightHand)
        <==> GloveSession.HandOf(flags as bv8) == Right
  {
  }

  lemma InputReportOffsets(r: GloveReport)
    requires r.WellFormed()
    ensures var v := SerializeGloveReport(r)[1..];
      && |v| == ManusMobile.INPUT_REPORT_SIZE
      && (forall i :: 0 <= i < GLOVE_QUATS ==> Int16At(v, 2 * i) == r.quat[i])
      && (forall i :: 0 <= i < GLOVE_AXES ==> Int16At(v, 8 + 2 * i) == r.accel[i])
      && (forall i :: 0 <= i < GLOVE_FINGERS ==> v[ManusMobile.FINGER_OFFSET + i] == r.fingers[i])
  {
    var b := SerializeGloveReport(r);
    var v := b[1..];
    forall i | 0 <= i < GLOVE_QUATS
      ensures Int16At(v, 2 * i) == r.quat[i]
    {
      assert Int16At(v, 2 * i) == Int16At(b, QUAT_OFFSET + 2 * i);
    }
    forall i | 0 <= i < GLOVE_AXES
      ensures Int16At(v, 8 + 2 * i) == r.accel[i]
    {
      assert Int16At(v, 8 + 2 * i) == Int16At(b, ACCEL_OFFSET + 2 * i);
    }
  }

  /**
   * Decoding a serialised report on the mobile side gives the quaternion,
   * the acceleration and the hand-ordered fingers of the desktop sample.
   */
  lemma MobileDecodesDesktopReport(r: GloveReport, packetNumber: nat)
    requires r.WellFormed()
    ensures var v := SerializeGloveReport(r)[1..];
      var d := GloveSession.DecodeSample(r, GloveSession.HandOf(r.flags as bv8), packetNumber);
      && |v| == ManusMobile.INPUT_REPORT_SIZE
      && ManusMobile.DecodeQuaternion(v) == d.quaternion
      && ManusMobile.DecodeAcceleration(v) == d.acceleration
      && forall i :: 0 <= i < GLOVE_FINGERS ==>
           ManusMobile.GetFinger(i, Some(v), ManusMobile.GetHandedness(Some([r.flags]))) == d.fingers[i]
  {
    InputReportOffsets(r);
    HandsAgree(r.flags);
  }

  /** A serialised COMPASS_REPORT decodes on the mobile side to its three components over 32. */
  lemma MobileDecodesCompassReport(r: CompassReport)
    requires r.WellFormed()
    ensures ManusMobile.DecodeCompass(SerializeCompassReport(r))
         == Vector(r.compass[0] as real / 32.0, r.compass[1] as real / 32.0, r.compass[2] as real / 32.0)
  {
    var b := SerializeCompassReport(r);
    assert Int16At(b, 0) == r.compass[0] && Int16At(b, 2) == r.compass[1] && Int16At(b, 4) == r.compass[2];
  }
}
