/**
 * The Android glove session (ManusMobile/.../manussdk/Glove.java): a GATT
 * callback object that records the glove's HID report characteristics,
 * decodes the primary input report and detects whether the device is a glove.
 *
 * Android's GATT stack is not modelled: characteristic values and callback
 * arguments are passed in, and the requests the session makes of the stack
 * (reads, notification set-up, service discovery, close) are recorded in
 * `events`.
 */
module ManusMobile {
  import opened Wrappers
  import opened Wire
  import opened ManusTypes

  // 16-bit Bluetooth SIG UUIDs of the HID-over-GATT profile.
  const HID_SERVICE: uint16 := 0x1812
  const HID_INFORMATION: uint16 := 0x2A4A
  const HID_REPORT_MAP: uint16 := 0x2A4B
  const HID_CONTROL_POINT: uint16 := 0x2A4C
  const HID_REPORT: uint16 := 0x2A4D
  const CLIENT_CHARACTERISTIC_CONFIG: uint16 := 0x2902

  const ACCEL_DIVISOR: real := 16384.0
  const QUAT_DIVISOR: real := 16384.0
  const COMPASS_DIVISOR: real := 32.0
  const FINGER_DIVISOR: real := 255.0

  /** Usage page and usage that identify a glove in its HID report map. */
  const GLOVE_PAGE: uint8 := 0x03
  const GLOVE_USAGE: uint8 := 0x04

  // Android platform constants.
  const GATT_SUCCESS: int := 0
  const STATE_DISCONNECTED: int := 0
  const STATE_CONNECTED: int := 2
  const PROPERTY_NOTIFY: bv8 := 0x10

  /** Offset of the first finger byte in the primary input report. */
  const FINGER_OFFSET: nat := 14
  /** Size of the primary input report: four quaternion and three acceleration int16, five finger bytes. */
  const INPUT_REPORT_SIZE: nat := 19

  datatype Handedness = LeftHand | RightHand

  /** A GATT characteristic: its identity, UUID, property bits and whether it has a configuration descriptor. */
  datatype GattCharacteristic = GattCharacteristic(instance: nat, uuid: uint16, properties: bv8, hasClientConfig: bool)

  /** The requests the session makes of the GATT stack and the callbacks it makes to the application. */
  datatype GattEvent =
    | ReadRequest(characteristic: GattCharacteristic)
    | NotificationEnabled(characteristic: GattCharacteristic)
    | DescriptorWritten(characteristic: GattCharacteristic)
    | DiscoverServicesRequest
    | Changed
    | Detected(isGlove: bool)
    | Closed

  // ---------------------------------------------------------------------------
  // Decoding

  /** The quaternion of the primary report: int16 at offsets 0, 2, 4, 6 over 16384. */
  function DecodeQuaternion(value: seq<uint8>): (q: Quaternion)
    requires |value| >= 8
  {
    Quaternion(Int16At(value, 0) as real / QUAT_DIVISOR, Int16At(value, 2) as real / QUAT_DIVISOR,
               Int16At(value, 4) as real / QUAT_DIVISOR, Int16At(value, 6) as real / QUAT_DIVISOR)
  }

  /** The acceleration of the primary report: int16 at offsets 8, 10, 12 over 16384. */
  function DecodeAcceleration(value: seq<uint8>): (a: Vector)
    requires |value| >= 14
  {
    Vector(Int16At(value, 8) as real / ACCEL_DIVISOR, Int16At(value, 10) as real / ACCEL_DIVISOR,
           Int16At(value, 12) as real / ACCEL_DIVISOR)
  }

  /** A compass report: int16 at offsets 0, 2, 4 over 32. */
  function DecodeCompass(value: seq<uint8>): (c: Vector)
    requires |value| >= 6
  {
    Vector(Int16At(value, 0) as real / COMPASS_DIVISOR, Int16At(value, 2) as real / COMPASS_DIVISOR,
           Int16At(value, 4) as real / COMPASS_DIVISOR)
  }

  /** Each decoded component times its divisor gives back the raw int16 of its offset. */
  lemma DecodeScales(value: seq<uint8>)
    requires |value| >= 14
    ensures var q := DecodeQuaternion(value);
      && q.w * 16384.0 == Int16At(value, 0) as real && q.x * 16384.0 == Int16At(value, 2) as real
      && q.y * 16384.0 == Int16At(value, 4) as real && q.z * 16384.0 == Int16At(value, 6) as real
    ensures var a := DecodeAcceleration(value);
      && a.x * 16384.0 == Int16At(value, 8) as real && a.y * 16384.0 == Int16At(value, 10) as real
      && a.z * 16384.0 == Int16At(value, 12) as real
    ensures var c := DecodeCompass(value);
      && c.x * 32.0 == Int16At(value, 0) as real && c.y * 32.0 == Int16At(value, 2) as real
      && c.z * 32.0 == Int16At(value, 4) as real
  {
  }

  /**
   * getHandedness over the feature report's value: none without a value,
   * otherwise bit 0x1 of byte 0 selects the right hand.
   */
  function GetHandedness(feature: Option<seq<uint8>>): (h: Option<Handedness>)
    requires feature.Some? ==> |feature.value| >= 1
    ensures h.None? <==> feature.None?
    ensures h == Some(RightHand) <==> feature.Some? && feature.value[0] as bv8 & 1 == 1
    ensures h == Some(LeftHand) <==> feature.Some? && feature.value[0] as bv8 & 1 == 0
  {
    if feature.None? then None
    else if feature.value[0] as bv8 & 1 == 0 then Some(LeftHand)
    else Some(RightHand)
  }

  /** Byte offset getFinger reads for finger i: mirrored for a left hand (an unknown hand reads as right). */
  function FingerByte(i: int, hand: Option<Handedness>): int
  {
    FINGER_OFFSET + (if hand == Some(LeftHand) then 4 - i else i)
  }

  /**
   * getFinger exactly as written: only i > 4 and a missing value are
   * rejected. The byte read must lie within the value, or the platform call
   * yields no integer and the unboxing throws.
   */
  function GetFingerAsWritten(i: int, value: Option<seq<uint8>>, hand: Option<Handedness>): real
    requires value.Some? && i <= 4 ==> 0 <= FingerByte(i, hand) < |value.value|
  {
    if i > 4 || value.None? then -1.0
    else value.value[FingerByte(i, hand)] as real / FINGER_DIVISOR
  }

  /**
   * A negative index slips past the guard: finger -1 of a right hand reads
   * byte 13, the high byte of the last acceleration component, instead of
   * giving the -1.0 reserved for a bad index.
   */
  lemma GetFingerNegativeIndex()
    ensures var v: seq<uint8> := [0, 0x40, 0, 0, 0, 0, 0, 0, 0, 0, 0, 0, 0, 0x40, 0, 64, 128, 192, 255];
      && GetFingerAsWritten(-1, Some(v), Some(RightHand)) == 64.0 / 255.0
      && GetFingerAsWritten(-1, Some(v), Some(RightHand)) != -1.0
  {
  }

  /** getFinger as intended: any index outside 0..4 gives -1.0. */
  function GetFinger(i: int, value: Option<seq<uint8>>, hand: Option<Handedness>): (f: real)
    requires value.Some? && 0 <= i <= 4 ==> FingerByte(i, hand) < |value.value|
    ensures f == -1.0 <==> i < 0 || i > 4 || value.None?
    ensures 0 <= i <= 4 && value.Some? ==> 0.0 <= f <= 1.0
  {
    if i < 0 || i > 4 || value.None? then -1.0
    else value.value[FingerByte(i, hand)] as real / FINGER_DIVISOR
  }

  /** On the indices 0..4 the corrected lookup and the written one agree. */
  lemma GetFingerAgrees(i: int, value: Option<seq<uint8>>, hand: Option<Handedness>)
    requires value.Some? && 0 <= i <= 4 ==> FingerByte(i, hand) < |value.value|
    requires 0 <= i
    ensures GetFinger(i, value, hand) == GetFingerAsWritten(i, value, hand)
  {
  }

  /** A left hand reads finger i from the slot of finger 4 - i of a right hand. */
  lemma GetFingerMirrors(i: int, value: seq<uint8>)
    requires |value| >= INPUT_REPORT_SIZE && 0 <= i <= 4
    ensures GetFinger(i, Some(value), Some(LeftHand)) == GetFinger(4 - i, Some(value), Some(RightHand))
    ensures GetFinger(i, Some(value), Some(RightHand)) == value[FINGER_OFFSET + i] as real / 255.0
    ensures GetFinger(i, Some(value), None) == GetFinger(i, Some(value), Some(RightHand))
  {
  }

  /** getLinearAcceleration: the raw acceleration with gravity removed, componentwise. */
  function GetLinearAcceleration(raw: Vector, gravity: Vector): (v: Vector)
  {
    Vector(raw.x - gravity.x, raw.y - gravity.y, raw.z - gravity.z)
  }

  /** getGravity: the direction of gravity in the frame of the quaternion. */
  function GetGravity(q: Quaternion): (g: Vector)
  {
    Vector(2.0 * (q.x * q.z - q.w * q.y),
           2.0 * (q.w * q.x + q.y * q.z),
           q.w * q.w - q.x * q.x - q.y * q.y + q.z * q.z)
  }

  /** Adding gravity back to the linear acceleration gives the raw acceleration. */
  lemma LinearAccelerationInverse(raw: Vector, gravity: Vector)
    ensures var l := GetLinearAcceleration(raw, gravity);
      Vector(l.x + gravity.x, l.y + gravity.y, l.z + gravity.z) == raw
    ensures GetLinearAcceleration(raw, Vector(0.0, 0.0, 0.0)) == raw
  {
  }

  /** The identity orientation sees gravity along +z, so a glove at rest with raw (0, 0, 1) has no linear acceleration. */
  lemma GravityOfIdentity()
    ensures GetGravity(Quaternion(1.0, 0.0, 0.0, 0.0)) == Vector(0.0, 0.0, 1.0)
    ensures GetLinearAcceleration(Vector(0.0, 0.0, 1.0), GetGravity(Quaternion(1.0, 0.0, 0.0, 0.0))) == Vector(0.0, 0.0, 0.0)
  {
    var g := GetGravity(Quaternion(1.0, 0.0, 0.0, 0.0));
    assert g.x == 2.0 * (0.0 * 0.0 - 1.0 * 0.0) == 0.0;
    assert g.y == 2.0 * (1.0 * 0.0 + 0.0 * 0.0) == 0.0;
    assert g.z == 1.0 * 1.0 - 0.0 * 0.0 - 0.0 * 0.0 + 0.0 * 0.0 == 1.0;
  }

  function NormSquared(q: Quaternion): real
  {
    q.w * q.w + q.x * q.x + q.y * q.y + q.z * q.z
  }

  /** The gravity vector's squared length is the square of the quaternion's squared norm: unit in, unit out. */
  lemma GravityLength(q: Quaternion)
    ensures var g := GetGravity(q);
      g.x * g.x + g.y * g.y + g.z * g.z == NormSquared(q) * NormSquared(q)
    ensures NormSquared(q) == 1.0 ==> var g := GetGravity(q); g.x * g.x + g.y * g.y + g.z * g.z == 1.0
  {
    var w, x, y, z := q.w, q.x, q.y, q.z;
    var g := GetGravity(q);
    var outer, inner := w * w + z * z, x * x + y * y;
    HorizontalGravity(w, x, y, z);
    assert g.z == outer - inner;
    assert g.x * g.x + g.y * g.y == 4.0 * outer * inner;
    SquareOfDifference(outer, inner);
    SquareOfSum(outer, inner);
    assert NormSquared(q) == outer + inner;
  }

  /** The horizontal part of the gravity vector: |g.xy|^2 == 4 (w^2 + z^2)(x^2 + y^2). */
  lemma HorizontalGravity(w: real, x: real, y: real, z: real)
    ensures 4.0 * (x * z - w * y) * (x * z - w * y) + 4.0 * (w * x + y * z) * (w * x + y * z)
         == 4.0 * (w * w + z * z) * (x * x + y * y)
  {
    var p, q, r, s := x * z, w * y, w * x, y * z;
    assert p * q == r * s;
    assert (p - q) * (p - q) == p * p - 2.0 * p * q + q * q;
    assert (r + s) * (r + s) == r * r + 2.0 * r * s + s * s;
    assert p * p == (x * x) * (z * z);
    assert q * q == (w * w) * (y * y);
    assert r * r == (w * w) * (x * x);
    assert s * s == (y * y) * (z * z);
    assert (w * w + z * z) * (x * x + y * y) == (w * w) * (x * x) + (w * w) * (y * y) + (z * z) * (x * x) + (z * z) * (y * y);
  }

  lemma SquareOfDifference(a: real, b: real)
    ensures (a - b) * (a - b) == a * a - 2.0 * a * b + b * b
  {
  }

  lemma SquareOfSum(a: real, b: real)
    ensures (a + b) * (a + b) == a * a + 2.0 * a * b + b * b
  {
  }

  // ---------------------------------------------------------------------------
  // Discovery

  /** A characteristic is listed as a report iff it has the HID Report UUID. */
  function Listed(c: GattCharacteristic): seq<GattCharacteristic>
  {
    if c.uuid == HID_REPORT then [c] else []
  }

  /** The HID report characteristics of a service, in enumeration order. */
  function HidReports(chars: seq<GattCharacteristic>): (r: seq<GattCharacteristic>)
    ensures |r| <= |chars|
  {
    if chars == [] then [] else HidReports(chars[..|chars| - 1]) + Listed(chars[|chars| - 1])
  }

  /** Every listed report is a HID report of the service, and every HID report of the service is listed. */
  lemma {:induction false} HidReportsExactly(chars: seq<GattCharacteristic>, c: GattCharacteristic)
    ensures c in HidReports(chars) <==> c in chars && c.uuid == HID_REPORT
  {
    if chars != [] {
      var init := chars[..|chars| - 1];
      HidReportsExactly(init, c);
      assert chars == init + [chars[|chars| - 1]];
    }
  }

  /** Listing the reports of two runs of characteristics is listing each in turn. */
  lemma {:induction false} HidReportsAppend(a: seq<GattCharacteristic>, b: seq<GattCharacteristic>)
    ensures HidReports(a + b) == HidReports(a) + HidReports(b)
  {
    if b == [] {
      assert a + b == a;
    } else {
      var init := b[..|b| - 1];
      assert (a + b)[..|a + b| - 1] == a + init;
      HidReportsAppend(a, init);
    }
  }

  /** The requests made for one characteristic of the HID service. */
  function ReportSetup(c: GattCharacteristic): seq<GattEvent>
  {
    if c.uuid == HID_REPORT && c.properties & PROPERTY_NOTIFY != 0 then
      [NotificationEnabled(c)] + (if c.hasClientConfig then [DescriptorWritten(c)] else [])
    else []
  }

  /** The requests made for the characteristics of the HID service, in enumeration order. */
  function SetupEvents(chars: seq<GattCharacteristic>): seq<GattEvent>
  {
    if chars == [] then [] else SetupEvents(chars[..|chars| - 1]) + ReportSetup(chars[|chars| - 1])
  }

  /** Notification is enabled on exactly the HID reports of the service that can notify. */
  lemma {:induction false} NotificationExactly(chars: seq<GattCharacteristic>, c: GattCharacteristic)
    ensures NotificationEnabled(c) in SetupEvents(chars)
        <==> c in chars && c.uuid == HID_REPORT && c.properties & PROPERTY_NOTIFY != 0
  {
    if chars != [] {
      var init := chars[..|chars| - 1];
      NotificationExactly(init, c);
      assert chars == init + [chars[|chars| - 1]];
    }
  }

  /** The first characteristic of the service with the given UUID (BluetoothGattService.getCharacteristic). */
  function FirstWithUuid(chars: seq<GattCharacteristic>, uuid: uint16): (c: Option<GattCharacteristic>)
    ensures c.None? <==> forall j :: 0 <= j < |chars| ==> chars[j].uuid != uuid
    ensures c.Some? ==> c.value in chars && c.value.uuid == uuid
  {
    if chars == [] then None
    else if chars[0].uuid == uuid then Some(chars[0])
    else FirstWithUuid(chars[1..], uuid)
  }

  /** The read of the service's report map, if it has one. */
  function ReportMapRead(chars: seq<GattCharacteristic>): seq<GattEvent>
  {
    match FirstWithUuid(chars, HID_REPORT_MAP)
    case Some(c) => [ReadRequest(c)]
    case None => []
  }

  /**
   * The bytes the detection test reads are present: byte 1, and byte 3 when
   * byte 1 is the glove page (the test stops at a mismatch of byte 1).
   */
  predicate DetectionReadable(map_: seq<uint8>)
  {
    |map_| >= 2 && (map_[1] == GLOVE_PAGE ==> |map_| >= 4)
  }

  /** The report map of a glove: usage page 0x03 at byte 1 and usage 0x04 at byte 3. */
  predicate IsGloveReportMap(map_: seq<uint8>)
    requires DetectionReadable(map_)
  {
    map_[1] == GLOVE_PAGE && map_[3] == GLOVE_USAGE
  }

  // ---------------------------------------------------------------------------
  // The session

  class Glove {
    /** mReportMap */
    var reportMap: Option<seq<uint8>>
    /** mQuat */
    var quat: Quaternion
    /** mAccel */
    var accel: Vector
    /** mCompass */
    var compass: Vector
    /** mReports */
    var reports: seq<GattCharacteristic>
    /** mConnectionState */
    var connectionState: int
    /** Requests to the GATT stack and callbacks to the application, in order. */
    var events: seq<GattEvent>

    /** A new session: no report map, zero readings, no reports, disconnected. */
    constructor ()
      ensures reportMap.None? && reports == [] && events == []
      ensures quat == Quaternion(0.0, 0.0, 0.0, 0.0) && accel == Vector(0.0, 0.0, 0.0) && compass == Vector(0.0, 0.0, 0.0)
      ensures connectionState == STATE_DISCONNECTED && !IsConnected()
    {
      reportMap := None;
      quat := Quaternion(0.0, 0.0, 0.0, 0.0);
      accel := Vector(0.0, 0.0, 0.0);
      compass := Vector(0.0, 0.0, 0.0);
      reports := [];
      connectionState := STATE_DISCONNECTED;
      events := [];
    }

    predicate IsConnected()
      reads this
    {
      connectionState == STATE_CONNECTED
    }

    /**
     * A report changed. The primary input report (the first listed) updates
     * the quaternion and the acceleration and notifies the application; any
     * other is a compass report, whose reading is fused into the quaternion.
     * The fusion result is passed in.
     */
    method OnCharacteristicChanged(report: GattCharacteristic, value: seq<uint8>, fused: Quaternion)
      requires |reports| > 0 && reports[0] == report ==> |value| >= 14
      requires !(|reports| > 0 && reports[0] == report) ==> |value| >= 6
      modifies this`quat, this`accel, this`compass, this`events
      ensures |old(reports)| > 0 && old(reports)[0] == report ==>
                && quat == DecodeQuaternion(value) && accel == DecodeAcceleration(value)
                && compass == old(compass) && events == old(events) + [Changed]
      ensures !(|old(reports)| > 0 && old(reports)[0] == report) ==>
                && compass == DecodeCompass(value) && quat == fused
                && accel == old(accel) && events == old(events)
    {
      if |reports| > 0 && reports[0] == report {
        quat := DecodeQuaternion(value);
        accel := DecodeAcceleration(value);
        events := events + [Changed];
      } else {
        compass := DecodeCompass(value);
        quat := fused;
      }
    }

    /**
     * Records the service-discovery state change; discovery is requested only
     * on a successful change to connected while no services are known.
     */
    method OnConnectionStateChange(status: int, newState: int, servicesEmpty: bool)
      modifies this`connectionState, this`events
      ensures connectionState == newState
      ensures IsConnected() <==> newState == STATE_CONNECTED
      ensures events == old(events) + (if status == GATT_SUCCESS && newState == STATE_CONNECTED && servicesEmpty
                                       then [DiscoverServicesRequest] else [])
    {
      connectionState := newState;
      if status == GATT_SUCCESS && newState == STATE_CONNECTED && servicesEmpty {
        events := events + [DiscoverServicesRequest];
      }
    }

    /**
     * Services discovered. On success with a HID service: requests a read of
     * its report map, enables notification on each HID report that supports
     * it, and appends every HID report, in order, to the report list.
     */
    method OnServicesDiscovered(status: int, service: Option<seq<GattCharacteristic>>)
      modifies this`reports, this`events
      ensures status == GATT_SUCCESS && service.Some? ==>
                && reports == old(reports) + HidReports(service.value)
                && events == old(events) + ReportMapRead(service.value) + SetupEvents(service.value)
      ensures !(status == GATT_SUCCESS && service.Some?) ==> reports == old(reports) && events == old(events)
    {
      if status != GATT_SUCCESS || service.None? {
        return;
      }
      var chars := service.value;

      var reportChar := FirstWithUuid(chars, HID_REPORT_MAP);
      if reportChar.Some? {
        events := events + [ReadRequest(reportChar.value)];
      }
      assert events == old(events) + ReportMapRead(chars);
      ListReports(chars);
    }

    /** The loop over the HID service's characteristics: each is set up and listed in turn. */
    method ListReports(chars: seq<GattCharacteristic>)
      modifies this`reports, this`events
      ensures reports == old(reports) + HidReports(chars)
      ensures events == old(events) + SetupEvents(chars)
    {
      for i := 0 to |chars|
        invariant reports == old(reports) + HidReports(chars[..i])
        invariant events == old(events) + SetupEvents(chars[..i])
      {
        assert chars[..i + 1][..i] == chars[..i];
        AddCharacteristic(chars[i]);
      }
      assert chars[..|chars|] == chars;
    }

    /** One characteristic of the HID service during discovery: a HID report is set up for notification and listed. */
    method AddCharacteristic(report: GattCharacteristic)
      modifies this`reports, this`events
      ensures reports == old(reports) + Listed(report)
      ensures events == old(events) + ReportSetup(report)
    {
      if report.uuid == HID_REPORT {
        // Enable notification if the report supports it
        if report.properties & PROPERTY_NOTIFY != 0 {
          events := events + [NotificationEnabled(report)];
          if report.hasClientConfig {
            events := events + [DescriptorWritten(report)];
          }
        }
        reports := reports + [report];
      }
    }

    /**
     * A characteristic was read. For the report map: stores it and tells the
     * application whether the device is a glove; a glove then has its
     * feature report (the third listed report) read, anything else is closed.
     */
    method OnCharacteristicRead(characteristic: GattCharacteristic, value: seq<uint8>)
      requires characteristic.uuid == HID_REPORT_MAP ==> DetectionReadable(value)
      requires characteristic.uuid == HID_REPORT_MAP && IsGloveReportMap(value) ==> |reports| > 2
      modifies this`reportMap, this`events
      ensures characteristic.uuid != HID_REPORT_MAP ==> reportMap == old(reportMap) && events == old(events)
      ensures characteristic.uuid == HID_REPORT_MAP ==> reportMap == Some(value)
      ensures characteristic.uuid == HID_REPORT_MAP && IsGloveReportMap(value) ==>
                events == old(events) + [Detected(true), ReadRequest(reports[2])]
      ensures characteristic.uuid == HID_REPORT_MAP && !IsGloveReportMap(value) ==>
                events == old(events) + [Detected(false), Closed]
    {
      if characteristic.uuid == HID_REPORT_MAP {
        reportMap := Some(value);

        if value[1] == GLOVE_PAGE && value[3] == GLOVE_USAGE {
          events := events + [Detected(true)];
          events := events + [ReadRequest(reports[2])];
        } else {
          events := events + [Detected(false)];
          events := events + [Closed];
        }
      }
    }
  }

  /** Detection accepts a report map exactly when byte 1 is 0x03 and byte 3 is 0x04, whatever the other bytes are. */
  lemma GloveDetection(m: seq<uint8>, n: seq<uint8>)
    requires |m| >= 4 && |n| >= 4 && m[1] == n[1] && m[3] == n[3]
    ensures IsGloveReportMap(m) == IsGloveReportMap(n)
    ensures IsGloveReportMap([0x05, 0x03, 0x09, 0x04]) && !IsGloveReportMap([0x05, 0x01, 0x09, 0x04])
  {
  }
}
