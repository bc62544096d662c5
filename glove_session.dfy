/**
 * One glove session over a Bluetooth LE GATT link (Manus/Manus/Glove.cpp).
 *
 * The Windows GATT calls are not modelled; what they answer is passed in as
 * values (ConnectReply, ReadReply, DescriptorReply, and a `deviceAccepts`
 * flag for each value write). The calls the session makes that change the
 * device or release an OS resource are recorded, in order, in `calls`.
 */
module GloveSession {
  import opened Wrappers
  import opened Wire
  import opened ManusTypes

  // Fixed-point divisors of the sensor fields.
  const ACCEL_DIVISOR: real := 16384.0
  const QUAT_DIVISOR: real := 16384.0
  const FINGER_DIVISOR: real := 255.0
  const UINT16_MAX: nat := 0xFFFF

  /**
   * The short UUIDs the session looks for. Their numeric values are declared
   * in a header that is not part of this model, so they are named here.
   */
  datatype ShortUuid = GloveReportUuid | GloveFlagsUuid | GloveCalibUuid | GloveRumbleUuid | OtherUuid(value: uint16)

  /** One entry of the characteristic table (BTH_LE_GATT_CHARACTERISTIC). */
  datatype Characteristic = Characteristic(attributeHandle: uint16, uuid: ShortUuid)

  /**
   * What the device answers to the two-phase value read: the size reported by
   * the sizing call, whether the fetch succeeded, and the DataSize bytes it returned.
   */
  datatype ReadReply = ReadReply(requiredSize: nat, succeeded: bool, value: seq<uint8>)

  datatype DescriptorType = ClientCharacteristicConfiguration | OtherDescriptor

  /** What the device answers to the descriptor enumeration and to the descriptor write. */
  datatype DescriptorReply = DescriptorReply(requiredSize: nat, succeeded: bool, descriptors: seq<DescriptorType>, setSucceeded: bool)

  /** A characteristic found by discovery, with the device's answers for it. */
  datatype Discovered = Discovered(characteristic: Characteristic, read: ReadReply, descriptors: DescriptorReply)

  /**
   * The device's answers during Connect: the open of the service handle, the
   * sizing call and the fetch of the characteristic table, and the event registration.
   */
  datatype ConnectReply = ConnectReply(openSucceeded: bool, requiredSize: nat, listSucceeded: bool,
                                       discovered: seq<Discovered>, registerSucceeded: bool)

  /** The value written to a client characteristic configuration descriptor. */
  datatype CccdWrite = CccdWrite(descriptorIndex: nat, notify: bool, indicate: bool)

  /** Calls into the OS that write to the device or release a resource. */
  datatype DeviceCall =
    | WriteValue(characteristic: Characteristic, data: seq<uint8>)
    | WriteDescriptor(characteristic: Characteristic, write: CccdWrite)
    | UnregisterEvent
    | FreeEventBuffer
    | CloseService
    | FreeCharacteristics

  // ---------------------------------------------------------------------------
  // Decoding of a report into a sample

  /** GetHand: bit 0x1 of the flags selects the right hand. */
  function HandOf(flags: bv8): Hand
  {
    if flags & GLOVE_FLAGS_HANDEDNESS != 0 then Right else Left
  }

  lemma HandednessBit(flags: bv8)
    ensures HandOf(flags) == Right <==> flags & 1 == 1
    ensures HandOf(flags) == Left <==> flags & 1 == 0
  {
  }

  /** The finger channels in hand-invariant order: device order for the right hand, mirrored for the left. */
  function FingerOrder(raw: seq<uint8>, hand: Hand): (f: seq<real>)
    requires |raw| == GLOVE_FINGERS
    ensures |f| == GLOVE_FINGERS
  {
    seq(GLOVE_FINGERS, i requires 0 <= i < GLOVE_FINGERS =>
      (if hand == Right then raw[i] else raw[GLOVE_FINGERS - (i + 1)]) as real / FINGER_DIVISOR)
  }

  /** The sample UpdateState computes from a report, the hand and the new packet number. */
  function DecodeSample(rep: GloveReport, hand: Hand, packetNumber: nat): (d: GloveData)
    requires rep.WellFormed()
  {
    GloveData(packetNumber,
              Vector(rep.accel[0] as real / ACCEL_DIVISOR,
                     rep.accel[1] as real / ACCEL_DIVISOR,
                     rep.accel[2] as real / ACCEL_DIVISOR),
              Quaternion(rep.quat[0] as real / QUAT_DIVISOR,
                         rep.quat[1] as real / QUAT_DIVISOR,
                         rep.quat[2] as real / QUAT_DIVISOR,
                         rep.quat[3] as real / QUAT_DIVISOR),
              FingerOrder(rep.fingers, hand))
  }

  function Reverse<T>(s: seq<T>): (r: seq<T>)
    ensures |r| == |s|
  {
    if s == [] then [] else [s[|s| - 1]] + Reverse(s[..|s| - 1])
  }

  lemma {:induction false} ReverseIndex<T>(s: seq<T>, k: nat)
    requires k < |s|
    ensures Reverse(s)[k] == s[|s| - 1 - k]
  {
    if k > 0 {
      ReverseIndex(s[..|s| - 1], k - 1);
    }
  }

  function Normalized(raw: seq<uint8>): (f: seq<real>)
    ensures |f| == |raw|
  {
    seq(|raw|, i requires 0 <= i < |raw| => raw[i] as real / FINGER_DIVISOR)
  }

  /** Finger i of the decoded sample: raw[i] for the right hand, raw[4 - i] for the left, over 255. */
  lemma FingerOrderAt(raw: seq<uint8>, hand: Hand, i: nat)
    requires |raw| == GLOVE_FINGERS && i < GLOVE_FINGERS
    ensures FingerOrder(raw, hand)[i] == (if hand == Right then raw[i] else raw[4 - i]) as real / 255.0
  {
  }

  /** Right hand: the channels in device order. */
  lemma FingerOrderRight(raw: seq<uint8>)
    requires |raw| == GLOVE_FINGERS
    ensures FingerOrder(raw, Right) == Normalized(raw)
  {
    var right, normalized := FingerOrder(raw, Right), Normalized(raw);
    forall k | 0 <= k < GLOVE_FINGERS
      ensures right[k] == normalized[k]
    {
      FingerOrderAt(raw, Right, k);
    }
  }

  /** Left hand: exactly the reverse of the right-hand order. */
  lemma FingerOrderMirrors(raw: seq<uint8>)
    requires |raw| == GLOVE_FINGERS
    ensures FingerOrder(raw, Left) == Normalized(Reverse(raw))
    ensures FingerOrder(raw, Left) == Reverse(FingerOrder(raw, Right))
  {
    var left, right := FingerOrder(raw, Left), FingerOrder(raw, Right);
    var mirrored, reversed := Normalized(Reverse(raw)), Reverse(right);
    forall k | 0 <= k < GLOVE_FINGERS
      ensures left[k] == mirrored[k] && left[k] == reversed[k]
    {
      ReverseIndex(raw, k);
      ReverseIndex(right, k);
      FingerOrderAt(raw, Left, k);
      FingerOrderAt(raw, Right, 4 - k);
    }
  }

  /** Every decoded finger value lies in [0, 1]; every other component lies in [-2, 2). */
  lemma DecodeSampleRanges(rep: GloveReport, hand: Hand, packetNumber: nat)
    requires rep.WellFormed()
    ensures var d := DecodeSample(rep, hand, packetNumber);
      && d.packetNumber == packetNumber
      && |d.fingers| == GLOVE_FINGERS
      && (forall i :: 0 <= i < GLOVE_FINGERS ==> 0.0 <= d.fingers[i] <= 1.0)
      && -2.0 <= d.acceleration.x < 2.0 && -2.0 <= d.acceleration.y < 2.0 && -2.0 <= d.acceleration.z < 2.0
      && -2.0 <= d.quaternion.w < 2.0 && -2.0 <= d.quaternion.x < 2.0
      && -2.0 <= d.quaternion.y < 2.0 && -2.0 <= d.quaternion.z < 2.0
  {
  }

  /** Acceleration and quaternion share the same scale: raw 16384 is exactly 1.0 and raw 0 is 0.0. */
  lemma DecodeSampleScale(rep: GloveReport, hand: Hand, packetNumber: nat, i: nat)
    requires rep.WellFormed() && i < GLOVE_QUATS
    ensures var d := DecodeSample(rep, hand, packetNumber);
      var q := [d.quaternion.w, d.quaternion.x, d.quaternion.y, d.quaternion.z];
      var a := [d.acceleration.x, d.acceleration.y, d.acceleration.z];
      && q[i] * 16384.0 == rep.quat[i] as real
      && (rep.quat[i] == 16384 ==> q[i] == 1.0) && (rep.quat[i] == 0 ==> q[i] == 0.0)
      && (i < GLOVE_AXES ==> a[i] * 16384.0 == rep.accel[i] as real)
      && (i < GLOVE_AXES && rep.accel[i] == 16384 ==> a[i] == 1.0)
      && (i < GLOVE_AXES && rep.accel[i] == 0 ==> a[i] == 0.0)
  {
  }

  /**
   * A right-hand report with quat (16384,0,0,0), accel (0,0,16384) and
   * fingers (0,64,128,192,255), decoded as the first packet: unit
   * acceleration along z, the identity quaternion, and the finger bytes over 255.
   */
  lemma DecodeExample()
    ensures var rep := GloveReport(GLOVE_FLAGS_HANDEDNESS as int, [0x4000, 0, 0, 0], [0, 0, 0x4000], [0, 64, 128, 192, 255]);
      && rep.WellFormed()
      && DecodeSample(rep, HandOf(rep.flags as bv8), 1)
         == GloveData(1, Vector(0.0, 0.0, 1.0), Quaternion(1.0, 0.0, 0.0, 0.0),
                      [0.0, 64.0 / 255.0, 128.0 / 255.0, 192.0 / 255.0, 1.0])
  {
    var rep := GloveReport(GLOVE_FLAGS_HANDEDNESS as int, [0x4000, 0, 0, 0], [0, 0, 0x4000], [0, 64, 128, 192, 255]);
    assert HandOf(rep.flags as bv8) == Right;
    assert FingerOrder(rep.fingers, Right) == [0.0, 64.0 / 255.0, 128.0 / 255.0, 192.0 / 255.0, 1.0];
  }

  // ---------------------------------------------------------------------------
  // Characteristic transport

  /** The bytes ReadCharacteristic leaves in a destination buffer of `length` bytes. */
  function ReadEffect(reply: ReadReply, dest: seq<uint8>, length: nat): (out: seq<uint8>)
    requires |dest| == length
    ensures |out| == length
  {
    if reply.requiredSize > 0 && reply.succeeded && |reply.value| <= length
    then reply.value + dest[|reply.value|..]
    else dest
  }

  /** Reading the same answer twice leaves the buffer as one read does. */
  lemma ReadEffectIdempotent(reply: ReadReply, dest: seq<uint8>, length: nat)
    requires |dest| == length
    ensures ReadEffect(reply, ReadEffect(reply, dest, length), length) == ReadEffect(reply, dest, length)
  {
    var once := ReadEffect(reply, dest, length);
    if reply.requiredSize > 0 && reply.succeeded && |reply.value| <= length {
      assert once[|reply.value|..] == dest[|reply.value|..];
    }
  }

  /** Index of the first table entry with the given short UUID, or |table| when none has it. */
  function FirstIndex(table: seq<Characteristic>, id: ShortUuid): (k: nat)
    ensures k <= |table|
    ensures forall j :: 0 <= j < k ==> table[j].uuid != id
    ensures k < |table| ==> table[k].uuid == id
  {
    if table == [] then 0
    else if table[0].uuid == id then 0
    else 1 + FirstIndex(table[1..], id)
  }

  function FirstWithUuid(table: seq<Characteristic>, id: ShortUuid): (c: Option<Characteristic>)
    ensures c.None? <==> forall j :: 0 <= j < |table| ==> table[j].uuid != id
    ensures c.Some? ==> c.value.uuid == id && c.value in table
  {
    var k := FirstIndex(table, id);
    if k < |table| then Some(table[k]) else None
  }

  /** Index of the first client characteristic configuration descriptor, or |ds| when there is none. */
  function FirstCccd(ds: seq<DescriptorType>): (k: nat)
    ensures k <= |ds|
    ensures forall j :: 0 <= j < k ==> ds[j] != ClientCharacteristicConfiguration
    ensures k < |ds| ==> ds[k] == ClientCharacteristicConfiguration
  {
    if ds == [] then 0
    else if ds[0] == ClientCharacteristicConfiguration then 0
    else 1 + FirstCccd(ds[1..])
  }

  /**
   * The descriptor write ConfigureCharacteristic makes for a characteristic:
   * one write to its first client configuration descriptor, when the
   * enumeration is sized, succeeds and has one; otherwise none.
   */
  function Subscription(c: Characteristic, reply: DescriptorReply, notify: bool, indicate: bool): (w: seq<DeviceCall>)
    ensures |w| <= 1
    ensures w != [] <==> reply.requiredSize > 0 && reply.succeeded
                         && exists i :: 0 <= i < |reply.descriptors| && reply.descriptors[i] == ClientCharacteristicConfiguration
    ensures w != [] ==> w[0] == WriteDescriptor(c, CccdWrite(FirstCccd(reply.descriptors), notify, indicate))
  {
    var k := FirstCccd(reply.descriptors);
    if reply.requiredSize > 0 && reply.succeeded && k < |reply.descriptors|
    then [WriteDescriptor(c, CccdWrite(k, notify, indicate))]
    else []
  }

  /** The descriptor writes of Connect's pass: a notification subscription for each report characteristic, in table order. */
  function Subscriptions(ds: seq<Discovered>): seq<DeviceCall>
  {
    if ds == [] then []
    else
      var d := ds[|ds| - 1];
      Subscriptions(ds[..|ds| - 1])
      + (if d.characteristic.uuid == GloveReportUuid then Subscription(d.characteristic, d.descriptors, true, false) else [])
  }

  /** The pass writes only notification subscriptions of report characteristics, at most one per table entry, and no value. */
  lemma {:induction false} SubscriptionsOnlyReports(ds: seq<Discovered>)
    ensures var w := Subscriptions(ds);
      && |w| <= |ds|
      && (forall i :: 0 <= i < |w| ==>
            w[i].WriteDescriptor? && w[i].characteristic.uuid == GloveReportUuid
            && w[i].write.notify && !w[i].write.indicate)
  {
    if ds != [] {
      SubscriptionsOnlyReports(ds[..|ds| - 1]);
    }
  }

  /** Every report characteristic that offers a configuration descriptor gets its subscription. */
  lemma {:induction false} SubscriptionsCoverReports(ds: seq<Discovered>, i: nat)
    requires i < |ds| && ds[i].characteristic.uuid == GloveReportUuid
    ensures var w := Subscription(ds[i].characteristic, ds[i].descriptors, true, false);
      w != [] ==> w[0] in Subscriptions(ds)
  {
    if i < |ds| - 1 {
      assert ds[..|ds| - 1][i] == ds[i];
      SubscriptionsCoverReports(ds[..|ds| - 1], i);
    }
  }

  /** The releases Disconnect performs given which resources are held, in its order. */
  function Releases(registered: bool, eventBuffer: bool, serviceOpen: bool, tableHeld: bool): seq<DeviceCall>
  {
    ReleaseIf(registered, UnregisterEvent) + ReleaseIf(eventBuffer, FreeEventBuffer)
    + ReleaseIf(serviceOpen, CloseService) + ReleaseIf(tableHeld, FreeCharacteristics)
  }

  /** One release, made only when the resource is held. */
  function ReleaseIf(held: bool, release: DeviceCall): seq<DeviceCall>
  {
    if held then [release] else []
  }

  /** Logging the releases one at a time logs Releases. */
  lemma ReleasesInTurn(log: seq<DeviceCall>, registered: bool, eventBuffer: bool, serviceOpen: bool, tableHeld: bool)
    ensures log + Releases(registered, eventBuffer, serviceOpen, tableHeld)
         == log + ReleaseIf(registered, UnregisterEvent) + ReleaseIf(eventBuffer, FreeEventBuffer)
            + ReleaseIf(serviceOpen, CloseService) + ReleaseIf(tableHeld, FreeCharacteristics)
  {
  }

  /** Each held resource is released, nothing that is not held is released, and nothing is written. */
  lemma ReleasesEachHeld(registered: bool, eventBuffer: bool, serviceOpen: bool, tableHeld: bool)
    ensures var r := Releases(registered, eventBuffer, serviceOpen, tableHeld);
      && (UnregisterEvent in r <==> registered)
      && (FreeEventBuffer in r <==> eventBuffer)
      && (CloseService in r <==> serviceOpen)
      && (FreeCharacteristics in r <==> tableHeld)
      && (forall i :: 0 <= i < |r| ==> !r[i].WriteValue?)
  {
  }

  /** No resource is released twice, so at most the four resources are released. */
  lemma ReleasesOnce(registered: bool, eventBuffer: bool, serviceOpen: bool, tableHeld: bool)
    ensures var r := Releases(registered, eventBuffer, serviceOpen, tableHeld);
      && |r| <= 4
      && (forall i, j :: 0 <= i < j < |r| ==> r[i] != r[j])
  {
    var r := Releases(registered, eventBuffer, serviceOpen, tableHeld);
    forall i, j | 0 <= i < j < |r|
      ensures r[i] != r[j]
    {
      // The releases appear in a fixed order, so a later one has a higher rank.
      assert Rank(r[i]) < Rank(r[j]) by { ReleasesRanked(registered, eventBuffer, serviceOpen, tableHeld, i, j); }
    }
  }

  /** The position of a release in Disconnect's order. */
  function Rank(c: DeviceCall): nat
  {
    match c
    case UnregisterEvent => 0
    case FreeEventBuffer => 1
    case CloseService => 2
    case FreeCharacteristics => 3
    case _ => 4
  }

  /** The releases are logged in strictly increasing rank. */
  lemma ReleasesRanked(registered: bool, eventBuffer: bool, serviceOpen: bool, tableHeld: bool, i: nat, j: nat)
    requires i < j < |Releases(registered, eventBuffer, serviceOpen, tableHeld)|
    ensures var r := Releases(registered, eventBuffer, serviceOpen, tableHeld);
      Rank(r[i]) < Rank(r[j])
  {
  }

  function CharacteristicsOf(ds: seq<Discovered>): (t: seq<Characteristic>)
    ensures |t| == |ds|
  {
    seq(|ds|, i requires 0 <= i < |ds| => ds[i].characteristic)
  }

  /** The registration copies one characteristic: the first entry of the table. */
  function FirstEntry(table: seq<Characteristic>): (w: seq<Characteristic>)
    ensures |w| <= 1
    ensures |table| > 0 ==> w == [table[0]]
  {
    if |table| == 0 then [] else table[..1]
  }

  /**
   * The destination buffer after Connect's discovery pass has read every
   * characteristic with the given UUID into it, in table order.
   */
  function SeedFrom(ds: seq<Discovered>, id: ShortUuid, dest: seq<uint8>): (out: seq<uint8>)
    ensures |out| == |dest|
  {
    if ds == [] then dest
    else
      var prev := SeedFrom(ds[..|ds| - 1], id, dest);
      var d := ds[|ds| - 1];
      if d.characteristic.uuid == id then ReadEffect(d.read, prev, |prev|) else prev
  }

  /** One more table entry: SeedFrom applies that entry's read if its UUID matches. */
  lemma SeedFromStep(ds: seq<Discovered>, i: nat, id: ShortUuid, dest: seq<uint8>)
    requires i < |ds|
    ensures SeedFrom(ds[..i + 1], id, dest)
         == (var prev := SeedFrom(ds[..i], id, dest);
             if ds[i].characteristic.uuid == id then ReadEffect(ds[i].read, prev, |prev|) else prev)
  {
    assert ds[..i + 1][..i] == ds[..i];
  }

  /** The flags cache after discovery: the one-byte buffer seeded from every flags characteristic. */
  function SeededFlags(ds: seq<Discovered>, flags: bv8): bv8
  {
    SeedFrom(ds, GloveFlagsUuid, [flags as int])[0] as bv8
  }

  /** Without a characteristic of that UUID, discovery leaves the buffer as it was. */
  lemma {:induction false} SeedFromNoMatch(ds: seq<Discovered>, id: ShortUuid, dest: seq<uint8>)
    requires forall i :: 0 <= i < |ds| ==> ds[i].characteristic.uuid != id
    ensures SeedFrom(ds, id, dest) == dest
  {
    if ds != [] {
      SeedFromNoMatch(ds[..|ds| - 1], id, dest);
    }
  }

  /** Connect opens and sizes the table. */
  predicate TableAllocated(reply: ConnectReply)
  {
    reply.openSucceeded && reply.requiredSize > 0
  }

  /** Connect walks the table and registers for events. */
  predicate DiscoveryRuns(reply: ConnectReply)
  {
    TableAllocated(reply) && reply.listSucceeded
  }

  /** The session is connected after Connect: only the registration decides, not the descriptor configuration. */
  predicate ConnectSucceeds(reply: ConnectReply)
  {
    DiscoveryRuns(reply) && reply.registerSucceeded
  }

  /** SetVibration's clamp and scale: power in [0, 1] mapped to the full uint16 range, truncated. */
  function RumbleValue(power: real): (v: uint16)
    ensures power <= 0.0 ==> v == 0
    ensures power >= 1.0 ==> v == UINT16_MAX
    ensures 0.0 < power < 1.0 ==> v as real <= power * 65535.0 < v as real + 1.0
  {
    var p := if power < 0.0 then 0.0 else if power > 1.0 then 1.0 else power;
    (p * 65535.0).Floor
  }

  /** More power never gives a weaker rumble. */
  lemma RumbleValueMonotonic(p: real, q: real)
    requires p <= q
    ensures RumbleValue(p) <= RumbleValue(q)
  {
    var cp := if p < 0.0 then 0.0 else if p > 1.0 then 1.0 else p;
    var cq := if q < 0.0 then 0.0 else if q > 1.0 then 1.0 else q;
    assert cp * 65535.0 <= cq * 65535.0;
  }

  /** Out-of-range power is corrected to the nearest end: -1 acts as 0 and 2 acts as 1. */
  lemma RumbleValueClamps(p: real)
    ensures RumbleValue(p) == RumbleValue(if p < 0.0 then 0.0 else if p > 1.0 then 1.0 else p)
    ensures RumbleValue(-1.0) == RumbleValue(0.0) == 0
    ensures RumbleValue(2.0) == RumbleValue(1.0) == UINT16_MAX
  {
  }

  /** The write SetFlags sends: the flags byte to the first flags characteristic, if the table has one. */
  function FlagsWrite(table: seq<Characteristic>, flags: bv8): seq<DeviceCall>
  {
    match FirstWithUuid(table, GloveFlagsUuid)
    case Some(c) => [WriteValue(c, [flags as int])]
    case None => []
  }

  /** The write SetVibration sends: the output report to the first rumble characteristic, if the table has one. */
  function VibrationWrite(table: seq<Characteristic>, power: real): seq<DeviceCall>
  {
    match FirstWithUuid(table, GloveRumbleUuid)
    case Some(c) => [WriteValue(c, SerializeOutputReport(GloveOutputReport(RumbleValue(power))))]
    case None => []
  }

  // ---------------------------------------------------------------------------
  // The session state as a value

  /**
   * What a session holds besides its device path and calibration size: the
   * state that Connect, Disconnect and the value writes change.
   */
  datatype Session = Session(connected: bool, serviceOpen: bool, characteristicsHeld: bool,
                             characteristics: seq<Characteristic>, eventRegistered: bool,
                             eventBuffer: Option<seq<Characteristic>>, flags: bv8, calib: seq<uint8>,
                             report: seq<uint8>, data: GloveData, calls: seq<DeviceCall>)

  /** A session before its first Connect: nothing held, caches and sample zero, nothing logged. */
  function Initial(calibSize: nat): Session
  {
    Session(false, false, false, [], false, None, 0, seq(calibSize, _ => 0), seq(GLOVE_REPORT_SIZE, _ => 0),
            GloveData(0, Vector(0.0, 0.0, 0.0), Quaternion(0.0, 0.0, 0.0, 0.0), seq(GLOVE_FINGERS, _ => 0.0)), [])
  }

  /** Disconnect: the session is marked down and each held resource is released, in order. */
  function TearDown(s: Session): Session
  {
    s.(connected := false, eventRegistered := false, eventBuffer := None, serviceOpen := false,
       characteristicsHeld := false,
       calls := s.calls + Releases(s.eventRegistered, s.eventBuffer.Some?, s.serviceOpen, s.characteristicsHeld))
  }

  /**
   * Connect after its teardown step: the service handle is opened; if the
   * table can be sized it is allocated and fetched; if the fetch succeeds,
   * the report characteristics are subscribed, the flag and calibration
   * caches are read, the first table entry is watched and the event
   * registration decides the connection.
   */
  function Opened(s: Session, reply: ConnectReply): Session
  {
    if !reply.openSucceeded then s.(serviceOpen := false)
    else if reply.requiredSize == 0 then s.(serviceOpen := true)
    else
      var table := CharacteristicsOf(reply.discovered);
      var sized := s.(serviceOpen := true, characteristicsHeld := true, characteristics := table);
      if !reply.listSucceeded then sized
      else sized.(flags := SeededFlags(reply.discovered, s.flags),
                  calib := SeedFrom(reply.discovered, GloveCalibUuid, s.calib),
                  calls := s.calls + Subscriptions(reply.discovered),
                  eventBuffer := Some(FirstEntry(table)),
                  eventRegistered := reply.registerSucceeded,
                  connected := reply.registerSucceeded)
  }

  /** Connect: a live connection is torn down first, then the service is opened again. */
  function Reconnected(s: Session, reply: ConnectReply): Session
  {
    Opened(if s.connected then TearDown(s) else s, reply)
  }

  /** SetFlags: the cache takes the new flags and the flags write is logged. */
  function Flagged(s: Session, newFlags: bv8): Session
  {
    s.(flags := newFlags, calls := s.calls + FlagsWrite(s.characteristics, newFlags))
  }

  /** SetVibration: only the rumble write is logged. */
  function Vibrated(s: Session, power: real): Session
  {
    s.(calls := s.calls + VibrationWrite(s.characteristics, power))
  }

  /** After a teardown nothing is held, and exactly what was held has been released. */
  lemma TearDownReleases(s: Session)
    ensures var r := TearDown(s);
      && !r.connected && !r.eventRegistered && r.eventBuffer.None? && !r.serviceOpen && !r.characteristicsHeld
      && r.calls == s.calls + Releases(s.eventRegistered, s.eventBuffer.Some?, s.serviceOpen, s.characteristicsHeld)
      && r.characteristics == s.characteristics && r.flags == s.flags && r.calib == s.calib
      && r.report == s.report && r.data == s.data
  {
  }

  /** A second teardown releases nothing and changes nothing. */
  lemma TearDownIdempotent(s: Session)
    ensures TearDown(TearDown(s)) == TearDown(s)
  {
  }

  /** What the open step achieves: the open, the sizing and the fetch decide what is held and read. */
  lemma OpenedOutcome(s: Session, reply: ConnectReply)
    ensures var r := Opened(s, reply);
      && r.connected == (ConnectSucceeds(reply) || (s.connected && !DiscoveryRuns(reply)))
      && r.serviceOpen == reply.openSucceeded
      && r.characteristicsHeld == (TableAllocated(reply) || s.characteristicsHeld)
      && r.characteristics == (if TableAllocated(reply) then CharacteristicsOf(reply.discovered) else s.characteristics)
      && r.eventBuffer == (if DiscoveryRuns(reply) then Some(FirstEntry(CharacteristicsOf(reply.discovered))) else s.eventBuffer)
      && r.calls == s.calls + (if DiscoveryRuns(reply) then Subscriptions(reply.discovered) else [])
      && r.flags == (if DiscoveryRuns(reply) then SeededFlags(reply.discovered, s.flags) else s.flags)
      && r.calib == (if DiscoveryRuns(reply) then SeedFrom(reply.discovered, GloveCalibUuid, s.calib) else s.calib)
      && r.report == s.report && r.data == s.data
  {
    if !DiscoveryRuns(reply) {
      assert s.calls + [] == s.calls;
    }
  }

  /**
   * What a (re)connect achieves from any session: connected iff the open, the
   * sizing, the fetch and the registration succeed; the releases of a live
   * connection then the subscriptions are logged; the caches are the
   * discovery reads; report and sample are kept.
   */
  lemma ReconnectedOutcome(s: Session, reply: ConnectReply)
    ensures var r := Reconnected(s, reply);
      && r.connected == ConnectSucceeds(reply)
      && r.serviceOpen == reply.openSucceeded
      && r.characteristicsHeld == (TableAllocated(reply) || (s.characteristicsHeld && !s.connected))
      && r.characteristics == (if TableAllocated(reply) then CharacteristicsOf(reply.discovered) else s.characteristics)
      && r.eventBuffer == (if DiscoveryRuns(reply) then Some(FirstEntry(CharacteristicsOf(reply.discovered)))
                           else if s.connected then None else s.eventBuffer)
      && r.calls == s.calls
                    + (if s.connected then Releases(s.eventRegistered, s.eventBuffer.Some?, s.serviceOpen, s.characteristicsHeld) else [])
                    + (if DiscoveryRuns(reply) then Subscriptions(reply.discovered) else [])
      && r.flags == (if DiscoveryRuns(reply) then SeededFlags(reply.discovered, s.flags) else s.flags)
      && r.calib == (if DiscoveryRuns(reply) then SeedFrom(reply.discovered, GloveCalibUuid, s.calib) else s.calib)
      && r.report == s.report && r.data == s.data
  {
    var t := if s.connected then TearDown(s) else s;
    OpenedOutcome(t, reply);
    var rel := if s.connected then Releases(s.eventRegistered, s.eventBuffer.Some?, s.serviceOpen, s.characteristicsHeld) else [];
    assert t.calls == s.calls + rel;
  }

  /** A connect never writes a characteristic value: everything it logs is a release or a subscription. */
  lemma ReconnectedWritesNoValue(s: Session, reply: ConnectReply)
    ensures var r := Reconnected(s, reply);
      && |s.calls| <= |r.calls|
      && r.calls[..|s.calls|] == s.calls
      && forall i :: |s.calls| <= i < |r.calls| ==> !r.calls[i].WriteValue?
  {
    var rel := if s.connected then Releases(s.eventRegistered, s.eventBuffer.Some?, s.serviceOpen, s.characteristicsHeld) else [];
    var sub := if DiscoveryRuns(reply) then Subscriptions(reply.discovered) else [];
    ReconnectedLog(s, reply);
    ReleasesEachHeld(s.eventRegistered, s.eventBuffer.Some?, s.serviceOpen, s.characteristicsHeld);
    SubscriptionsOnlyReports(reply.discovered);
    NoValueInEither(rel, sub);
    AppendedNoValue(s.calls, rel + sub);
  }

  /** A connect's log: the releases of a live connection, then the subscriptions. */
  lemma ReconnectedLog(s: Session, reply: ConnectReply)
    ensures Reconnected(s, reply).calls
         == s.calls + ((if s.connected then Releases(s.eventRegistered, s.eventBuffer.Some?, s.serviceOpen, s.characteristicsHeld) else [])
                       + (if DiscoveryRuns(reply) then Subscriptions(reply.discovered) else []))
  {
    ReconnectedOutcome(s, reply);
  }

  /** Two logs without a value write concatenate to one without. */
  lemma NoValueInEither(a: seq<DeviceCall>, b: seq<DeviceCall>)
    requires forall i :: 0 <= i < |a| ==> !a[i].WriteValue?
    requires forall i :: 0 <= i < |b| ==> !b[i].WriteValue?
    ensures forall i :: 0 <= i < |a + b| ==> !(a + b)[i].WriteValue?
  {
  }

  /** Appending calls keeps the log as a prefix; the new entries are the appended ones. */
  lemma AppendedNoValue(log: seq<DeviceCall>, added: seq<DeviceCall>)
    requires forall i :: 0 <= i < |added| ==> !added[i].WriteValue?
    ensures (log + added)[..|log|] == log
    ensures forall i :: |log| <= i < |log + added| ==> !(log + added)[i].WriteValue?
  {
    forall i | |log| <= i < |log + added|
      ensures !(log + added)[i].WriteValue?
    {
      assert (log + added)[i] == added[i - |log|];
    }
  }

  /** The flag and rumble writes change nothing but the flags cache and the log, and log at most one value write. */
  lemma ValueWritesKeepSession(s: Session, newFlags: bv8, power: real)
    ensures Flagged(s, newFlags).(flags := s.flags, calls := s.calls) == s
    ensures Vibrated(s, power).(calls := s.calls) == s
    ensures |Flagged(s, newFlags).calls| <= |s.calls| + 1 && |Vibrated(s, power).calls| <= |s.calls| + 1
  {
  }

  // ---------------------------------------------------------------------------
  // The session

  class Glove {
    const devicePath: seq<char>
    /** sizeof(CALIB_REPORT); its declaration is not part of this model. */
    const calibSize: nat

    var connected: bool
    /** m_service_handle is a valid handle */
    var serviceOpen: bool
    /** m_characteristics is allocated */
    var characteristicsHeld: bool
    /** m_characteristics[0 .. m_num_characteristics) */
    var characteristics: seq<Characteristic>
    /** m_event_handle is a valid registration */
    var eventRegistered: bool
    /** m_value_changed_event, with the characteristics it watches */
    var eventBuffer: Option<seq<Characteristic>>
    /** m_flags */
    var flags: bv8
    /** m_calib */
    var calib: seq<uint8>
    /** m_report, as the bytes of a GLOVE_REPORT */
    var report: seq<uint8>
    /** m_data */
    var data: GloveData
    var calls: seq<DeviceCall>

    ghost predicate Valid()
      reads this`report, this`calib, this`data, this`connected, this`eventRegistered,
            this`serviceOpen, this`characteristicsHeld, this`eventBuffer
    {
      && |report| == GLOVE_REPORT_SIZE
      && |calib| == calibSize
      && |data.fingers| == GLOVE_FINGERS
      && (eventRegistered <==> connected)
      && (connected ==> serviceOpen && characteristicsHeld && eventBuffer.Some?)
      && (eventBuffer.Some? ==> |eventBuffer.value| <= 1)
    }

    /** The session's state as a value. */
    function Snapshot(): Session
      reads this
    {
      Session(connected, serviceOpen, characteristicsHeld, characteristics, eventRegistered, eventBuffer,
              flags, calib, report, data, calls)
    }

    /**
     * A new session for a device path, connected at once. The members the
     * source leaves uninitialised (flags, report, sample) start at zero.
     */
    constructor (path: seq<char>, calibSize: nat, reply: ConnectReply)
      ensures Valid()
      ensures devicePath == path && this.calibSize == calibSize
      ensures Snapshot() == Reconnected(Initial(calibSize), reply)
    {
      devicePath := path;
      this.calibSize := calibSize;
      connected := false;
      serviceOpen := false;
      characteristicsHeld := false;
      characteristics := [];
      eventRegistered := false;
      eventBuffer := None;
      flags := 0;
      calib := seq(calibSize, _ => 0);
      report := seq(GLOVE_REPORT_SIZE, _ => 0);
      data := GloveData(0, Vector(0.0, 0.0, 0.0), Quaternion(0.0, 0.0, 0.0, 0.0), seq(GLOVE_FINGERS, _ => 0.0));
      calls := [];
      new;
      Connect(reply);
    }

    function GetFlags(): bv8
      reads this
    {
      flags
    }

    function GetHand(): Hand
      reads this
    {
      HandOf(flags)
    }

    predicate IsConnected()
      reads this
    {
      connected
    }

    /**
     * Copies the current sample out. With a positive timeout the caller has
     * waited first; if the session is no longer connected then, nothing is
     * copied and the answer is false.
     */
    method GetData(dest: GloveData, timeout: nat) returns (ok: bool, out: GloveData)
      requires Valid()
      ensures timeout > 0 && !connected ==> !ok && out == dest
      ensures !(timeout > 0 && !connected) ==> out == data && (ok <==> data.packetNumber > 0)
    {
      // The bounded wait on m_report_block is not modelled: the state read
      // here is the state at wake-up.
      if timeout > 0 {
        if !IsConnected() {
          return false, dest;
        }
      }
      out := data;
      ok := data.packetNumber > 0;
    }

    /**
     * (Re)connects: tears down a live connection, then opens the service and
     * discovers its characteristics.
     */
    method Connect(reply: ConnectReply)
      requires Valid()
      modifies this
      ensures Valid()
      ensures Snapshot() == Reconnected(old(Snapshot()), reply)
    {
      if IsConnected() {
        Disconnect();
      }
      OpenService(reply);
    }

    /**
     * Connect after the teardown: opens the service, reads the characteristic
     * table, configures the report characteristic, seeds the flags and
     * calibration caches, and registers for value-changed events. Any failure
     * before the registration leaves the session disconnected.
     */
    method OpenService(reply: ConnectReply)
      requires Valid() && !connected
      modifies this`serviceOpen, this`characteristicsHeld, this`characteristics, this`eventBuffer,
               this`flags, this`calib, this`eventRegistered, this`connected, this`calls
      ensures Valid()
      ensures Snapshot() == Opened(old(Snapshot()), reply)
    {
      serviceOpen := reply.openSucceeded;
      if !serviceOpen {
        return;
      }

      if reply.requiredSize == 0 {
        return;
      }

      characteristicsHeld := true;
      characteristics := CharacteristicsOf(reply.discovered);

      if reply.listSucceeded {
        Discover(reply);
      }
    }

    /**
     * Connect once the table is fetched: walks it, then watches its first
     * entry and registers for value-changed events.
     */
    method Discover(reply: ConnectReply)
      requires Valid() && !connected && serviceOpen && characteristicsHeld
      requires characteristics == CharacteristicsOf(reply.discovered)
      modifies this`eventBuffer, this`flags, this`calib, this`eventRegistered, this`connected, this`calls
      ensures Valid()
      ensures flags == SeededFlags(reply.discovered, old(flags))
      ensures calib == SeedFrom(reply.discovered, GloveCalibUuid, old(calib))
      ensures calls == old(calls) + Subscriptions(reply.discovered)
      ensures eventBuffer == Some(FirstEntry(characteristics))
      ensures eventRegistered == connected == reply.registerSucceeded
    {
      var seededFlags, seededCalib := WalkCharacteristics(reply.discovered, flags, calib);
      flags := seededFlags;
      calib := seededCalib;

      eventBuffer := Some(FirstEntry(characteristics));
      eventRegistered := reply.registerSucceeded;
      connected := reply.registerSucceeded;
    }

    /**
     * Connect's pass over the characteristic table: configures each report
     * characteristic for notification and reads each flags and calibration
     * characteristic into the caches, in table order.
     */
    method WalkCharacteristics(ds: seq<Discovered>, flags0: bv8, calib0: seq<uint8>) returns (seededFlags: bv8, seededCalib: seq<uint8>)
      requires |calib0| == calibSize
      modifies this`calls
      ensures seededFlags == SeededFlags(ds, flags0)
      ensures seededCalib == SeedFrom(ds, GloveCalibUuid, calib0)
      ensures calls == old(calls) + Subscriptions(ds)
    {
      var flagsBuffer: seq<uint8> := [flags0 as int];
      seededCalib := calib0;
      for i := 0 to |ds|
        invariant flagsBuffer == SeedFrom(ds[..i], GloveFlagsUuid, [flags0 as int])
        invariant seededCalib == SeedFrom(ds[..i], GloveCalibUuid, calib0)
        invariant |flagsBuffer| == 1 && |seededCalib| == calibSize
        invariant calls == old(calls) + Subscriptions(ds[..i])
      {
        SeedFromStep(ds, i, GloveFlagsUuid, [flags0 as int]);
        SeedFromStep(ds, i, GloveCalibUuid, calib0);
        assert ds[..i + 1][..i] == ds[..i];
        var d := ds[i];
        if d.characteristic.uuid == GloveReportUuid {
          // The configuration's result is not checked.
          var configured := ConfigureCharacteristic(d.characteristic, d.descriptors, true, false);
        } else if d.characteristic.uuid == GloveFlagsUuid {
          var ok, out := ReadCharacteristic(d.read, flagsBuffer, 1);
          flagsBuffer := out;
        } else if d.characteristic.uuid == GloveCalibUuid {
          var ok, out := ReadCharacteristic(d.read, seededCalib, calibSize);
          seededCalib := out;
        }
      }
      assert ds[..|ds|] == ds;
      seededFlags := flagsBuffer[0] as bv8;
    }

    /**
     * Two-phase read into a destination buffer of `length` bytes: a zero
     * required size fails at once; otherwise the answer is the fetch's
     * success, and the bytes are copied only if they fit.
     */
    method ReadCharacteristic(reply: ReadReply, dest: seq<uint8>, length: nat) returns (ok: bool, out: seq<uint8>)
      requires |dest| == length
      ensures reply.requiredSize == 0 ==> !ok && out == dest
      ensures reply.requiredSize > 0 ==> ok == reply.succeeded
      ensures |out| == length
      ensures out != dest ==> ok && |reply.value| <= length && out[..|reply.value|] == reply.value
      ensures ok && |reply.value| <= length ==> out == reply.value + dest[|reply.value|..]
      ensures !ok || |reply.value| > length ==> out == dest
      ensures out == ReadEffect(reply, dest, length)
    {
      if reply.requiredSize == 0 {
        return false, dest;
      }
      out := dest;
      if reply.succeeded && length >= |reply.value| {
        out := reply.value + dest[|reply.value|..];
      }
      ok := reply.succeeded;
    }

    /**
     * Writes a value to a characteristic; an absent characteristic fails
     * without any call to the device.
     */
    method WriteCharacteristic(characteristic: Option<Characteristic>, src: seq<uint8>, deviceAccepts: bool) returns (ok: bool)
      modifies this`calls
      ensures characteristic.None? ==> !ok && calls == old(calls)
      ensures characteristic.Some? ==> ok == deviceAccepts && calls == old(calls) + [WriteValue(characteristic.value, src)]
    {
      if characteristic.None? {
        return false;
      }
      calls := calls + [WriteValue(characteristic.value, src)];
      ok := deviceAccepts;
    }

    /** First table entry with the given short UUID, or none. */
    method GetCharacteristic(identifier: ShortUuid) returns (c: Option<Characteristic>)
      requires characteristicsHeld || |characteristics| == 0
      ensures c == FirstWithUuid(characteristics, identifier)
      ensures c.None? <==> forall j :: 0 <= j < |characteristics| ==> characteristics[j].uuid != identifier
      ensures c.Some? ==> exists i :: 0 <= i < |characteristics| && characteristics[i] == c.value
                                && c.value.uuid == identifier
                                && forall j :: 0 <= j < i ==> characteristics[j].uuid != identifier
    {
      for i := 0 to |characteristics|
        invariant forall j :: 0 <= j < i ==> characteristics[j].uuid != identifier
      {
        if characteristics[i].uuid == identifier {
          return Some(characteristics[i]);
        }
      }
      return None;
    }

    /**
     * Subscribes through the first client characteristic configuration
     * descriptor; no descriptors, a failed enumeration or no such descriptor
     * gives false.
     */
    method ConfigureCharacteristic(characteristic: Characteristic, reply: DescriptorReply, notify: bool, indicate: bool)
      returns (ok: bool)
      modifies this`calls
      ensures calls == old(calls) + Subscription(characteristic, reply, notify, indicate)
      ensures ok <==> Subscription(characteristic, reply, notify, indicate) != [] && reply.setSucceeded
    {
      if reply.requiredSize == 0 {
        return false;
      }
      if reply.succeeded {
        var ds := reply.descriptors;
        for i := 0 to |ds|
          invariant forall j :: 0 <= j < i ==> ds[j] != ClientCharacteristicConfiguration
        {
          if ds[i] == ClientCharacteristicConfiguration {
            calls := calls + [WriteDescriptor(characteristic, CccdWrite(i, notify, indicate))];
            return reply.setSucceeded;
          }
        }
      }
      return false;
    }

    /**
     * Marks the session disconnected, then releases the event registration,
     * the event buffer, the service handle and the characteristic table, each
     * only if it is held.
     */
    method Disconnect()
      requires Valid()
      modifies this`connected, this`eventRegistered, this`eventBuffer, this`serviceOpen, this`characteristicsHeld, this`calls
      ensures Valid()
      ensures Snapshot() == TearDown(old(Snapshot()))
    {
      ReleasesInTurn(calls, eventRegistered, eventBuffer.Some?, serviceOpen, characteristicsHeld);
      connected := false;
      // Waking blocked readers (m_report_block.notify_all) is not modelled.

      if eventRegistered {
        calls := calls + [UnregisterEvent];
      }
      assert calls == old(calls) + ReleaseIf(old(eventRegistered), UnregisterEvent);
      eventRegistered := false;

      if eventBuffer.Some? {
        calls := calls + [FreeEventBuffer];
      }
      eventBuffer := None;

      if serviceOpen {
        calls := calls + [CloseService];
      }
      serviceOpen := false;

      if characteristicsHeld {
        calls := calls + [FreeCharacteristics];
      }
      characteristicsHeld := false;
    }

    /**
     * The value-changed callback: reads the report into m_report through each
     * watched report characteristic, then decodes it, whether or not a read happened.
     */
    method OnCharacteristicChanged(reply: ReadReply)
      requires Valid() && eventRegistered
      modifies this`report, this`data
      ensures Valid()
      ensures report == (if exists j :: 0 <= j < |eventBuffer.value| && eventBuffer.value[j].uuid == GloveReportUuid
                         then ReadEffect(reply, old(report), GLOVE_REPORT_SIZE) else old(report))
      ensures data == DecodeSample(ParseGloveReport(report).value, HandOf(flags), old(data).packetNumber + 1)
    {
      var watched := eventBuffer.value;
      for i := 0 to |watched|
        invariant |report| == GLOVE_REPORT_SIZE && data == old(data)
        invariant report == (if exists j :: 0 <= j < i && watched[j].uuid == GloveReportUuid
                             then ReadEffect(reply, old(report), GLOVE_REPORT_SIZE) else old(report))
      {
        if watched[i].uuid == GloveReportUuid {
          ReadEffectIdempotent(reply, old(report), GLOVE_REPORT_SIZE);
          var ok, out := ReadCharacteristic(reply, report, GLOVE_REPORT_SIZE);
          report := out;
        }
      }
      UpdateState();
      // Waking blocked readers (m_report_block.notify_all) is not modelled.
    }

    /** Decodes m_report into m_data and advances the packet number by one. */
    method UpdateState()
      requires Valid()
      modifies this`data
      ensures Valid()
      ensures data == DecodeSample(ParseGloveReport(report).value, GetHand(), old(data).packetNumber + 1)
    {
      var rep := ParseGloveReport(report).value;

      data := data.(packetNumber := data.packetNumber + 1);

      data := data.(acceleration := Vector(rep.accel[0] as real / ACCEL_DIVISOR,
                                           rep.accel[1] as real / ACCEL_DIVISOR,
                                           rep.accel[2] as real / ACCEL_DIVISOR));

      data := data.(quaternion := Quaternion(rep.quat[0] as real / QUAT_DIVISOR,
                                             rep.quat[1] as real / QUAT_DIVISOR,
                                             rep.quat[2] as real / QUAT_DIVISOR,
                                             rep.quat[3] as real / QUAT_DIVISOR));

      var fingers := data.fingers;
      for i := 0 to GLOVE_FINGERS
        invariant |fingers| == GLOVE_FINGERS
        invariant forall k :: 0 <= k < i ==> fingers[k] == FingerOrder(rep.fingers, GetHand())[k]
      {
        if GetHand() == Right {
          fingers := fingers[i := rep.fingers[i] as real / FINGER_DIVISOR];
        } else {
          fingers := fingers[i := rep.fingers[GLOVE_FINGERS - (i + 1)] as real / FINGER_DIVISOR];
        }
      }
      data := data.(fingers := fingers);
      // The Euler angles (ManusMath::GetEuler) are not modelled.
    }

    /** Caches the flags, then writes them to the flags characteristic; the write's result is dropped. */
    method SetFlags(newFlags: bv8, deviceAccepts: bool)
      requires characteristicsHeld || |characteristics| == 0
      modifies this`flags, this`calls
      ensures Valid() == old(Valid())
      ensures GetFlags() == newFlags && GetHand() == HandOf(newFlags)
      ensures Snapshot() == Flagged(old(Snapshot()), newFlags)
    {
      flags := newFlags;
      var c := GetCharacteristic(GloveFlagsUuid);
      var ok := WriteCharacteristic(c, [flags as int], deviceAccepts);
    }

    /** Clamps the power to [0, 1], scales it to uint16 and writes it to the rumble characteristic. */
    method SetVibration(power: real, deviceAccepts: bool)
      requires characteristicsHeld || |characteristics| == 0
      modifies this`calls
      ensures Valid() == old(Valid())
      ensures Snapshot() == Vibrated(old(Snapshot()), power)
    {
      var p := power;
      if p < 0.0 {
        p := 0.0;
      }
      if p > 1.0 {
        p := 1.0;
      }
      var report := GloveOutputReport((p * UINT16_MAX as real).Floor);

      var c := GetCharacteristic(GloveRumbleUuid);
      var ok := WriteCharacteristic(c, SerializeOutputReport(report), deviceAccepts);
    }
  }

  /** A second Disconnect releases nothing and leaves the same state as the first. */
  method DisconnectTwice(g: Glove)
    requires g.Valid()
    modifies g
    ensures g.Valid()
    ensures g.Snapshot() == TearDown(old(g.Snapshot()))
  {
    g.Disconnect();
    ghost var once := g.Snapshot();
    g.Disconnect();
    TearDownIdempotent(once);
  }
}
