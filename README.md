# Manus glove SDK — a Dafny model

This project models the core of the Manus VR glove SDK. It covers four parts.

- **The desktop glove session** (`Manus/Manus/Glove.cpp`). One object per
  Bluetooth LE glove. It opens the glove's GATT service and reads its
  characteristic table. It subscribes to the input report and caches the
  flags and calibration. It decodes each 20-byte report into a `GLOVE_DATA`
  sample: a packet number, acceleration, quaternion and five finger values.
  It writes flags and a rumble level back to the glove, and it releases
  every OS resource when it disconnects.
- **The registry and control API** (`Manus/Manus/Manus.cpp`). This is the
  global list of sessions plus an initialised flag. The API calls find the
  first connected glove for a hand. They can read its sample, edit its flag
  bits (handedness and calibration) or set its vibration.
- **The Android session** (`ManusMobile/.../manussdk/Glove.java`). It lists
  the HID report characteristics found by discovery. It decodes the primary
  input report and detects a glove from its HID report map. It looks fingers
  up by hand, and it derives gravity and linear acceleration from the
  orientation.
- **The wire layout** (`Manus/Manus/Glove.h`). The flag bits and the packed
  `GLOVE_REPORT`, `GLOVE_OUTPUT_REPORT` and `COMPASS_REPORT` records are
  modelled as parsers and serialisers over bytes.

Files:

| file | contents |
|---|---|
| `wrappers.dfy` | `Option` |
| `wire.dfy` | module `Wire`: constants, little-endian int16/uint16 codecs, the three packed records |
| `manus_types.dfy` | module `ManusTypes`: `Hand`, `Vector`, `Quaternion`, `GloveData`, `ManusResult` |
| `glove_session.dfy` | module `GloveSession`: the decoding functions, transport helpers and class `Glove` |
| `manus.dfy` | module `Manus`: the flag edits, the lookups and class `Registry` |
| `manus_mobile.dfy` | module `ManusMobile`: the decoders, the discovery filters and class `Glove` |
| `agreement.dfy` | module `Agreement`: if the mobile side is given the desktop report's bytes (its input report being GLOVE_REPORT without the flags byte, and its feature report starting with the flags byte, as the matching offsets suggest), it decodes what the desktop decodes |

How the system is modelled:

- Windows and Android platform calls are not modelled. What the platform
  answers is passed in as values:
  - `ConnectReply`, `ReadReply` and `DescriptorReply` on the desktop;
  - callback arguments on Android;
  - a `deviceAccepts` flag for each value write.
- Calls that write to the device or release a resource are appended, in
  order, to a log (`calls` on the desktop, `events` on Android). On the
  desktop these are the value writes, the client configuration descriptor
  writes that subscribe the report characteristics, and the four releases.
- A desktop session's whole mutable state is also available as one value,
  `Session` (through `Glove.Snapshot()`). Connect, Disconnect, SetFlags and
  SetVibration each ensure that the new state is a named function of the old
  one (`Reconnected`, `TearDown`, `Flagged`, `Vibrated`). Lemmas state what those
  functions achieve, and the registry's contracts use them for the glove an API
  call touches.
- The fixed-point divisions (by 16384, 32 and 255) are exact `real`
  divisions. The bit edits are on `bv8`.

## Model

| member | source | states |
|---|---|---|
| Wire.FlagBitsDisjoint | Manus/Manus/Glove.h:31-34 | the four flag constants are non-zero single bits and pairwise disjoint |
| Wire.ReportLayout | Manus/Manus/Glove.h:36-50 | the packed GLOVE_REPORT puts flags at byte 0, quat at 1, accel at 9 and fingers at 15, 20 bytes in all, with no padding |
| Wire.Int16sRoundTrip | Manus/Manus/Glove.h:47-48 | an int16 array encoded little-endian decodes back to itself |
| Wire.SerializeGloveReport | Manus/Manus/Glove.h:43-50 | the serialised report has 20 bytes: byte 0 is the flags, int16 quat[i] at 1+2i, accel[i] at 9+2i, finger i at byte 15+i |
| Wire.ParseGloveReport | Manus/Manus/Glove.h:43-50 | parsing succeeds exactly on 20-byte buffers and gives a report with 4 quat, 3 accel and 5 finger entries |
| Wire.GloveReportRoundTrip | Manus/Manus/Glove.h:43-50 | parse(serialise(r)) == r for every well-formed report |
| Wire.GloveReportBytesRoundTrip | Manus/Manus/Glove.h:43-50 | serialise(parse(b)) == b for every 20-byte buffer |
| Wire.SerializeOutputReport | Manus/Manus/Glove.h:52-55 | GLOVE_OUTPUT_REPORT is 2 bytes holding the rumbler value little-endian |
| Wire.ParseOutputReport | Manus/Manus/Glove.h:52-55 | parsing succeeds exactly on 2-byte buffers |
| Wire.OutputReportRoundTrip | Manus/Manus/Glove.h:52-55 | parse(serialise(r)) == r |
| Wire.OutputReportBytesRoundTrip | Manus/Manus/Glove.h:52-55 | serialise(parse(b)) == b for every 2-byte buffer |
| Wire.SerializeCompassReport | Manus/Manus/Glove.h:57-60 | COMPASS_REPORT is 6 bytes, component i as int16 at byte 2i |
| Wire.ParseCompassReport | Manus/Manus/Glove.h:57-60 | parsing succeeds exactly on 6-byte buffers and gives three components |
| Wire.CompassReportRoundTrip | Manus/Manus/Glove.h:57-60 | parse(serialise(r)) == r |
| Wire.CompassReportBytesRoundTrip | Manus/Manus/Glove.h:57-60 | serialise(parse(b)) == b for every 6-byte buffer |
| GloveSession.HandOf | Manus/Manus/Glove.cpp:328-330 | GetHand: Right when bit 0x1 of the flags is set, else Left (stated both ways by HandednessBit) |
| GloveSession.DecodeSample | Manus/Manus/Glove.cpp:295-317 | UpdateState as a function of a report, the hand and the packet number; its ranges, scale and finger order are stated by DecodeSampleRanges, DecodeSampleScale and FingerOrderAt |
| GloveSession.HandednessBit | Manus/Manus/Glove.cpp:328-330 | the hand is Right iff bit 0x1 of the flags is set, Left iff it is clear |
| GloveSession.FingerOrderAt | Manus/Manus/Glove.cpp:309-317 | a right hand's finger i is raw byte i over 255; a left hand's finger i is raw byte 4-i over 255 |
| GloveSession.FingerOrderRight | Manus/Manus/Glove.cpp:309-313 | a right hand keeps report order: its fingers are the raw bytes each over 255 |
| GloveSession.FingerOrderMirrors | Manus/Manus/Glove.cpp:309-317 | a left hand's fingers are the normalised raw bytes reversed, which is exactly the right-hand sequence reversed |
| GloveSession.DecodeSampleRanges | Manus/Manus/Glove.cpp:295-317 | a decoded sample carries the given packet number, five fingers each in [0,1], and every other component in [-2,2) |
| GloveSession.DecodeSampleScale | Manus/Manus/Glove.cpp:299-307 | acceleration and quaternion share one scale: each component times 16384 is its raw int16, so raw 16384 is 1.0 and raw 0 is 0.0 |
| GloveSession.DecodeExample | Manus/Manus/Glove.cpp:295-317 | a report value whose flags have the handedness bit (a right hand) and with quat (16384,0,0,0), accel (0,0,16384) and fingers (0,64,128,192,255) decodes to acceleration (0,0,1), the identity quaternion and fingers (0,64/255,128/255,192/255,1) |
| GloveSession.ReverseIndex | Manus/Manus/Glove.cpp:316 | element k of the reversal is element len-1-k of the input |
| GloveSession.ReadEffectIdempotent | Manus/Manus/Glove.cpp:163-165 | copying the same answer into the buffer twice leaves what one copy leaves |
| GloveSession.FirstIndex | Manus/Manus/Glove.cpp:194-202 | the index of the first table entry with the UUID: no earlier entry has it, and the entry there does unless none does |
| GloveSession.FirstWithUuid | Manus/Manus/Glove.cpp:194-202 | none iff no entry has the UUID; otherwise an entry of the table with that UUID |
| GloveSession.FirstCccd | Manus/Manus/Glove.cpp:225-240 | the index of the first client configuration descriptor: no earlier descriptor is one |
| GloveSession.Subscription | Manus/Manus/Glove.cpp:204-245 | ConfigureCharacteristic makes one descriptor write iff the enumeration is sized, succeeds and lists a client configuration descriptor; the write goes to the first such descriptor with the requested notify and indicate bits |
| GloveSession.SubscriptionsOnlyReports | Manus/Manus/Glove.cpp:113-119 | the descriptor writes of Connect's pass are at most one per table entry, each a notification-only subscription of a report characteristic |
| GloveSession.SubscriptionsCoverReports | Manus/Manus/Glove.cpp:113-119 | every report characteristic with a client configuration descriptor gets its subscription written |
| GloveSession.ReleasesEachHeld | Manus/Manus/Glove.cpp:254-268 | teardown releases a resource iff it is held, and none of its calls is a device write |
| GloveSession.ReleasesOnce | Manus/Manus/Glove.cpp:254-268 | teardown makes at most four calls and no release appears twice |
| GloveSession.ReleasesInTurn | Manus/Manus/Glove.cpp:254-268 | logging the four conditional releases one after the other logs exactly Releases |
| GloveSession.SeedFromStep | Manus/Manus/Glove.cpp:114-128 | one more table entry changes a cached buffer only through that entry's own read, and only when its UUID is the cached one |
| GloveSession.SeedFromNoMatch | Manus/Manus/Glove.cpp:114-128 | without a characteristic of the UUID, discovery leaves the cache as it was |
| GloveSession.RumbleValue | Manus/Manus/Glove.cpp:339-347 | power ≤ 0 gives 0, power ≥ 1 gives 65535, and in between the value is floor(power × 65535) |
| GloveSession.RumbleValueMonotonic | Manus/Manus/Glove.cpp:343-347 | more power never gives a smaller rumble value |
| GloveSession.RumbleValueClamps | Manus/Manus/Glove.cpp:343-345 | the value depends only on the clamped power: -1 acts as 0 and 2 acts as 1 |
| GloveSession.Initial | Manus/Manus/Glove.cpp:35-50 | the state the constructor sets up before its Connect: nothing held, zero flags, calibration, report and sample, empty log |
| GloveSession.TearDown | Manus/Manus/Glove.cpp:247-269 | Disconnect on the state value (stated by TearDownReleases and TearDownIdempotent) |
| GloveSession.Opened | Manus/Manus/Glove.cpp:86-141 | Connect after its teardown step on the state value (stated by OpenedOutcome) |
| GloveSession.Reconnected | Manus/Manus/Glove.cpp:81-142 | Connect on the state value: teardown of a live connection, then the open step (stated by ReconnectedOutcome and ReconnectedWritesNoValue) |
| GloveSession.Flagged | Manus/Manus/Glove.cpp:332-337 | SetFlags on the state value (stated by ValueWritesKeepSession) |
| GloveSession.Vibrated | Manus/Manus/Glove.cpp:339-350 | SetVibration on the state value (stated by ValueWritesKeepSession) |
| GloveSession.TearDownReleases | Manus/Manus/Glove.cpp:247-269 | after a teardown nothing is connected, registered, buffered, open or held; the log gains exactly the releases of what was held; table, caches, report and sample are kept |
| GloveSession.TearDownIdempotent | Manus/Manus/Glove.cpp:247-269 | tearing down a torn-down session changes nothing and logs nothing |
| GloveSession.OpenedOutcome | Manus/Manus/Glove.cpp:86-141 | after the open step the handle is open iff the open succeeded, the table is held and replaced iff open and sizing succeed, and only a successful fetch seeds the caches, watches the first entry, logs the subscriptions and lets the registration decide the connection |
| GloveSession.ReconnectedOutcome | Manus/Manus/Glove.cpp:81-142 | a (re)connect from any session: connected iff open, sizing, fetch and registration all succeed; the log gains the releases of a live connection then the subscriptions; the caches are the discovery reads; report and sample are kept |
| GloveSession.ReconnectedLog | Manus/Manus/Glove.cpp:81-142 | a connect's log is the old log, then the releases of a live connection, then the subscriptions |
| GloveSession.ReconnectedWritesNoValue | Manus/Manus/Glove.cpp:81-142 | a connect keeps the old log as a prefix and writes no characteristic value: everything it adds is a release or a subscription |
| GloveSession.ValueWritesKeepSession | Manus/Manus/Glove.cpp:332-350 | the flag and rumble writes change nothing but the flags cache and the log, and each logs at most one value write |
| GloveSession.Glove.constructor | Manus/Manus/Glove.cpp:35-50 | a new session is exactly one Connect applied to the zero session (nothing held, zero caches, report and sample, empty log): every field, not only the connection, is what ReconnectedOutcome gives; the device path and calibration size are the arguments |
| GloveSession.Glove.GetFlags | Manus/Manus/Glove.cpp:323-326 | the cached flags byte, as SetFlags leaves it |
| GloveSession.Glove.GetHand | Manus/Manus/Glove.cpp:328-330 | the hand of the cached flags, HandOf; SetFlags ensures it follows the new flags |
| GloveSession.Glove.GetData | Manus/Manus/Glove.cpp:58-79 | with timeout > 0 and the session disconnected after the wait: false, with the caller's data untouched; otherwise the current sample, and true iff its packet number is positive |
| GloveSession.Glove.Connect | Manus/Manus/Glove.cpp:81-142 | the whole new state is Reconnected of the old one: a live connection is torn down first (its releases logged), then the open step runs; the properties are ReconnectedOutcome and ReconnectedWritesNoValue |
| GloveSession.Glove.OpenService | Manus/Manus/Glove.cpp:86-141 | on a session that is not connected, the whole new state is Opened of the old one (see OpenedOutcome) |
| GloveSession.Glove.Discover | Manus/Manus/Glove.cpp:111-140 | after a successful fetch: the caches are the discovery reads, the subscriptions are logged, the first table entry is watched, and registered and connected both equal the registration's success |
| GloveSession.Glove.WalkCharacteristics | Manus/Manus/Glove.cpp:113-128 | walking the table reads every flags and every calibration characteristic into its cache, in table order, and logs exactly the subscriptions of the report characteristics |
| GloveSession.Glove.ReadCharacteristic | Manus/Manus/Glove.cpp:144-169 | required size 0: false and the destination untouched; otherwise the result is the fetch's success, and the destination is overwritten only when the fetch succeeded and the value fits |
| GloveSession.Glove.WriteCharacteristic | Manus/Manus/Glove.cpp:171-192 | a missing characteristic gives false and no device call; otherwise exactly one write of the source bytes, and the result is the device's answer |
| GloveSession.Glove.GetCharacteristic | Manus/Manus/Glove.cpp:194-202 | returns the first table entry with the short UUID, or none iff no entry has it |
| GloveSession.Glove.ConfigureCharacteristic | Manus/Manus/Glove.cpp:204-245 | logs exactly the descriptor write Subscription describes, and no other call; the result is true iff that write happened and the device accepted it |
| GloveSession.Glove.Disconnect | Manus/Manus/Glove.cpp:247-269 | the whole new state is TearDown of the old one: nothing connected, registered, buffered, open or held, and the releases logged are exactly those of the resources that were held (TearDownReleases) |
| GloveSession.DisconnectTwice | Manus/Manus/Glove.cpp:247-269 | two Disconnects leave exactly the state one leaves: the second releases nothing (TearDownIdempotent) |
| GloveSession.Glove.OnCharacteristicChanged | Manus/Manus/Glove.cpp:271-297 | the report is read through the watched report characteristics, then decoded once, even when no read happened: the packet number advances by exactly one per callback |
| GloveSession.Glove.UpdateState | Manus/Manus/Glove.cpp:295-321 | the new sample is the decoding of the current report with the cached hand, and its packet number is the old one plus one |
| GloveSession.Glove.SetFlags | Manus/Manus/Glove.cpp:332-337 | the cache holds the new flags whatever the write gives, GetHand follows them, exactly one write goes to the first flags characteristic if there is one, and nothing else changes (the new state is Flagged of the old one) |
| GloveSession.Glove.SetVibration | Manus/Manus/Glove.cpp:339-350 | exactly one write of the output report holding RumbleValue(power) goes to the first rumble characteristic if there is one, none otherwise, and nothing else changes (the new state is Vibrated of the old one) |
| Manus.WithHandedness | Manus/Manus/Manus.cpp:204-210 | bit 0x1 is set iff right-handed; every other bit is kept |
| Manus.WithHandednessIdempotent | Manus/Manus/Manus.cpp:204-210 | applying the same handedness edit twice equals applying it once |
| Manus.WithHandednessHand | Manus/Manus/Manus.cpp:204-210 | after the edit the session reports the requested hand |
| Manus.HandednessFlags | Manus/Manus/Manus.cpp:204-209 | the branch on the hand that sets or clears bit 0x1 of the local flags byte computes WithHandedness |
| Manus.WithCalibration | Manus/Manus/Manus.cpp:223-237 | bits 0x2, 0x4 and 0x8 equal gyro, accel and fingers; bit 0x1 and bits 0x10-0x80 are kept |
| Manus.CalibrationFlags | Manus/Manus/Manus.cpp:223-236 | the bit-by-bit edit of the local flags byte computes WithCalibration |
| Manus.WithCalibrationKeepsHand | Manus/Manus/Manus.cpp:223-237 | calibrating never changes the hand, and repeating it changes nothing further |
| Manus.MatchIndex | Manus/Manus/Manus.cpp:42-51 | the index of the first glove in list order with the hand that is connected; no earlier glove matches |
| Manus.PathIndex | Manus/Manus/Manus.cpp:58-67 | the index of the glove with the device path; no earlier glove has it |
| Manus.MatchIndexIs | Manus/Manus/Manus.cpp:42-51 | the first match a scan stops at is the one MatchIndex names |
| Manus.PathIndexIs | Manus/Manus/Manus.cpp:58-67 | the first path a scan stops at is the one PathIndex names |
| Manus.Registry.constructor | Manus/Manus/Manus.cpp:30-32 | the registry starts with no gloves and not initialised |
| Manus.Registry.GetGlove | Manus/Manus/Manus.cpp:38-52 | SUCCESS with the first glove in list order that has the hand and is connected; otherwise DISCONNECTED with the caller's glove handle unchanged |
| Manus.Registry.DeviceConnected | Manus/Manus/Manus.cpp:54-71 | a known path reconnects that glove in place: its whole new state is Reconnected of its old state (releases, reseeded caches, watch list and all), with the list and the other gloves unchanged; an unknown path appends exactly one new session for it whose state is a Connect of the zero session; device paths stay unique |
| Manus.Registry.AddGlove | Manus/Manus/Manus.cpp:67-70 | an unknown path appends exactly one new session with that path whose whole state is one Connect applied to the zero session, and keeps paths unique |
| Manus.Registry.DistinctGloves | Manus/Manus/Manus.cpp:54-71 | unique paths make distinct sessions, so editing one glove leaves the others alone |
| Manus.Registry.ManusInit | Manus/Manus/Manus.cpp:73-132 | ERROR when already initialised or when the scene cannot be set up, and the flag is unchanged; otherwise SUCCESS and initialised |
| Manus.Registry.ManusExit | Manus/Manus/Manus.cpp:134-152 | ERROR with nothing changed when not initialised; otherwise every session's state becomes TearDown of its old state, so exactly its held resources are released; the list is empty and the registry is not initialised |
| Manus.Registry.ManusGetData | Manus/Manus/Manus.cpp:154-166 | a lookup failure is returned first, even without a destination; then a missing destination gives INVALID_ARGUMENT; otherwise the glove's sample, with SUCCESS iff its packet number is positive and ERROR otherwise |
| Manus.Registry.ManusSetHandedness | Manus/Manus/Manus.cpp:196-213 | without a match: DISCONNECTED, and no glove changes or writes; otherwise the first match's flags become WithHandedness of its old flags, they are written once, nothing else of that glove changes (its connection, table and sample are kept), and the other gloves are unchanged |
| Manus.Registry.ManusCalibrate | Manus/Manus/Manus.cpp:215-240 | without a match: DISCONNECTED, and no glove changes or writes; otherwise the first match's flags become WithCalibration of its old flags, they are written once, nothing else of that glove changes (its connection, table and sample are kept), and the other gloves are unchanged |
| Manus.Registry.ManusSetVibration | Manus/Manus/Manus.cpp:242-252 | without a match: DISCONNECTED, and no glove changes or writes; otherwise the first match gets exactly its SetVibration write and nothing else of it changes (flags, connection, table and sample are kept), and the other gloves are unchanged |
| ManusMobile.DecodeQuaternion | ManusMobile/manus/src/main/java/com/manusmachina/labs/manussdk/Glove.java:136-141 | the quaternion of the primary report: int16 at 0, 2, 4 and 6, each over 16384 (stated by DecodeScales) |
| ManusMobile.DecodeAcceleration | ManusMobile/manus/src/main/java/com/manusmachina/labs/manussdk/Glove.java:143-147 | the acceleration of the primary report: int16 at 8, 10 and 12, each over 16384 (stated by DecodeScales) |
| ManusMobile.DecodeCompass | ManusMobile/manus/src/main/java/com/manusmachina/labs/manussdk/Glove.java:150-154 | the compass of another report: int16 at 0, 2 and 4, each over 32 (stated by DecodeScales) |
| ManusMobile.DecodeScales | ManusMobile/manus/src/main/java/com/manusmachina/labs/manussdk/Glove.java:135-154 | quaternion = int16 at 0,2,4,6 over 16384; acceleration = int16 at 8,10,12 over 16384; compass = int16 at 0,2,4 over 32 |
| ManusMobile.GetHandedness | ManusMobile/manus/src/main/java/com/manusmachina/labs/manussdk/Glove.java:241-252 | null iff the feature report has no value; otherwise RIGHT iff bit 0x1 of byte 0 is set, LEFT iff it is clear |
| ManusMobile.GetFingerAsWritten | ManusMobile/manus/src/main/java/com/manusmachina/labs/manussdk/Glove.java:262-272 | getFinger as written: -1.0 for an index above 4 or a missing value; otherwise byte 14+i (18-i for a left hand) over 255, for any other index, negative ones included |
| ManusMobile.GetFingerNegativeIndex | ManusMobile/manus/src/main/java/com/manusmachina/labs/manussdk/Glove.java:262-272 | as written, finger -1 of a right hand reads byte 13 of the report instead of giving -1.0 |
| ManusMobile.GetFinger | ManusMobile/manus/src/main/java/com/manusmachina/labs/manussdk/Glove.java:262-272 | -1.0 iff the index is outside 0..4 or the report has no value; otherwise a value in [0,1] |
| ManusMobile.GetFingerAgrees | ManusMobile/manus/src/main/java/com/manusmachina/labs/manussdk/Glove.java:265-271 | on indices from 0 upwards the corrected lookup and the written one give the same result |
| ManusMobile.GetFingerMirrors | ManusMobile/manus/src/main/java/com/manusmachina/labs/manussdk/Glove.java:268-271 | a right (or unknown) hand reads byte 14+i over 255; a left hand reads finger i from the right hand's slot for 4-i |
| ManusMobile.GetLinearAcceleration | ManusMobile/manus/src/main/java/com/manusmachina/labs/manussdk/Glove.java:301-307 | the raw acceleration minus gravity, componentwise (inverted by LinearAccelerationInverse) |
| ManusMobile.GetGravity | ManusMobile/manus/src/main/java/com/manusmachina/labs/manussdk/Glove.java:316-322 | gravity in the frame of the quaternion (its length is stated by GravityLength, its identity value by GravityOfIdentity) |
| ManusMobile.LinearAccelerationInverse | ManusMobile/manus/src/main/java/com/manusmachina/labs/manussdk/Glove.java:301-307 | adding gravity back to the linear acceleration gives the raw vector; zero gravity changes nothing |
| ManusMobile.GravityOfIdentity | ManusMobile/manus/src/main/java/com/manusmachina/labs/manussdk/Glove.java:316-322 | the identity quaternion gives gravity (0,0,1), so raw (0,0,1) has no linear acceleration |
| ManusMobile.GravityLength | ManusMobile/manus/src/main/java/com/manusmachina/labs/manussdk/Glove.java:316-322 | the gravity vector's squared length is the square of the quaternion's squared norm, so a unit quaternion gives a unit vector |
| ManusMobile.HidReports | ManusMobile/manus/src/main/java/com/manusmachina/labs/manussdk/Glove.java:185-201 | the HID reports listed from a run of characteristics, in order (stated by HidReportsExactly and HidReportsAppend) |
| ManusMobile.HidReportsExactly | ManusMobile/manus/src/main/java/com/manusmachina/labs/manussdk/Glove.java:185-201 | a characteristic is listed iff it belongs to the service and has the HID Report UUID |
| ManusMobile.HidReportsAppend | ManusMobile/manus/src/main/java/com/manusmachina/labs/manussdk/Glove.java:185-201 | listing two runs of characteristics lists each in turn, so enumeration order is kept |
| ManusMobile.NotificationExactly | ManusMobile/manus/src/main/java/com/manusmachina/labs/manussdk/Glove.java:186-190 | notification is enabled on exactly the HID reports of the service that have the notify property |
| ManusMobile.FirstWithUuid | ManusMobile/manus/src/main/java/com/manusmachina/labs/manussdk/Glove.java:177-183 | none iff no characteristic has the UUID; otherwise one of the service's characteristics with that UUID |
| ManusMobile.IsGloveReportMap | ManusMobile/manus/src/main/java/com/manusmachina/labs/manussdk/Glove.java:213 | the report map is a glove's iff byte 1 is 0x03 and byte 3 is 0x04 (stated by GloveDetection) |
| ManusMobile.GloveDetection | ManusMobile/manus/src/main/java/com/manusmachina/labs/manussdk/Glove.java:210-222 | detection depends only on bytes 1 and 3 of the report map; 0x03/0x04 there is a glove, anything else is not |
| ManusMobile.Glove.constructor | ManusMobile/manus/src/main/java/com/manusmachina/labs/manussdk/Glove.java:119-128 | a new session has no report map, zero readings, no reports and is disconnected |
| ManusMobile.Glove.IsConnected | ManusMobile/manus/src/main/java/com/manusmachina/labs/manussdk/Glove.java:237-239 | the session is connected iff the last recorded state is STATE_CONNECTED (stated by OnConnectionStateChange) |
| ManusMobile.Glove.OnCharacteristicChanged | ManusMobile/manus/src/main/java/com/manusmachina/labs/manussdk/Glove.java:130-158 | the first listed report sets the quaternion and acceleration from the value and notifies the application, with the compass kept; any other report sets the compass from the value and the quaternion to the fusion result, with the acceleration kept |
| ManusMobile.Glove.OnConnectionStateChange | ManusMobile/manus/src/main/java/com/manusmachina/labs/manussdk/Glove.java:160-169 | the state is recorded, so isConnected holds iff the new state is STATE_CONNECTED; discovery is requested iff the change succeeded, reached connected, and no services are known |
| ManusMobile.Glove.OnServicesDiscovered | ManusMobile/manus/src/main/java/com/manusmachina/labs/manussdk/Glove.java:171-204 | on success with a HID service: the report map is read if present, notification is set up on the HID reports that can notify, and exactly those reports are appended in order; otherwise nothing changes |
| ManusMobile.Glove.ListReports | ManusMobile/manus/src/main/java/com/manusmachina/labs/manussdk/Glove.java:185-201 | the loop over the service's characteristics appends exactly HidReports of them, in order, and logs exactly their notification set-up |
| ManusMobile.Glove.AddCharacteristic | ManusMobile/manus/src/main/java/com/manusmachina/labs/manussdk/Glove.java:186-199 | one characteristic is set up and listed iff it is a HID report |
| ManusMobile.Glove.OnCharacteristicRead | ManusMobile/manus/src/main/java/com/manusmachina/labs/manussdk/Glove.java:206-224 | a report-map read stores the map; a glove map yields detected(true) and then a read of the third listed report; any other map yields detected(false) and a close; other reads change nothing |
| Agreement.HandsAgree | ManusMobile/manus/src/main/java/com/manusmachina/labs/manussdk/Glove.java:241-252 | the mobile hand from the flags byte is RIGHT iff the desktop hand from the same byte is Right |
| Agreement.InputReportOffsets | Manus/Manus/Glove.h:43-50 | the GLOVE_REPORT without its flags byte carries the quat at 0, the accel at 8 and the finger bytes at 14, so it is 19 bytes long |
| Agreement.MobileDecodesDesktopReport | ManusMobile/manus/src/main/java/com/manusmachina/labs/manussdk/Glove.java:135-147 | the mobile quaternion, acceleration and hand-ordered fingers of a serialised report equal the desktop sample's |
| Agreement.MobileDecodesCompassReport | ManusMobile/manus/src/main/java/com/manusmachina/labs/manussdk/Glove.java:150-154 | a serialised COMPASS_REPORT decodes on the mobile side to its components over 32 |

## Left out

- Windows GATT, file and device-setup calls (`CreateFile`, `BluetoothGATT*`, `CloseHandle`, `SetupDi*`) and the Android GATT stack are foreign I/O. Their answers are inputs; the calls that change the device or release a resource are logged.
- Manus.Registry.ManusInit: models only the initialised flag and the scene check. Device enumeration (Manus/Manus/Manus.cpp:84-122) and the `WinDevices` hot-plug callback are foreign I/O. New gloves enter the model through `DeviceConnected`.
- Manus.Registry.ManusExit: deleting a session is modelled as its destructor's `Disconnect`. Freeing the device path and deleting `g_devices` are memory management.
- GloveSession.Glove.GetData: the bounded wait on the condition variable is not modelled. The mutex is left out too, and so are the notify calls in `Disconnect` and `OnCharacteristicChanged`. The decision is taken on the state at wake-up.
- GloveSession.Glove.Connect: `malloc`/`memcpy` buffer sizing is left out, and so is the leak of an old table that a reconnect without a teardown overwrites. When the table fetch fails, the model still takes the table the device reported. The source leaves `m_num_characteristics` undefined in that case.
- GloveSession.Glove.UpdateState: the Euler angles (`ManusMath::GetEuler`) are trigonometry with no body shown. `GloveData` has no Euler field.
- GloveSession.Glove.SetVibration: multiplying by 65535 and converting to `uint16_t` is exact real arithmetic with truncation. Float rounding and NaN input are not modelled.
- GloveSession.Glove.SetVibration: `RUMBLE_REPORT` is not part of this model. It is taken to be one little-endian `uint16`, which is the layout of `GLOVE_OUTPUT_REPORT`.
- The short UUIDs `BLE_UUID_MANUS_GLOVE_*` are declared in a header that is not part of this model. They are named constructors of `ShortUuid`.
- `sizeof(CALIB_REPORT)` is unknown. It is the constructor parameter `calibSize`.
- `GLOVE_DATA`, `GLOVE_HAND` and the result codes are declared in `Manus.h`, which is not part of this model. `PacketNumber` is an unbounded `nat`, so its wrap-around is not modelled.
- Glove.cpp leaves `m_flags`, `m_report` and `m_data` uninitialised. The model starts them at zero.
- Device paths are compared with `wcscmp`; the model compares whole `seq<char>` values.
- `ManusGetSkeletal`, `ManusGetSkeletalOSVR`, the skeletal model and `Manus/ManusTest/ManusTest.cpp` are not part of this model.
- The hidapi `Glove` class declared at `Manus/Manus/Glove.h:63-96` is not the GATT session implemented in Glove.cpp. The model follows Glove.cpp.
- ManusMobile.Glove.OnCharacteristicChanged: the sensor fusion (`mSensorFusion.fusion`) is a foreign call, so its result is a parameter. The application callback is logged as `Changed`.
- ManusMobile.Glove.OnCharacteristicChanged: the inputs on which the Java code throws are preconditions rather than modelled exceptions. These are a report value too short for the offsets read (under 14 bytes for the primary report, under 6 for the compass).
- ManusMobile.Glove.OnCharacteristicRead: the inputs on which the Java code throws are preconditions (`DetectionReadable`). These are a report map without byte 1; one with 0x03 at byte 1 but no byte 3 (the `&&` stops at a mismatch of byte 1, so a short map whose byte 1 differs does not throw); and a glove with fewer than three listed reports.
- ManusMobile.GetHandedness and ManusMobile.GetFinger: they take the characteristic values they read and the hand as parameters, rather than reading `mReports.get(0)`/`get(2)`. The inputs on which Java throws are preconditions: an empty feature value, and for `getFinger(i)` with i from 0 to 4 a report that ends before the byte read (14+i, or 18-i for a left hand). A 15-byte report therefore still serves finger 0 of a right hand.
- `close()`, `getEuler`, `Vector.ToDegrees`, the trivial getters `getQuaternion`/`getAcceleration` and the unused constants `VENDOR_ID`/`PRODUCT_ID` are left out. `close()` is foreign (logged as `Closed`). `getEuler` and `ToDegrees` are trigonometry on floats.
- The Client Characteristic Configuration descriptor write (Bluetooth Core Specification, Vol 3, Part G, section 3.3.3.3) is logged as `WriteDescriptor` with the descriptor index and the notify and indicate bits. The `BTH_LE_GATT_DESCRIPTOR_VALUE` bytes themselves are not modelled.

Points where the code may surprise a reader:

- The packed `GLOVE_REPORT` is 20 bytes: 1 flags byte, 8 bytes of quaternion, 6 of acceleration and 5 finger bytes.
- `Connect` ignores the result of `ConfigureCharacteristic`. Whether the session is connected depends only on the event registration.
- The event registration watches the first table entry, not necessarily the report characteristic.
- `Disconnect` frees the table but does not reset `m_num_characteristics`. `GetCharacteristic` and its callers therefore require a held table or an empty one.

## Findings

| source | as written | input that shows it | evidently intended | confidence | as-written member | corrected member |
|---|---|---|---|---|---|---|
| ManusMobile/manus/src/main/java/com/manusmachina/labs/manussdk/Glove.java:265 | `getFinger` rejects only `i > 4`, so a negative index is accepted | `getFinger(-1)` on a right hand reads byte 13, the high byte of the last acceleration component, and returns 64/255 for the report in `GetFingerNegativeIndex` | -1.0 for every index outside 0..4 | not executed; medium | ManusMobile.GetFingerAsWritten (shown by ManusMobile.GetFingerNegativeIndex) | ManusMobile.GetFinger |
