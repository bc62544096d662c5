/**
 * The registry of glove sessions and the control API over it
 * (Manus/Manus/Manus.cpp): the global glove list and the initialised flag
 * become the fields of one Registry object.
 */
module Manus {
  import opened Wrappers
  import opened Wire
  import opened ManusTypes
  import opened GloveSession

  // ---------------------------------------------------------------------------
  // Flag edits

  /** The flags ManusSetHandedness writes: bit 0x1 set iff right-handed, every other bit kept. */
  function WithHandedness(flags: bv8, rightHand: bool): (r: bv8)
    ensures (r & GLOVE_FLAGS_HANDEDNESS != 0) == rightHand
    ensures r & !GLOVE_FLAGS_HANDEDNESS == flags & !GLOVE_FLAGS_HANDEDNESS
  {
    if rightHand then flags | GLOVE_FLAGS_HANDEDNESS else flags & !GLOVE_FLAGS_HANDEDNESS
  }

  /** Setting the handedness twice is setting it once. */
  lemma WithHandednessIdempotent(flags: bv8, rightHand: bool)
    ensures WithHandedness(WithHandedness(flags, rightHand), rightHand) == WithHandedness(flags, rightHand)
  {
  }

  /** After the edit, the session reports the requested hand. */
  lemma WithHandednessHand(flags: bv8, rightHand: bool)
    ensures HandOf(WithHandedness(flags, rightHand)) == (if rightHand then Right else Left)
  {
  }

  /** The flags ManusCalibrate writes: bits 0x2, 0x4 and 0x8 set exactly as requested, every other bit kept. */
  function WithCalibration(flags: bv8, gyro: bool, accel: bool, fingers: bool): (r: bv8)
    ensures (r & GLOVE_FLAGS_CAL_GYRO != 0) == gyro
    ensures (r & GLOVE_FLAGS_CAL_ACCEL != 0) == accel
    ensures (r & GLOVE_FLAGS_CAL_FINGERS != 0) == fingers
    ensures r & 0xF1 == flags & 0xF1
  {
    var g := if gyro then flags | GLOVE_FLAGS_CAL_GYRO else flags & !GLOVE_FLAGS_CAL_GYRO;
    var a := if accel then g | GLOVE_FLAGS_CAL_ACCEL else g & !GLOVE_FLAGS_CAL_ACCEL;
    if fingers then a | GLOVE_FLAGS_CAL_FINGERS else a & !GLOVE_FLAGS_CAL_FINGERS
  }

  /** Calibration never changes the hand, and repeating it changes nothing more. */
  lemma WithCalibrationKeepsHand(flags: bv8, gyro: bool, accel: bool, fingers: bool)
    ensures HandOf(WithCalibration(flags, gyro, accel, fingers)) == HandOf(flags)
    ensures WithCalibration(WithCalibration(flags, gyro, accel, fingers), gyro, accel, fingers)
         == WithCalibration(flags, gyro, accel, fingers)
  {
  }

  /** ManusSetHandedness's read-modify-write of its local flags byte. */
  method HandednessFlags(current: bv8, rightHand: bool) returns (flags: bv8)
    ensures flags == WithHandedness(current, rightHand)
  {
    flags := current;
    if rightHand {
      flags := flags | GLOVE_FLAGS_HANDEDNESS;
    } else {
      flags := flags & !GLOVE_FLAGS_HANDEDNESS;
    }
  }

  /** ManusCalibrate's read-modify-write of its local flags byte, one bit at a time. */
  method CalibrationFlags(current: bv8, gyro: bool, accel: bool, fingers: bool) returns (flags: bv8)
    ensures flags == WithCalibration(current, gyro, accel, fingers)
  {
    flags := current;
    if gyro {
      flags := flags | GLOVE_FLAGS_CAL_GYRO;
    } else {
      flags := flags & !GLOVE_FLAGS_CAL_GYRO;
    }
    if accel {
      flags := flags | GLOVE_FLAGS_CAL_ACCEL;
    } else {
      flags := flags & !GLOVE_FLAGS_CAL_ACCEL;
    }
    if fingers {
      flags := flags | GLOVE_FLAGS_CAL_FINGERS;
    } else {
      flags := flags & !GLOVE_FLAGS_CAL_FINGERS;
    }
  }

  // ---------------------------------------------------------------------------
  // Lookups

  /** A glove GetGlove accepts for a hand: that hand, and connected. */
  predicate Matches(g: Glove, hand: Hand)
    reads g
  {
    g.GetHand() == hand && g.IsConnected()
  }

  /** Index of the first glove that matches the hand, or |gs| when none does. */
  function MatchIndex(gs: seq<Glove>, hand: Hand): (k: nat)
    reads gs
    ensures k <= |gs|
    ensures forall j :: 0 <= j < k ==> !Matches(gs[j], hand)
    ensures k < |gs| ==> Matches(gs[k], hand)
  {
    if gs == [] then 0
    else if Matches(gs[0], hand) then 0
    else 1 + MatchIndex(gs[1..], hand)
  }

  /** Index of the glove with the given device path, or |gs| when there is none. */
  function PathIndex(gs: seq<Glove>, path: seq<char>): (k: nat)
    ensures k <= |gs|
    ensures forall j :: 0 <= j < k ==> gs[j].devicePath != path
    ensures k < |gs| ==> gs[k].devicePath == path
  {
    if gs == [] then 0
    else if gs[0].devicePath == path then 0
    else 1 + PathIndex(gs[1..], path)
  }

  // ---------------------------------------------------------------------------
  // The registry

  class Registry {
    /** g_gloves */
    var gloves: seq<Glove>
    /** g_initialized */
    var initialized: bool
    /** sizeof(CALIB_REPORT), shared by every session. */
    const calibSize: nat

    /** Every session is consistent and no two sessions share a device path. */
    ghost predicate Valid()
      reads this, gloves
    {
      && (forall i :: 0 <= i < |gloves| ==> gloves[i].Valid() && gloves[i].calibSize == calibSize)
      && (forall i, j :: 0 <= i < j < |gloves| ==> gloves[i].devicePath != gloves[j].devicePath)
    }

    constructor (calibSize: nat)
      ensures Valid() && gloves == [] && !initialized && this.calibSize == calibSize
    {
      gloves := [];
      initialized := false;
      this.calibSize := calibSize;
    }

    /** The first glove in list order with the hand that is connected; `elem` is returned untouched when none is. */
    method GetGlove(hand: Hand, elem: Glove?) returns (r: ManusResult, found: Glove?)
      ensures var k := MatchIndex(gloves, hand);
        && (k < |gloves| ==> r == Success && found == gloves[k])
        && (k == |gloves| ==> r == Disconnected && found == elem)
    {
      for i := 0 to |gloves|
        invariant forall j :: 0 <= j < i ==> !Matches(gloves[j], hand)
      {
        if gloves[i].GetHand() == hand && gloves[i].IsConnected() {
          MatchIndexIs(gloves, hand, i);
          return Success, gloves[i];
        }
      }
      MatchIndexIs(gloves, hand, |gloves|);
      return Disconnected, elem;
    }

    /**
     * The hot-plug callback: a known device path reconnects its session in
     * place; an unknown one appends a new session at the end.
     */
    method DeviceConnected(path: seq<char>, reply: ConnectReply)
      requires Valid()
      modifies this, gloves
      ensures Valid() && initialized == old(initialized)
      ensures var k := PathIndex(old(gloves), path);
        && (k < |old(gloves)| ==>
              && gloves == old(gloves)
              && gloves[k].Snapshot() == Reconnected(old(gloves[k].Snapshot()), reply)
              && (forall j :: 0 <= j < |gloves| && j != k ==> unchanged(gloves[j])))
        && (k == |old(gloves)| ==>
              && |gloves| == |old(gloves)| + 1
              && gloves[..|old(gloves)|] == old(gloves)
              && fresh(gloves[k])
              && gloves[k].devicePath == path
              && gloves[k].Snapshot() == Reconnected(Initial(calibSize), reply)
              && (forall j :: 0 <= j < k ==> unchanged(gloves[j])))
    {
      var i := 0;
      while i < |gloves| && gloves[i].devicePath != path
        invariant i <= |gloves|
        invariant forall j :: 0 <= j < i ==> gloves[j].devicePath != path
      {
        i := i + 1;
      }
      PathIndexIs(gloves, path, i);

      if i < |gloves| {
        // The glove was seen before: reconnect it.
        gloves[i].Connect(reply);
        return;
      }

      AddGlove(path, reply);
    }

    /** A device path seen for the first time gets a new glove, connected on creation. */
    method AddGlove(path: seq<char>, reply: ConnectReply)
      requires Valid()
      requires forall j :: 0 <= j < |gloves| ==> gloves[j].devicePath != path
      modifies this`gloves
      ensures Valid()
      ensures |gloves| == |old(gloves)| + 1
      ensures gloves[..|old(gloves)|] == old(gloves)
      ensures fresh(gloves[|old(gloves)|])
      ensures gloves[|old(gloves)|].devicePath == path
      ensures gloves[|old(gloves)|].Snapshot() == Reconnected(Initial(calibSize), reply)
    {
      var g := new Glove(path, calibSize, reply);
      gloves := gloves + [g];
    }

    /**
     * Initialisation as a state flag: refused when already initialised or
     * when the skeletal scene cannot be set up.
     */
    method ManusInit(sceneReady: bool) returns (r: ManusResult)
      modifies this`initialized
      ensures old(initialized) ==> r == Error && initialized
      ensures !old(initialized) && !sceneReady ==> r == Error && !initialized
      ensures !old(initialized) && sceneReady ==> r == Success && initialized
    {
      if initialized {
        return Error;
      }
      if !sceneReady {
        return Error;
      }
      // Enumerating the devices present and installing the hot-plug
      // callback are not modelled.
      initialized := true;
      return Success;
    }

    /**
     * Deletes every session, which disconnects it, empties the list and
     * leaves the registry uninitialised; refused when not initialised.
     */
    method ManusExit() returns (r: ManusResult)
      requires Valid()
      modifies this, gloves
      ensures Valid()
      ensures !old(initialized) ==> r == Error && gloves == old(gloves) && !initialized
                                    && forall j :: 0 <= j < |gloves| ==> unchanged(gloves[j])
      ensures old(initialized) ==> r == Success && gloves == [] && !initialized
      ensures old(initialized) ==> forall j :: 0 <= j < |old(gloves)| ==>
                                     old(gloves)[j].Snapshot() == TearDown(old(gloves[j].Snapshot()))
    {
      if !initialized {
        return Error;
      }

      for i := 0 to |gloves|
        invariant gloves == old(gloves) && initialized
        invariant Valid()
        invariant forall j :: 0 <= j < i ==> gloves[j].Snapshot() == TearDown(old(gloves[j].Snapshot()))
        invariant forall j :: i <= j < |gloves| ==> unchanged(gloves[j])
      {
        gloves[i].Disconnect();
      }
      gloves := [];

      initialized := false;
      return Success;
    }

    /**
     * Copies the sample of the glove for a hand: a failed lookup is reported
     * first, then a missing destination, then GetData's answer.
     */
    method ManusGetData(hand: Hand, dest: Option<GloveData>, timeout: nat) returns (r: ManusResult, out: Option<GloveData>)
      requires Valid()
      ensures var k := MatchIndex(gloves, hand);
        && (k == |gloves| ==> r == Disconnected && out == dest)
        && (k < |gloves| && dest.None? ==> r == InvalidArgument && out == dest)
        && (k < |gloves| && dest.Some? ==>
              out == Some(gloves[k].data)
              && (r == Success <==> gloves[k].data.packetNumber > 0)
              && (r != Success ==> r == Error))
    {
      var ret, elem := GetGlove(hand, null);
      if ret != Success {
        return ret, dest;
      }

      if dest.None? {
        return InvalidArgument, dest;
      }

      var ok, copied := elem.GetData(dest.value, timeout);
      out := Some(copied);
      r := if ok then Success else Error;
    }

    /** Edits bit 0x1 of the matching glove's flags and writes them; no write when no glove matches. */
    method ManusSetHandedness(hand: Hand, rightHand: bool, deviceAccepts: bool) returns (r: ManusResult)
      requires Valid()
      modifies gloves
      ensures Valid()
      ensures var k := old(MatchIndex(gloves, hand));
        && (k == |gloves| ==> r == Disconnected && forall j :: 0 <= j < |gloves| ==> unchanged(gloves[j]))
        && (k < |gloves| ==>
              && r == Success
              && gloves[k].Snapshot() == Flagged(old(gloves[k].Snapshot()), WithHandedness(old(gloves[k].flags), rightHand))
              && forall j :: 0 <= j < |gloves| && j != k ==> unchanged(gloves[j]))
    {
      var ret, elem := GetGlove(hand, null);
      if ret != Success {
        return ret;
      }
      ghost var k := MatchIndex(gloves, hand);
      DistinctGloves(k);

      var flags := HandednessFlags(elem.GetFlags(), rightHand);
      elem.SetFlags(flags, deviceAccepts);

      return Success;
    }

    /** Edits bits 0x2, 0x4 and 0x8 of the matching glove's flags and writes them; no write when no glove matches. */
    method ManusCalibrate(hand: Hand, gyro: bool, accel: bool, fingers: bool, deviceAccepts: bool) returns (r: ManusResult)
      requires Valid()
      modifies gloves
      ensures Valid()
      ensures var k := old(MatchIndex(gloves, hand));
        && (k == |gloves| ==> r == Disconnected && forall j :: 0 <= j < |gloves| ==> unchanged(gloves[j]))
        && (k < |gloves| ==>
              && r == Success
              && gloves[k].Snapshot() == Flagged(old(gloves[k].Snapshot()), WithCalibration(old(gloves[k].flags), gyro, accel, fingers))
              && forall j :: 0 <= j < |gloves| && j != k ==> unchanged(gloves[j]))
    {
      var ret, elem := GetGlove(hand, null);
      if ret != Success {
        return ret;
      }
      ghost var k := MatchIndex(gloves, hand);
      DistinctGloves(k);

      var flags := CalibrationFlags(elem.GetFlags(), gyro, accel, fingers);
      elem.SetFlags(flags, deviceAccepts);

      return Success;
    }

    /** Sends a rumble to the matching glove; no write when no glove matches. */
    method ManusSetVibration(hand: Hand, power: real, deviceAccepts: bool) returns (r: ManusResult)
      requires Valid()
      modifies gloves
      ensures Valid()
      ensures var k := old(MatchIndex(gloves, hand));
        && (k == |gloves| ==> r == Disconnected && forall j :: 0 <= j < |gloves| ==> unchanged(gloves[j]))
        && (k < |gloves| ==>
              && r == Success
              && gloves[k].Snapshot() == Vibrated(old(gloves[k].Snapshot()), power)
              && forall j :: 0 <= j < |gloves| && j != k ==> unchanged(gloves[j]))
    {
      var ret, elem := GetGlove(hand, null);
      if ret != Success {
        return ret;
      }
      ghost var k := MatchIndex(gloves, hand);
      DistinctGloves(k);

      elem.SetVibration(power, deviceAccepts);

      return Success;
    }

    /** Distinct paths make distinct sessions, so editing one leaves the others alone. */
    lemma DistinctGloves(k: nat)
      requires Valid() && k < |gloves|
      ensures forall j :: 0 <= j < |gloves| && j != k ==> gloves[j] != gloves[k]
    {
      forall j | 0 <= j < |gloves| && j != k
        ensures gloves[j] != gloves[k]
      {
        if j < k {
          assert gloves[j].devicePath != gloves[k].devicePath;
        } else {
          assert gloves[k].devicePath != gloves[j].devicePath;
        }
      }
    }
  }

  /** The first match found by a scan is the one MatchIndex names. */
  lemma MatchIndexIs(gs: seq<Glove>, hand: Hand, i: nat)
    requires i <= |gs|
    requires forall j :: 0 <= j < i ==> !Matches(gs[j], hand)
    requires i < |gs| ==> Matches(gs[i], hand)
    ensures MatchIndex(gs, hand) == i
  {
  }

  /** The first path found by a scan is the one PathIndex names. */
  lemma PathIndexIs(gs: seq<Glove>, path: seq<char>, i: nat)
    requires i <= |gs|
    requires forall j :: 0 <= j < i ==> gs[j].devicePath != path
    requires i < |gs| ==> gs[i].devicePath == path
    ensures PathIndex(gs, path) == i
  {
  }
}
