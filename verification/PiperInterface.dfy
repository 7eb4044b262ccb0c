/** The client interface: sending commands, the 0x151 setters, and storing feedback. */
module PiperInterfaces {
  import opened Bytes
  import opened Messages
  import opened Mit
  import opened Parser
  import opened MotionShadow
  import opened Rounding
  import opened TimedFreqStates
  import M = Multipart
  import T = TxFrames

  /** Why a send did or did not happen; the driver returns whether it is `Sent` and logs the rest. */
  datatype SendResult = Sent | NotConnected | Refused | TransportFailed

  /** Clamp limits of one joint, in 0.001 deg. */
  datatype Limits = Limits(lo: int32, hi: int32)

  class PiperInterface {
    const protocol: Protocol
    var connected: bool
    /** Shadow of the last 0x151 state sent. */
    var ctrl151: MotionMode
    /** Every frame this object put on the bus, oldest first. */
    var bus: seq<Frame>
    /** Whether the transport takes the n-th frame it is given; it may fail for its own reasons. */
    const transport: nat -> bool
    /** How many frames it was given. */
    var attempts: nat

    ghost predicate Valid() reads this {
      Sound(protocol, ctrl151, bus)
    }

    /** The transport takes the next `n` frames. */
    ghost predicate Takes(from: nat, n: nat) {
      forall k: nat :: from <= k < from + n ==> transport(k)
    }

    constructor (protocol: Protocol, transport: nat -> bool)
      ensures Valid() && this.protocol == protocol && !connected && bus == []
      ensures this.transport == transport && attempts == 0
    {
      this.protocol, this.transport := protocol, transport;
      connected, ctrl151, bus, attempts := false, DEFAULT_MOTION_MODE, [], 0;
    }

    /**
     * Opens the transport, which may fail, and asks for the motor limits and the firmware. Whether those queries get
     * through does not matter to the caller; an open session is left alone.
     */
    method ConnectPort() returns (ok: bool)
      requires Valid()
      modifies this`connected, this`bus, this`attempts
      ensures Valid() && ok == connected && (old(connected) ==> ok)
      ensures if ok && !old(connected) then InitialQueries(old(bus), bus) else bus == old(bus)
    {
      if connected {
        return true;
      }
      var answer: bool := *;
      if !answer {
        return false;
      }
      connected := true;
      PiperInit();
      ok := true;
    }

    /** Sends the initial queries; what fails is not repeated. */
    method PiperInit()
      requires Valid() && connected
      modifies this`bus, this`attempts
      ensures Valid() && InitialQueries(old(bus), bus)
    {
      var searched := SearchAllMotorLimits();
      ghost var all, k := LimitQueries(), 12;
      if searched == Sent {
        assert all[..12] == all;
      } else {
        k :| 0 <= k < |all| && bus == old(bus) + all[..k];
      }
      var asked := SendFirmwareQuery();
      assert bus == old(bus) + FirstQueries(k, asked);
    }

    /** Past the parser, straight to the transport. The reply buffer it empties is the subject of Firmware. */
    method SendFirmwareQuery() returns (ok: bool)
      requires Valid()
      modifies this`bus, this`attempts
      ensures Valid() && (ok <==> connected && transport(old(attempts)))
      ensures bus == old(bus) + if ok then [FIRMWARE_QUERY_FRAME] else []
    {
      if !connected {
        return false;
      }
      ok := transport(attempts);
      attempts := attempts + 1;
      if ok {
        LastMotionAppend(protocol, bus, FIRMWARE_QUERY_FRAME);
        bus := bus + [FIRMWARE_QUERY_FRAME];
      }
    }

    method DisconnectPort()
      requires Valid()
      modifies this`connected
      ensures Valid() && !connected
    {
      connected := false;
    }

    /** Encodes into a fresh frame and hands it to the transport, which may fail for its own reasons. */
    method SendPiperMsg(m: Msg) returns (r: SendResult)
      modifies this`bus, this`attempts
      ensures r == NotConnected <==> !connected
      ensures r == Refused <==> connected && Encode(protocol, m).None?
      ensures r == TransportFailed <==> connected && Encode(protocol, m).Some? && !transport(old(attempts))
      ensures attempts == old(attempts) + if r == Sent || r == TransportFailed then 1 else 0
      ensures r == Sent ==> bus == old(bus) + [FrameOf(m, Encode(protocol, m).value)]
      ensures r != Sent ==> bus == old(bus)
      ensures !m.kind.MotionCtrl2? && old(Valid()) ==> Valid()
    {
      if !connected {
        return NotConnected;
      }
      var tx := new T.TxFrame();
      var ok;
      if protocol.V2? {
        ok := tx.EncodeV2(m);
      } else {
        ok := tx.EncodeV3(m);
      }
      if !ok {
        return Refused;
      }
      attempts := attempts + 1;
      if !transport(attempts - 1) {
        return TransportFailed;
      }
      var f := Frame(tx.canId, tx.dlc, tx.data[..]);
      CanIdTablesInverse(0x151, m.kind);
      LastMotionAppend(protocol, bus, f);
      bus := bus + [f];
      r := Sent;
    }

    /** Makes `next` the commanded state only if it was sent. */
    method SendMotionCtrl2Locked(next: MotionMode) returns (r: SendResult)
      requires Valid()
      modifies this`bus, this`attempts, this`ctrl151
      ensures Valid()
      ensures r == TransportFailed ==> !transport(old(attempts))
      ensures attempts == old(attempts) + if r == Sent || r == TransportFailed then 1 else 0
      ensures r == NotConnected <==> !connected
      ensures r == Refused <==> connected && !AcceptsMotion(protocol, next)
      ensures ctrl151 == if r == Sent then next else old(ctrl151)
      ensures r == Sent ==> AcceptsMotion(protocol, next) && bus == old(bus) + [MotionFrame(protocol, next)]
      ensures r != Sent ==> bus == old(bus)
    {
      var m := MotionMessage(next);
      EncodesIffAccepted(protocol, next);
      r := SendPiperMsg(m);
      if r != Sent {
        return;
      }
      SentStateReadsBack(protocol, next);
      LastMotionAppend(protocol, old(bus), FrameOf(m, Encode(protocol, m).value));
      ctrl151 := next;
    }

    method SendMotionCtrl2(mode: MotionMode) returns (r: SendResult)
      requires Valid()
      modifies this`bus, this`attempts, this`ctrl151
      ensures Valid()
      ensures r == TransportFailed ==> !transport(old(attempts))
      ensures attempts == old(attempts) + if r == Sent || r == TransportFailed then 1 else 0
      ensures r == Refused <==> connected && !OwnValueAcceptable(protocol, SetAll(mode))
      ensures r == NotConnected <==> !connected
      ensures ctrl151 == if r == Sent then mode.(speed := ClampSpeed(mode.speed)) else old(ctrl151)
      ensures r == Sent ==> AcceptsMotion(protocol, ctrl151) && bus == old(bus) + [MotionFrame(protocol, ctrl151)]
      ensures r != Sent ==> bus == old(bus)
    {
      OwnValueDecides(protocol, ctrl151, SetAll(mode));
      var speed := if mode.speed > 100 then 100 else mode.speed;
      r := SendMotionCtrl2Locked(mode.(speed := speed));
    }

    method SetCtrlMode(b: byte) returns (r: SendResult)
      requires Valid()
      modifies this`bus, this`attempts, this`ctrl151
      ensures Valid()
      ensures r == NotConnected <==> !connected
      ensures r == TransportFailed ==> !transport(old(attempts))
      ensures attempts == old(attempts) + if r == Sent || r == TransportFailed then 1 else 0
      ensures r == Refused <==> connected && !OwnValueAcceptable(protocol, MotionShadow.SetCtrlMode(b))
      ensures ctrl151 == if r == Sent then old(ctrl151).(ctrlMode := b) else old(ctrl151)
    {
      OwnValueDecides(protocol, ctrl151, MotionShadow.SetCtrlMode(b));
      r := SendMotionCtrl2Locked(ctrl151.(ctrlMode := b));
    }

    method SetMoveMode(b: byte) returns (r: SendResult)
      requires Valid()
      modifies this`bus, this`attempts, this`ctrl151
      ensures Valid()
      ensures r == NotConnected <==> !connected
      ensures r == TransportFailed ==> !transport(old(attempts))
      ensures attempts == old(attempts) + if r == Sent || r == TransportFailed then 1 else 0
      ensures r == Refused <==> connected && !OwnValueAcceptable(protocol, MotionShadow.SetMoveMode(b))
      ensures ctrl151 == if r == Sent then old(ctrl151).(moveMode := b) else old(ctrl151)
    {
      OwnValueDecides(protocol, ctrl151, MotionShadow.SetMoveMode(b));
      r := SendMotionCtrl2Locked(ctrl151.(moveMode := b));
    }

    method SetSpeedPercentage(b: byte) returns (r: SendResult)
      requires Valid()
      modifies this`bus, this`attempts, this`ctrl151
      ensures Valid() && r != Refused
      ensures r == NotConnected <==> !connected
      ensures r == TransportFailed ==> !transport(old(attempts))
      ensures attempts == old(attempts) + if r == Sent || r == TransportFailed then 1 else 0
      ensures ctrl151 == if r == Sent then old(ctrl151).(speed := ClampSpeed(b)) else old(ctrl151)
    {
      OwnValueDecides(protocol, ctrl151, MotionShadow.SetSpeedPercentage(b));
      var speed := if b > 100 then 100 else b;
      r := SendMotionCtrl2Locked(ctrl151.(speed := speed));
    }

    method SetMitMode(b: byte) returns (r: SendResult)
      requires Valid()
      modifies this`bus, this`attempts, this`ctrl151
      ensures Valid()
      ensures r == NotConnected <==> !connected
      ensures r == TransportFailed ==> !transport(old(attempts))
      ensures attempts == old(attempts) + if r == Sent || r == TransportFailed then 1 else 0
      ensures r == Refused <==> connected && !OwnValueAcceptable(protocol, MotionShadow.SetMitMode(b))
      ensures ctrl151 == if r == Sent then old(ctrl151).(mitMode := b) else old(ctrl151)
    {
      OwnValueDecides(protocol, ctrl151, MotionShadow.SetMitMode(b));
      r := SendMotionCtrl2Locked(ctrl151.(mitMode := b));
    }

    method SetResidenceTime(seconds: byte) returns (r: SendResult)
      requires Valid()
      modifies this`bus, this`attempts, this`ctrl151
      ensures Valid() && r != Refused
      ensures r == NotConnected <==> !connected
      ensures r == TransportFailed ==> !transport(old(attempts))
      ensures attempts == old(attempts) + if r == Sent || r == TransportFailed then 1 else 0
      ensures ctrl151 == if r == Sent then old(ctrl151).(residence := seconds) else old(ctrl151)
    {
      OwnValueDecides(protocol, ctrl151, MotionShadow.SetResidenceTime(seconds));
      r := SendMotionCtrl2Locked(ctrl151.(residence := seconds));
    }

    method SetInstallationPos(b: byte) returns (r: SendResult)
      requires Valid()
      modifies this`bus, this`attempts, this`ctrl151
      ensures Valid()
      ensures r == NotConnected <==> !connected
      ensures r == TransportFailed ==> !transport(old(attempts))
      ensures attempts == old(attempts) + if r == Sent || r == TransportFailed then 1 else 0
      ensures r == Refused <==> connected && !OwnValueAcceptable(protocol, MotionShadow.SetInstallationPos(b))
      ensures ctrl151 == if r == Sent then old(ctrl151).(installation := b) else old(ctrl151)
    {
      OwnValueDecides(protocol, ctrl151, MotionShadow.SetInstallationPos(b));
      r := SendMotionCtrl2Locked(ctrl151.(installation := b));
    }

    method SendPart(call: M.Call, part: Part) returns (r: SendResult)
      requires Valid()
      modifies this`bus, this`attempts
      ensures Valid()
      ensures r != Refused && (r == NotConnected <==> !connected)
      ensures r == TransportFailed ==> !transport(old(attempts))
      ensures attempts == old(attempts) + if r == Sent || r == TransportFailed then 1 else 0
      ensures bus == if r == Sent then old(bus) + [M.FrameFor(call, part)] else old(bus)
    {
      r := SendPiperMsg(M.MessageOf(call, part));
    }

    /** The three frames of a command: the arm acts on the whole target, or on nothing. */
    method SendParts(call: M.Call) returns (r: SendResult)
      requires Valid()
      modifies this`bus, this`attempts
      ensures Valid()
      ensures r != Refused && (r == NotConnected <==> !connected)
      ensures old(attempts) <= attempts <= old(attempts) + 3 && (r == Sent ==> attempts == old(attempts) + 3)
      ensures r == TransportFailed ==> !Takes(old(attempts), attempts - old(attempts))
      ensures r == Sent ==> bus == old(bus) + PartFrames(call)
      ensures r != Sent ==> CutShort(old(bus), bus, PartFrames(call))
      ensures M.Listen(bus).commits == M.Listen(old(bus)).commits + if r == Sent then [M.CommitOf(call)] else []
    {
      ghost var was := bus;
      r := SendInOrder(call);
      ghost var all := PartFrames(call);
      if r == Sent {
        assert all[..3] == all;
        M.PartsCommit(was, call, 3);
      } else {
        ghost var k :| 0 <= k < |all| && bus == was + all[..k];
        M.PartsCommit(was, call, k);
      }
    }

    /** Stops at the first frame that is not sent. */
    method SendInOrder(call: M.Call) returns (r: SendResult)
      requires Valid()
      modifies this`bus, this`attempts
      ensures Valid()
      ensures r != Refused && (r == NotConnected <==> !connected)
      ensures old(attempts) <= attempts <= old(attempts) + 3 && (r == Sent ==> attempts == old(attempts) + 3)
      ensures r == TransportFailed ==> !Takes(old(attempts), attempts - old(attempts))
      ensures r == Sent ==> bus == old(bus) + PartFrames(call)
      ensures r != Sent ==> CutShort(old(bus), bus, PartFrames(call))
    {
      hide Sound, M.FrameFor;
      ghost var all := PartFrames(call);
      OneMore(old(bus), all, 0, bus);
      r := SendPart(call, 0);
      if r != Sent {
        return;
      }
      OneMore(old(bus), all, 1, bus);
      r := SendPart(call, 1);
      if r != Sent {
        return;
      }
      OneMore(old(bus), all, 2, bus);
      r := SendPart(call, 2);
      assert all[..3] == all;
    }

    /** Holds the multipart mutex for all three frames. */
    method ControlJoints(target: Six) returns (r: SendResult)
      requires Valid()
      modifies this`bus, this`attempts
      ensures Valid()
      ensures r != Refused && (r == NotConnected <==> !connected)
      ensures old(attempts) <= attempts <= old(attempts) + 3 && (r == Sent ==> attempts == old(attempts) + 3)
      ensures r == TransportFailed ==> !Takes(old(attempts), attempts - old(attempts))
      ensures r == Sent ==> bus == old(bus) + PartFrames(M.Call(M.Joints, target))
      ensures r != Sent ==> CutShort(old(bus), bus, PartFrames(M.Call(M.Joints, target)))
      ensures M.Listen(bus).commits
              == M.Listen(old(bus)).commits + if r == Sent then [M.Commit(M.Joints, Some(target))] else []
    {
      r := SendParts(M.Call(M.Joints, target));
    }

    method ControlEndPose(target: Six) returns (r: SendResult)
      requires Valid()
      modifies this`bus, this`attempts
      ensures Valid()
      ensures r != Refused && (r == NotConnected <==> !connected)
      ensures old(attempts) <= attempts <= old(attempts) + 3 && (r == Sent ==> attempts == old(attempts) + 3)
      ensures r == TransportFailed ==> !Takes(old(attempts), attempts - old(attempts))
      ensures r == Sent ==> bus == old(bus) + PartFrames(M.Call(M.Pose, target))
      ensures r != Sent ==> CutShort(old(bus), bus, PartFrames(M.Call(M.Pose, target)))
      ensures M.Listen(bus).commits
              == M.Listen(old(bus)).commits + if r == Sent then [M.Commit(M.Pose, Some(target))] else []
    {
      r := SendParts(M.Call(M.Pose, target));
    }

    method SendGripperCtrl(mode: GripperMode, value: int32, effort: uint16, status: byte) returns (r: SendResult)
      requires Valid()
      modifies this`bus, this`attempts
      ensures Valid()
      ensures r == NotConnected <==> !connected
      ensures r == TransportFailed ==> !transport(old(attempts))
      ensures attempts == old(attempts) + if r == Sent || r == TransportFailed then 1 else 0
      ensures r == Refused <==>
                connected && Encode(protocol, GripperMessage(GripperCommand(value, effort, status, 0x00, mode))).None?
      ensures r == Sent ==>
                var m := GripperMessage(GripperCommand(value, effort, status, 0x00, mode));
                bus == old(bus) + [FrameOf(m, Encode(protocol, m).value)]
      ensures r != Sent ==> bus == old(bus)
    {
      var m := GripperMessage(GripperCommand(value, effort, status, 0x00, mode));
      r := SendPiperMsg(m);
    }

    method ControlGripper(value: int32, effort: uint16, status: byte) returns (r: SendResult)
      requires Valid()
      modifies this`bus, this`attempts
      ensures Valid()
      ensures r == NotConnected <==> !connected
      ensures r == TransportFailed ==> !transport(old(attempts))
      ensures attempts == old(attempts) + if r == Sent || r == TransportFailed then 1 else 0
      ensures r == Refused <==>
                connected && Encode(protocol, GripperMessage(GripperCommand(value, effort, status, 0x00, Width))).None?
      ensures r == Sent ==>
                var m := GripperMessage(GripperCommand(value, effort, status, 0x00, Width));
                bus == old(bus) + [FrameOf(m, Encode(protocol, m).value)]
      ensures r != Sent ==> bus == old(bus)
    {
      r := SendGripperCtrl(Width, value, effort, status);
    }

    /** A zero-reference command is never refused: its status, effort and flag are in every protocol's range. */
    method SetGripperZero() returns (r: SendResult)
      requires Valid()
      modifies this`bus, this`attempts
      ensures Valid() && r != Refused
      ensures r == NotConnected <==> !connected
      ensures r == TransportFailed ==> !transport(old(attempts))
      ensures attempts == old(attempts) + if r == Sent || r == TransportFailed then 1 else 0
      ensures bus == if r == Sent then old(bus) + [GRIPPER_ZERO_FRAME] else old(bus)
    {
      ZeroReferenceFrame(protocol);
      r := SendPiperMsg(GripperMessage(GRIPPER_ZERO));
    }

    method EnableRobot() returns (r: SendResult)
      requires Valid()
      modifies this`bus, this`attempts
      ensures Valid() && r != Refused
      ensures r == NotConnected <==> !connected
      ensures r == TransportFailed ==> !transport(old(attempts))
      ensures attempts == old(attempts) + if r == Sent || r == TransportFailed then 1 else 0
      ensures bus == if r == Sent then old(bus) + [ENABLE_FRAME] else old(bus)
    {
      var m := DEFAULT.(kind := MotorEnableDisableConfig, cfg := DEFAULT.cfg.(motorEnable := [7, 0x02]));
      assert Pad([7, 0x02]) == ENABLE_FRAME.data;
      r := SendPiperMsg(m);
    }

    /** Asks every motor for both kinds of limit, stopping at the first query that is not sent. */
    method SearchAllMotorLimits() returns (r: SendResult)
      requires Valid()
      modifies this`bus, this`attempts
      ensures Valid() && r != Refused
      ensures r == NotConnected <==> !connected
      ensures old(attempts) <= attempts <= old(attempts) + 12 && (r == Sent ==> attempts == old(attempts) + 12)
      ensures r == TransportFailed ==> !Takes(old(attempts), attempts - old(attempts))
      ensures r == Sent ==> bus == old(bus) + LimitQueries()
      ensures r != Sent ==> CutShort(old(bus), bus, LimitQueries())
    {
      ghost var all := LimitQueries();
      for i := 0 to 6
        invariant Valid() && bus == old(bus) + all[..2 * i] && attempts == old(attempts) + 2 * i
        invariant i > 0 ==> connected
      {
        QueriesOf(i);
        OneMore(old(bus), all, 2 * i, bus);
        r := SendLimitQuery(i, 0x01);
        if r != Sent {
          return;
        }
        OneMore(old(bus), all, 2 * i + 1, bus);
        r := SendLimitQuery(i, 0x02);
        if r != Sent {
          return;
        }
      }
      assert all[..12] == all;
      r := Sent;
    }

    method SendLimitQuery(i: Motor, what: byte) returns (r: SendResult)
      requires Valid()
      modifies this`bus, this`attempts
      ensures Valid() && r != Refused
      ensures r == NotConnected <==> !connected
      ensures r == TransportFailed ==> !transport(old(attempts))
      ensures attempts == old(attempts) + if r == Sent || r == TransportFailed then 1 else 0
      ensures bus == if r == Sent then old(bus) + [LimitQueryFrame(i, what)] else old(bus)
    {
      r := SendPiperMsg(LimitQuery(i, what));
    }

    /**
     * Sends one joint's MIT target. Nothing is sent for a motor number outside 1..6 or a non-finite value;
     * otherwise the receiver unpacks exactly the codes of the five values.
     */
    method ControlJointMit(motor: byte, pos: Double, vel: Double, kp: Double, kd: Double, torque: Double)
      returns (r: Option<SendResult>)
      requires Valid()
      modifies this`bus, this`attempts
      ensures Valid()
      ensures r.None? <==> !(1 <= motor <= 6) || pos.NotFinite? || vel.NotFinite? || kp.NotFinite? || kd.NotFinite?
                           || torque.NotFinite?
      ensures r != Some(Sent) ==> bus == old(bus)
      ensures r != Some(Refused) && (r.Some? ==> (r == Some(NotConnected) <==> !connected))
      ensures r == Some(TransportFailed) ==> !transport(old(attempts))
      ensures r == Some(Sent) ==>
                && |bus| == |old(bus)| + 1 && bus[..|old(bus)|] == old(bus)
                && bus[|old(bus)|].id == 0x159 + motor
                && Unpack(bus[|old(bus)|].data, protocol)
                   == PackJointMit(pos.value, vel.value, kp.value, kd.value, torque.value, protocol)
                && CommandReads(Unpack(bus[|old(bus)|].data, protocol),
                                pos.value, vel.value, kp.value, kd.value, torque.value, protocol)
    {
      hide Pack, Unpack, PackJointMit, CommandReads;
      if motor < 1 || motor > 6 {
        return None;
      }
      if pos.NotFinite? || vel.NotFinite? || kp.NotFinite? || kd.NotFinite? || torque.NotFinite? {
        return None;
      }
      var i := motor - 1;
      var codes := PackJointMit(pos.value, vel.value, kp.value, kd.value, torque.value, protocol);
      CommandStandsFor(pos.value, vel.value, kp.value, kd.value, torque.value, protocol);
      CommandSurvivesTheWire(pos.value, vel.value, kp.value, kd.value, torque.value, protocol);
      MitFrame(protocol, i, codes);
      var sent := SendPiperMsg(MitMessage(i, codes));
      r := Some(sent);
    }
  }

  function MitMessage(i: Motor, codes: Codes): Msg {
    DEFAULT.(kind := JointMitCtrl(i), cmd := DEFAULT.cmd.(mit := DEFAULT.cmd.mit[i := codes]))
  }

  /** The frame of one joint's codes, whichever joint it is. */
  lemma MitFrame(p: Protocol, i: Motor, codes: Codes)
    ensures Encode(p, MitMessage(i, codes)) == Some(Pack(codes, p))
  {}

  /** Motor `i`'s query, 0x01 for angle and speed limits and 0x02 for the acceleration limit. */
  function LimitQuery(i: Motor, what: byte): Msg {
    var motor: byte := i as int + 1;
    DEFAULT.(kind := SearchMotorLimit, cfg := DEFAULT.cfg.(search := [motor, what]))
  }

  function LimitQueryFrame(i: Motor, what: byte): Frame {
    Frame(0x472, 8, Pad([i + 1, what]))
  }

  /** The twelve queries: motor by motor, the angle and speed limits first. */
  function LimitQueries(): (f: seq<Frame>)
    ensures |f| == 12
  {
    seq(12, k requires 0 <= k < 12 => LimitQueryFrame(k / 2, if k % 2 == 0 then 0x01 else 0x02))
  }

  const FIRMWARE_QUERY_FRAME := Frame(0x4AF, 8, [0x01, 0, 0, 0, 0, 0, 0, 0])

  /** The first `k` limit queries, and the firmware query if it got through. */
  function FirstQueries(k: nat, asked: bool): seq<Frame>
    requires k <= 12
  {
    LimitQueries()[..k] + if asked then [FIRMWARE_QUERY_FRAME] else []
  }

  /** What connecting adds to the bus: the queries in their order, as far as each of the two sends got. */
  ghost predicate InitialQueries(was: seq<Frame>, now: seq<Frame>) {
    exists k: nat, asked :: k <= 12 && now == was + FirstQueries(k, asked)
  }

  lemma QueriesOf(i: Motor)
    ensures LimitQueries()[2 * i] == LimitQueryFrame(i, 0x01) && LimitQueries()[2 * i + 1] == LimitQueryFrame(i, 0x02)
  {
    assert (2 * i) / 2 == i && (2 * i) % 2 == 0 && (2 * i + 1) / 2 == i && (2 * i + 1) % 2 == 1;
  }

  /** Each motor is asked for each kind of limit by exactly one of the twelve, kind by kind and motor by motor. */
  lemma QueriesAskForEverything(i: Motor, what: byte)
    requires what == 0x01 || what == 0x02
    ensures LimitQueries()[2 * i + what - 1] == Frame(0x472, 8, [i + 1, what, 0, 0, 0, 0, 0, 0])
  {
    hide LimitQueries;
    QueriesOf(i);
    assert Pad([i + 1, what]) == [i + 1, what, 0, 0, 0, 0, 0, 0];
    if what == 0x01 {
      assert LimitQueries()[2 * i] == LimitQueryFrame(i, what);
    } else {
      assert LimitQueries()[2 * i + 1] == LimitQueryFrame(i, what);
    }
  }

  lemma OneMore(was: seq<Frame>, frames: seq<Frame>, k: nat, now: seq<Frame>)
    requires k < |frames| && now == was + frames[..k]
    ensures CutShort(was, now, frames)
    ensures now + [frames[k]] == was + frames[..k + 1]
  {
    assert frames[..k + 1] == frames[..k] + [frames[k]];
  }

  function GripperMessage(c: GripperCommand): Msg {
    DEFAULT.(kind := GripperCtrl, cmd := DEFAULT.cmd.(gripperCmd := c))
  }

  /** Value, effort and status zero, with the zero-reference flag. */
  const GRIPPER_ZERO := GripperCommand(0, 0, 0, 0xAE, Width)

  /** The same frame under both protocols. */
  const GRIPPER_ZERO_FRAME := Frame(0x159, 8, [0, 0, 0, 0, 0, 0, 0, 0xAE])

  lemma ZeroReferenceFrame(p: Protocol)
    ensures Encode(p, GripperMessage(GRIPPER_ZERO)) == Some(GRIPPER_ZERO_FRAME.data)
  {
    assert Int32Bytes(0) + Uint16Bytes(0) + [0, 0xAE] == GRIPPER_ZERO_FRAME.data;
  }

  /** All seven motors, enable. */
  const ENABLE_FRAME := Frame(0x471, 8, [7, 0x02, 0, 0, 0, 0, 0, 0])

  function MotionFrame(p: Protocol, c: MotionMode): Frame
    requires AcceptsMotion(p, c)
  {
    FrameOf(MotionMessage(c), Encode(p, MotionMessage(c)).value)
  }

  /** Some but not all of the frames were added. */
  ghost predicate CutShort(was: seq<Frame>, now: seq<Frame>, frames: seq<Frame>) {
    exists k :: 0 <= k < |frames| && now == was + frames[..k]
  }

  function PartFrames(call: M.Call): (f: seq<Frame>)
    ensures |f| == 3
  {
    [M.FrameFor(call, 0), M.FrameFor(call, 1), M.FrameFor(call, 2)]
  }

  // ---------- Storing joint feedback ----------

  function ClampTo(v: int32, l: Limits): int32
    requires l.lo <= l.hi
  {
    if v < l.lo then l.lo else if v > l.hi then l.hi else v
  }

  /** The value with the two joints of `part` replaced. */
  function WithPair(values: Six, src: Six, part: Part, limits: Option<seq<Limits>>): Six
    requires limits.Some? ==> |limits.value| == 6 && forall j :: 0 <= j < 6 ==> limits.value[j].lo <= limits.value[j].hi
  {
    values[2 * part := Kept(src, 2 * part, limits)][2 * part + 1 := Kept(src, 2 * part + 1, limits)]
  }

  function Kept(src: Six, j: nat, limits: Option<seq<Limits>>): int32
    requires j < 6
    requires limits.Some? ==> |limits.value| == 6 && forall k :: 0 <= k < 6 ==> limits.value[k].lo <= limits.value[k].hi
  {
    if limits.Some? then ClampTo(src[j], limits.value[j]) else src[j]
  }

  /** What is stored is the joint itself within its limits, and otherwise the nearer limit. */
  lemma KeptIsNearest(src: Six, j: nat, limits: Option<seq<Limits>>)
    requires j < 6
    requires limits.Some? ==> |limits.value| == 6 && forall k :: 0 <= k < 6 ==> limits.value[k].lo <= limits.value[k].hi
    ensures limits.None? ==> Kept(src, j, limits) == src[j]
    ensures limits.Some? ==>
              var lo, hi, kept := limits.value[j].lo, limits.value[j].hi, Kept(src, j, limits);
              && lo <= kept <= hi
              && (src[j] <= lo ==> kept == lo) && (src[j] >= hi ==> kept == hi)
              && (lo <= src[j] <= hi ==> kept == src[j])
  {}

  /** The other four joints keep their values. */
  lemma OthersAreKept(values: Six, src: Six, part: Part, limits: Option<seq<Limits>>, j: nat)
    requires j < 6 && j / 2 != part
    requires limits.Some? ==> |limits.value| == 6 && forall k :: 0 <= k < 6 ==> limits.value[k].lo <= limits.value[k].hi
    ensures WithPair(values, src, part, limits)[j] == values[j]
  {}

  /**
   * Stores one frame's two joints, clamped to the SDK limits if there are any. The copy and the store are separately
   * locked: another thread may reset the state in between, and the other joints then get their old values back.
   */
  method UpdateJointPair(state: TimedFreqState<Six>, part: Part, src: Six, timestamp: real, now: int,
                         limits: Option<seq<Limits>>)
    returns (ghost reset: bool)
    requires state.Valid() && |state.Contents().initialized| == 3
    requires limits.Some? ==> |limits.value| == 6 && forall j :: 0 <= j < 6 ==> limits.value[j].lo <= limits.value[j].hi
    modifies state
    ensures state.Valid()
    ensures var was := old(state.Contents());
            state.Contents() == SetCell(if reset then ResetCell(was, state.zero) else was,
                                        WithPair(was.value, src, part, limits), timestamp, part, now)
  {
    var values := state.GetValue();
    var j: nat := 2 * part;
    while j < 2 * part + 2
      invariant 2 * part <= j <= 2 * part + 2
      invariant values == if j == 2 * part then state.Contents().value
                          else if j == 2 * part + 1 then state.Contents().value[2 * part := Kept(src, 2 * part, limits)]
                          else WithPair(state.Contents().value, src, part, limits)
    {
      var v := src[j];
      values := values[j := if limits.Some? then ClampTo(v, limits.value[j]) else v];
      j := j + 1;
    }
    reset := OthersReset(state);
    var ok := state.Set(values, timestamp, part, now);
  }

  /** Other threads may reset the state, once or more. */
  method OthersReset(state: TimedFreqState<Six>) returns (ghost reset: bool)
    requires state.Valid()
    modifies state
    ensures state.Valid()
    ensures state.Contents() == if reset then ResetCell(old(state.Contents()), state.zero) else old(state.Contents())
  {
    reset := false;
    var more: nat := *;
    while more > 0
      invariant state.Valid()
      invariant state.Contents() == if reset then ResetCell(old(state.Contents()), state.zero) else old(state.Contents())
    {
      state.Reset();
      reset := true;
      more := more - 1;
    }
  }

  /** Six joints seen as the three slots of the multipart cache. */
  function Slots(v: Six): (s: seq<M.Pair>)
    ensures |s| == 3
  {
    [M.Pair(v[0], v[1]), M.Pair(v[2], v[3]), M.Pair(v[4], v[5])]
  }

  /** Replacing a part's joints replaces one slot, clamped or not, and leaves the others, as the cache's steps assume. */
  lemma WithPairIsSlotUpdate(values: Six, src: Six, part: Part, limits: Option<seq<Limits>>)
    requires limits.Some? ==> |limits.value| == 6 && forall j :: 0 <= j < 6 ==> limits.value[j].lo <= limits.value[j].hi
    ensures Slots(WithPair(values, src, part, limits))
            == Slots(values)[part := M.Pair(Kept(src, 2 * part, limits), Kept(src, 2 * part + 1, limits))]
  {}
}
