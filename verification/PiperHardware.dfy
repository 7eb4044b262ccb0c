/** The ros2_control component: activation, and one write cycle. */
module Hardware {
  import opened Bytes
  import opened Messages
  import opened Mit
  import opened Parser
  import opened Rounding
  import opened Conversion
  import opened PiperInterfaces
  import opened TimedFreqStates
  import opened Lifecycle
  import L = ParserLaws
  import M = Multipart

  const MAX_EFFORT := 5000
  /** GripperStatusCode::Enable */
  const ENABLE: byte := 0x01

  type Reals6 = s: seq<real> | |s| == 6 witness [0.0, 0.0, 0.0, 0.0, 0.0, 0.0]
  type Doubles6 = s: seq<Double> | |s| == 6
    witness [Finite(0.0), Finite(0.0), Finite(0.0), Finite(0.0), Finite(0.0), Finite(0.0)]

  // ---------- What one write cycle sends ----------

  /** The wire values of a whole command set, if every one of them has one. */
  function JointTargets(commands: Doubles6): Option<Six> {
    if exists i :: 0 <= i < 6 && JointCommandToMillideg(commands[i]).None? then None
    else Some(seq(6, i requires 0 <= i < 6 => JointCommandToMillideg(commands[i]).value))
  }

  function GripperFrame(p: Protocol, um: int32, effort: uint16): Frame
    requires effort <= MAX_EFFORT
  {
    var m := GripperMessage(GripperCommand(um, effort, ENABLE, 0x00, Width));
    FrameOf(m, Encode(p, m).value)
  }

  /** Three joint frames, then the gripper frame if there is a gripper. */
  function WriteFrames(p: Protocol, joints: Six, um: Option<int32>, effort: uint16): (f: seq<Frame>)
    requires effort <= MAX_EFFORT
    ensures |f| == if um.Some? then 4 else 3
  {
    PartFrames(M.Call(M.Joints, joints)) + if um.Some? then [GripperFrame(p, um.value, effort)] else []
  }

  /** Both protocols put the same bytes on the wire, whatever is commanded. */
  lemma WriteIsProtocolNeutral(joints: Six, um: Option<int32>, effort: uint16)
    requires effort <= MAX_EFFORT
    ensures WriteFrames(V2, joints, um, effort) == WriteFrames(V3, joints, um, effort)
  {
    if um.Some? {
      var m := GripperMessage(GripperCommand(um.value, effort, ENABLE, 0x00, Width));
      L.SameBytesIffNotMoveM(m);
    }
  }

  /** The effort limit is what this rests on: beyond it V3 refuses the gripper command that V2 accepts. */
  lemma NeutralIffEffortInRange(um: int32, effort: uint16)
    ensures var m := GripperMessage(GripperCommand(um, effort, ENABLE, 0x00, Width));
            Encode(V2, m) == Encode(V3, m) <==> effort <= MAX_EFFORT
  {
    var m := GripperMessage(GripperCommand(um, effort, ENABLE, 0x00, Width));
    if effort <= MAX_EFFORT {
      L.SameBytesIffNotMoveM(m);
    }
  }

  /** The arm reads every joint to within half a unit of what was commanded. */
  lemma ArmReadsJointCommands(commands: Doubles6, part: Part)
    requires JointTargets(commands).Some?
    ensures commands[2 * part].Finite? && commands[2 * part + 1].Finite?
    ensures var pair := M.ReadPair(PartFrames(M.Call(M.Joints, JointTargets(commands).value))[part]);
            && Abs(pair.first as real - commands[2 * part].value * RAD_TO_MD) <= 0.5
            && Abs(pair.second as real - commands[2 * part + 1].value * RAD_TO_MD) <= 0.5
  {
    var call := M.Call(M.Joints, JointTargets(commands).value);
    M.FrameReadsBack(call, part);
    assert PartFrames(call)[part] == M.FrameFor(call, part);
    assert JointCommandToMillideg(commands[2 * part]).Some?;
    assert JointCommandToMillideg(commands[2 * part + 1]).Some?;
    JointWithinHalfUnit(commands[2 * part].value, 0);
    JointWithinHalfUnit(commands[2 * part + 1].value, 0);
  }

  lemma GripperFrameReadsBack(p: Protocol, um: int32, effort: uint16)
    requires effort <= MAX_EFFORT
    ensures GripperFrame(p, um, effort).id == 0x159
    ensures var (ok, r) := Decode(p, GripperFrame(p, um, effort), 0.0, DEFAULT);
            ok && r.cmd.gripperCmd == GripperCommand(um, effort, ENABLE, 0x00, Width)
  {
    var m := GripperMessage(GripperCommand(um, effort, ENABLE, 0x00, Width));
    var f := GripperFrame(p, um, effort);
    L.GripperMeans(p, m, f, AcceptFrame(f, 0.0, DEFAULT).1);
  }

  /** The gripper reads the commanded stroke to within half a micrometre, with the configured effort, in width mode. */
  lemma GripperReadsCommand(p: Protocol, m: real, effort: uint16)
    requires effort <= MAX_EFFORT && GripperCommandToMicrometres(Finite(m)).Some?
    ensures var um := GripperCommandToMicrometres(Finite(m)).value;
            var (ok, r) := Decode(p, GripperFrame(p, um, effort), 0.0, DEFAULT);
            && ok && r.cmd.gripperCmd == GripperCommand(um, effort, ENABLE, 0x00, Width)
            && Abs(um as real - m * M_TO_UM) <= 0.5
  {
    GripperFrameReadsBack(p, GripperCommandToMicrometres(Finite(m)).value, effort);
    GripperWithinHalfUnit(m, 0);
  }

  /** Since then the arm has acted on one command: six joints, each within half a unit of what was commanded. */
  ghost predicate ActedOn(was: seq<Frame>, now: seq<Frame>, commands: Doubles6) {
    var before, after := M.Listen(was).commits, M.Listen(now).commits;
    && |after| == |before| + 1 && before <= after
    && after[|before|].family == M.Joints && after[|before|].target.Some?
    && forall i :: 0 <= i < 6 ==>
         && commands[i].Finite?
         && Abs(after[|before|].target.value[i] as real - commands[i].value * RAD_TO_MD) <= 0.5
  }

  /** The last frame tells the gripper to move to that stroke, to within half a micrometre, in width mode. */
  ghost predicate GripperTold(p: Protocol, now: seq<Frame>, command: Double, effort: uint16) {
    && now != [] && now[|now| - 1].id == 0x159 && command.Finite?
    && var (ok, r) := Decode(p, now[|now| - 1], 0.0, DEFAULT);
       var c := r.cmd.gripperCmd;
       && ok && c == GripperCommand(c.value, effort, 0x01, 0x00, Width)
       && Abs(c.value as real - command.value * M_TO_UM) <= 0.5
  }

  /** What the arm makes of the beginning of a write: nothing before the third frame, then exactly the joints given. */
  lemma WriteCommits(bus: seq<Frame>, p: Protocol, joints: Six, um: Option<int32>, effort: uint16, n: nat)
    requires effort <= MAX_EFFORT && n <= |WriteFrames(p, joints, um, effort)|
    ensures M.Listen(bus + WriteFrames(p, joints, um, effort)[..n]).commits
            == M.Listen(bus).commits + if n >= 3 then [M.Commit(M.Joints, Some(joints))] else []
  {
    hide M.Listen, M.FrameFor, Encode;
    var parts := PartFrames(M.Call(M.Joints, joints));
    if n <= 3 {
      M.PartsCommit(bus, M.Call(M.Joints, joints), n);
      assert WriteFrames(p, joints, um, effort)[..n] == parts[..n];
    } else {
      var g := GripperFrame(p, um.value, effort);
      M.PartsCommit(bus, M.Call(M.Joints, joints), 3);
      M.ListenAppend(bus + parts, g);
      GripperFrameReadsBack(p, um.value, effort);
      assert parts[..3] == parts;
      assert bus + WriteFrames(p, joints, um, effort)[..n] == (bus + parts) + [g];
    }
  }

  /** Every joint target is within half a unit of its command. */
  lemma TargetsAreClose(commands: Doubles6)
    requires JointTargets(commands).Some?
    ensures forall i :: 0 <= i < 6 ==>
              && commands[i].Finite?
              && Abs(JointTargets(commands).value[i] as real - commands[i].value * RAD_TO_MD) <= 0.5
  {
    forall i | 0 <= i < 6
      ensures commands[i].Finite?
      ensures Abs(JointTargets(commands).value[i] as real - commands[i].value * RAD_TO_MD) <= 0.5
    {
      assert JointCommandToMillideg(commands[i]).Some?;
      JointWithinHalfUnit(commands[i].value, 0);
    }
  }

  lemma WholeWrite(was: seq<Frame>, now: seq<Frame>, p: Protocol, commands: Doubles6, um: Option<int32>, effort: uint16)
    requires effort <= MAX_EFFORT && JointTargets(commands).Some?
    requires now == was + WriteFrames(p, JointTargets(commands).value, um, effort)
    ensures ActedOn(was, now, commands)
  {
    var frames := WriteFrames(p, JointTargets(commands).value, um, effort);
    assert frames[..|frames|] == frames;
    WriteCommits(was, p, JointTargets(commands).value, um, effort, |frames|);
    TargetsAreClose(commands);
  }

  /** A write cut short makes the arm act on nothing, unless it is the gripper's frame that is missing. */
  lemma PartialWrite(was: seq<Frame>, now: seq<Frame>, p: Protocol, commands: Doubles6, um: Option<int32>,
                     effort: uint16)
    requires effort <= MAX_EFFORT && JointTargets(commands).Some?
    requires CutShort(was, now, WriteFrames(p, JointTargets(commands).value, um, effort))
    ensures M.Listen(now).commits == M.Listen(was).commits || (um.Some? && ActedOn(was, now, commands))
  {
    var frames := WriteFrames(p, JointTargets(commands).value, um, effort);
    var k :| 0 <= k < |frames| && now == was + frames[..k];
    WriteCommits(was, p, JointTargets(commands).value, um, effort, k);
    TargetsAreClose(commands);
  }

  lemma WholeWriteTellsGripper(was: seq<Frame>, now: seq<Frame>, p: Protocol, joints: Six, m: real, effort: uint16)
    requires effort <= MAX_EFFORT && GripperCommandToMicrometres(Finite(m)).Some?
    requires now == was + WriteFrames(p, joints, GripperCommandToMicrometres(Finite(m)), effort)
    ensures GripperTold(p, now, Finite(m), effort)
  {
    var um := GripperCommandToMicrometres(Finite(m)).value;
    GripperReadsCommand(p, m, effort);
    assert now[|now| - 1] == GripperFrame(p, um, effort);
  }

  predicate WithinTurn(joints: Six) {
    forall i :: 0 <= i < 6 ==> -FULL_TURN <= joints[i] <= FULL_TURN
  }

  /** Commands seeded from measured joints. */
  function Seeded(joints: Six): Reals6 {
    seq(6, i requires 0 <= i < 6 => MdToRad(joints[i]))
  }

  function AsCommands(values: Reals6): Doubles6 {
    seq(6, i requires 0 <= i < 6 => Finite(values[i]))
  }

  /**
   * Activation does not jolt the arm: untouched, the seeded commands convert back to exactly what was
   * measured, unless a joint was measured beyond a full turn, and then nothing converts.
   */
  lemma SeededCommandsEcho(joints: Six)
    ensures JointTargets(AsCommands(Seeded(joints))) == if WithinTurn(joints) then Some(joints) else None
  {
    var commands := AsCommands(Seeded(joints));
    forall i | 0 <= i < 6
      ensures JointCommandToMillideg(commands[i])
              == if -FULL_TURN <= joints[i] <= FULL_TURN then Some(joints[i]) else None
    {
      JointRoundTrip(joints[i]);
    }
    if WithinTurn(joints) {
      assert JointTargets(commands).value == joints;
    }
  }

  lemma CutShortBefore(was: seq<Frame>, now: seq<Frame>, frames: seq<Frame>, more: seq<Frame>)
    requires CutShort(was, now, frames)
    ensures CutShort(was, now, frames + more)
  {
    var k :| 0 <= k < |frames| && now == was + frames[..k];
    assert (frames + more)[..k] == frames[..k];
  }

  // ---------- What activation may send ----------

  /** No joint target but zero, and that only when driving to zero; no gripper command but the zero reference. */
  predicate Quiet(f: Frame, zeroing: bool, homing: bool) {
    && (0x155 <= f.id <= 0x157 ==> zeroing && f.data == ZERO_PAYLOAD)
    && (f.id == 0x159 ==> homing && f == GRIPPER_ZERO_FRAME)
  }

  /** The bus only grew, by frames of that kind. */
  predicate QuietlyExtends(was: seq<Frame>, now: seq<Frame>, zeroing: bool, homing: bool) {
    was <= now && forall i :: |was| <= i < |now| ==> Quiet(now[i], zeroing, homing)
  }

  lemma ZeroPair(k: Part)
    ensures PairBytes(ZERO_SIX, k) == ZERO_PAYLOAD
  {}

  lemma ZeroFrames(k: Part)
    ensures PartFrames(M.Call(M.Joints, ZERO_SIX))[k].data == ZERO_PAYLOAD
    ensures PartFrames(M.Call(M.Joints, ZERO_SIX))[k].id == 0x155 + k
  {
    var call := M.Call(M.Joints, ZERO_SIX);
    assert PartFrames(call)[k] == M.FrameFor(call, k);
    ZeroPair(k);
  }

  const ZERO_TARGET := M.Call(M.Joints, ZERO_SIX)

  /** What every successful activation starts with on the bus; the mode itself is what the interface's shadow says. */
  predicate Announced(was: seq<Frame>, now: seq<Frame>, zeroing: bool) {
    && was + [ENABLE_FRAME] <= now && |was| + 1 < |now| && now[|was| + 1].id == 0x151
    && (zeroing ==> |was| + 5 <= |now| && now[|was| + 2..|was| + 5] == PartFrames(ZERO_TARGET))
  }

  lemma NothingIsQuiet(zeroing: bool, homing: bool)
    ensures QuietlyExtends([], [], zeroing, homing)
  {}

  lemma QuietThen(was: seq<Frame>, mid: seq<Frame>, now: seq<Frame>, zeroing: bool, homing: bool)
    requires QuietlyExtends(was, mid, zeroing, homing) && QuietlyExtends(mid, now, zeroing, homing)
    ensures QuietlyExtends(was, now, zeroing, homing)
  {}

  /** What is allowed only sometimes need not happen. */
  lemma QuietAnyway(was: seq<Frame>, now: seq<Frame>, zeroing: bool, homing: bool, z: bool, h: bool)
    requires QuietlyExtends(was, now, z, h) && (z ==> zeroing) && (h ==> homing)
    ensures QuietlyExtends(was, now, zeroing, homing) && was <= now
  {}

  lemma AnnouncedBy(was: seq<Frame>, enabled: seq<Frame>, mode: seq<Frame>, now: seq<Frame>, zeroing: bool)
    requires enabled == was + [ENABLE_FRAME] && enabled <= mode
    requires |mode| == |enabled| + 1 && mode[|enabled|].id == 0x151
    requires if zeroing then mode + PartFrames(ZERO_TARGET) <= now else mode <= now
    ensures Announced(was, now, zeroing)
  {
    hide PartFrames;
  }

  lemma MoreAfterAnnouncing(was: seq<Frame>, mid: seq<Frame>, now: seq<Frame>, zeroing: bool, homing: bool)
    requires QuietlyExtends(was, mid, zeroing, false) && QuietlyExtends(mid, now, false, homing)
    ensures QuietlyExtends(was, now, zeroing, homing)
    ensures Announced(was, mid, zeroing) ==> Announced(was, now, zeroing)
  {}

  lemma ZeroingIsQuiet(was: seq<Frame>, before: seq<Frame>, now: seq<Frame>)
    requires QuietlyExtends(was, before, true, false)
    requires now == before + PartFrames(ZERO_TARGET) || CutShort(before, now, PartFrames(ZERO_TARGET))
    ensures QuietlyExtends(was, now, true, false)
  {
    ZeroFrames(0);
    ZeroFrames(1);
    ZeroFrames(2);
  }

  lemma InitialQueriesAreQuiet(was: seq<Frame>, now: seq<Frame>)
    requires InitialQueries(was, now)
    ensures QuietlyExtends(was, now, false, false)
  {
    var k: nat, asked :| k <= 12 && now == was + FirstQueries(k, asked);
    assert forall i :: |was| <= i < |now| ==> now[i] == FirstQueries(k, asked)[i - |was|];
  }

  datatype CallbackReturn = SUCCESS | ERROR

  type Joints = Snapshot<Six>
  type Gripper = Snapshot<GripperState>
  type Speeds6 = s: seq<HighSpd> | |s| == 6 witness [ZERO_HIGH, ZERO_HIGH, ZERO_HIGH, ZERO_HIGH, ZERO_HIGH, ZERO_HIGH]
  type HighSpeeds = Snapshot<Speeds6>

  /** Milliradians per second to radians per second. */
  function Velocities(s: Speeds6): (r: Reals6)
    ensures forall i :: 0 <= i < 6 ==> r[i] * 1000.0 == s[i].speed as real
  {
    seq(6, i requires 0 <= i < 6 => s[i].speed as real * MILLI_TO_UNIT)
  }

  function Efforts(s: Speeds6): (r: Reals6)
    ensures forall i :: 0 <= i < 6 ==> r[i] * 1000.0 == s[i].effort
  {
    seq(6, i requires 0 <= i < 6 => s[i].effort * MILLI_TO_UNIT)
  }

  /** gripper_max_effort in 0.001 N*m, clamped to what the firmware accepts. */
  function ClampEffort(nm: real): (milli: uint16)
    ensures milli <= MAX_EFFORT
    ensures nm <= 0.0 ==> milli == 0
    ensures 0.0 <= nm <= 5.0 ==> -0.5 <= milli as real - nm * 1000.0 <= 0.5
    ensures nm >= 5.0 ==> milli == 5000
  {
    var milli := LRound(nm * 1000.0);
    if milli < 0 then 0 else if milli > MAX_EFFORT then MAX_EFFORT else milli
  }

  function ClampPercent(speed: int): (b: byte)
    ensures b as int == if speed >= 100 then 100 else if speed <= 0 then 0 else speed
  {
    if speed < 0 then 0 else if speed > 100 then 100 else speed
  }

  const ENABLE_TIMEOUT_MS := 5000
  const ZERO_DURATION_MS := 3000
  const FEEDBACK_TIMEOUT_MS := 2000

  /** The transport refused one of the frames it was given since then. */
  ghost predicate SendFailed(piper: PiperInterface, since: nat) reads piper {
    since <= piper.attempts && !piper.Takes(since, piper.attempts - since)
  }

  lemma SendFailedEarlier(piper: PiperInterface, since: nat, later: nat)
    requires since <= later && SendFailed(piper, later)
    ensures SendFailed(piper, since)
  {}

  lemma LastSendFailed(piper: PiperInterface, since: nat)
    requires piper.attempts == since + 1 && !piper.transport(since)
    ensures SendFailed(piper, since)
  {}

  /** No fresh feedback in time, a gripper out of width mode, or a failed send on the way. */
  ghost predicate SeedingFailed(piper: PiperInterface, since: nat, waited: int, withGripper: bool,
                                js: Joints, gs: Gripper)
    reads piper
  {
    || SendFailed(piper, since)
    || (!js.isHealthy && waited > FEEDBACK_TIMEOUT_MS)
    || (withGripper && (gs.value.mode != Width || (!gs.isHealthy && waited > FEEDBACK_TIMEOUT_MS)))
  }

  lemma SendFailureFailsSeeding(piper: PiperInterface, since: nat, waited: int, withGripper: bool,
                                js: Joints, gs: Gripper)
    ensures SendFailed(piper, since) ==> SeedingFailed(piper, since, waited, withGripper, js, gs)
  {}

  lemma SeedingFailedEarlier(piper: PiperInterface, since: nat, later: nat, waited: int, more: int, withGripper: bool,
                             js: Joints, gs: Gripper)
    requires since <= later && waited <= more && SeedingFailed(piper, later, waited, withGripper, js, gs)
    ensures SeedingFailed(piper, since, more, withGripper, js, gs)
  {
    if SendFailed(piper, later) {
      SendFailedEarlier(piper, since, later);
    }
  }

  class PiperHardware {
    const protocol: Protocol
    const speed: byte
    const goToZero: bool
    const withGripper: bool
    const homeGripper: bool
    const effort: uint16

    var piper: PiperInterface?
    var active: bool
    var statePosition: Reals6
    var stateVelocity: Reals6
    var stateEffort: Reals6
    var commands: Doubles6
    var gripperPosition: real
    var gripperEffort: real
    var gripperCommand: Double
    /** steady_clock, in milliseconds */
    var clock: int
    /** The last readings taken, for the proof. */
    ghost var jointSample: Joints
    ghost var gripperSample: Gripper
    ghost var enabledSample: bool

    ghost function Footprint(): set<object> reads this {
      if piper == null then {this} else {this, piper}
    }

    ghost predicate Valid() reads this, Footprint() {
      && effort <= MAX_EFFORT && speed <= 100
      && (piper != null ==> piper.protocol == protocol && piper.connected && piper.Valid())
    }

    ghost function Now(): Flags reads this {
      Flags(piper != null, active)
    }

    ghost function Bus(): seq<Frame> reads this, Footprint() {
      if piper == null then [] else piper.bus
    }

    /** on_init: parameters are clamped here, once. */
    constructor (protocol: Protocol, speedPct: int, goToZero: bool, withGripper: bool, maxEffortNm: real,
                 homeGripper: bool)
      ensures Valid() && Now() == Flags(false, false) && this.protocol == protocol
      ensures effort == ClampEffort(maxEffortNm) && speed == ClampPercent(speedPct)
      ensures this.goToZero == goToZero && this.withGripper == withGripper && this.homeGripper == homeGripper
    {
      this.protocol, this.goToZero, this.withGripper, this.homeGripper := protocol, goToZero, withGripper, homeGripper;
      speed, effort := ClampPercent(speedPct), ClampEffort(maxEffortNm);
      piper, active, clock := null, false, 0;
      var zeros: Reals6 := [0.0, 0.0, 0.0, 0.0, 0.0, 0.0];
      statePosition, stateVelocity, stateEffort, commands := zeros, zeros, zeros, AsCommands(zeros);
      gripperPosition, gripperEffort, gripperCommand := 0.0, 0.0, Finite(0.0);
      jointSample := Snapshot(ZERO_SIX, 0.0, None, false, false);
      gripperSample := Snapshot(GripperState(0, 0, 0, Width), 0.0, None, false, false);
      enabledSample := false;
    }

    /** Nothing that moves the arm is sent: connecting only asks for limits and firmware. */
    method OnConfigure() returns (r: CallbackReturn)
      requires Valid()
      modifies this`piper
      ensures Valid()
      ensures Now() == Effect(Configure, r == SUCCESS, old(Now()))
      ensures if r == SUCCESS then InitialQueries([], Bus()) else Bus() == []
      ensures QuietlyExtends([], Bus(), false, false)
      ensures piper != null ==> fresh(piper) && piper.connected
    {
      var transport: nat -> bool := *;
      var p := new PiperInterface(protocol, transport);
      var ok := p.ConnectPort();
      if !ok {
        piper := null;
        return ERROR;
      }
      InitialQueriesAreQuiet([], p.bus);
      piper := p;
      r := SUCCESS;
    }

    /** Waiting takes at least the time asked for. */
    method Sleep(ms: nat)
      modifies this`clock
      ensures clock >= old(clock) + ms
    {
      var late: nat :| true;
      clock := clock + ms + late;
    }

    /** Feedback arrives when it arrives; a healthy snapshot is a valid one. */
    method GetArmJointStates() returns (s: Joints)
      modifies this`jointSample
      ensures s == jointSample && (s.isHealthy ==> s.isValid)
    {
      s := Snapshot(ZERO_SIX, 0.0, None, false, false);
      var other: Joints :| true;
      if other.isHealthy ==> other.isValid {
        s := other;
      }
      jointSample := s;
    }

    method GetGripperStates() returns (s: Gripper)
      modifies this`gripperSample
      ensures s == gripperSample && (s.isHealthy ==> s.isValid)
    {
      s := Snapshot(GripperState(0, 0, 0, Width), 0.0, None, false, false);
      var other: Gripper :| true;
      if other.isHealthy ==> other.isValid {
        s := other;
      }
      gripperSample := s;
    }

    method IsEnabled() returns (b: bool)
      modifies this`enabledSample
      ensures b == enabledSample
    {
      b := *;
      enabledSample := b;
    }

    method WaitUntilEnabled() returns (ok: bool)
      modifies this`clock, this`enabledSample
      ensures ok ==> enabledSample
      ensures clock >= old(clock) && (!ok ==> !enabledSample && clock - old(clock) > ENABLE_TIMEOUT_MS)
    {
      var t0 := clock;
      var enabled := IsEnabled();
      while !enabled
        invariant clock >= t0 && enabled == enabledSample
        decreases !enabled, t0 + ENABLE_TIMEOUT_MS - clock
      {
        if clock - t0 > ENABLE_TIMEOUT_MS {
          return false;
        }
        Sleep(50);
        enabled := IsEnabled();
      }
      ok := true;
    }

    /** Streams zero targets for the whole duration, or until a send fails. */
    method DriveToZero() returns (ok: bool)
      requires Valid() && piper != null
      modifies piper`bus, piper`attempts, this`clock
      ensures Valid()
      ensures QuietlyExtends(old(piper.bus), piper.bus, true, false)
      ensures ok ==> clock - old(clock) >= ZERO_DURATION_MS && old(piper.bus) + PartFrames(ZERO_TARGET) <= piper.bus
      ensures clock >= old(clock) && piper.attempts >= old(piper.attempts)
      ensures !ok ==> SendFailed(piper, old(piper.attempts))
    {
      var t0 := clock;
      while clock - t0 < ZERO_DURATION_MS
        invariant Valid()
        invariant QuietlyExtends(old(piper.bus), piper.bus, true, false)
        invariant clock == t0 || old(piper.bus) + PartFrames(ZERO_TARGET) <= piper.bus
        invariant clock == t0 ==> piper.bus == old(piper.bus)
        invariant clock >= t0 && piper.attempts >= old(piper.attempts)
        decreases t0 + ZERO_DURATION_MS - clock
      {
        ghost var before, tried := piper.bus, piper.attempts;
        var sent := piper.ControlJoints(ZERO_SIX);
        ZeroingIsQuiet(old(piper.bus), before, piper.bus);
        if sent != Sent {
          SendFailedEarlier(piper, old(piper.attempts), tried);
          return false;
        }
        Sleep(20);
      }
      ok := true;
    }

    /** Waits for fresh joint feedback and seeds both buffers from it. */
    method SeedJoints() returns (ok: bool)
      modifies this`clock, this`statePosition, this`commands, this`jointSample
      ensures ok ==> jointSample.isHealthy && statePosition == Seeded(jointSample.value)
      ensures ok ==> commands == AsCommands(statePosition)
      ensures clock >= old(clock) && (!ok ==> !jointSample.isHealthy && clock - old(clock) > FEEDBACK_TIMEOUT_MS)
    {
      var js := GetArmJointStates();
      var t0 := clock;
      while !js.isHealthy
        invariant clock >= t0 && js == jointSample
        decreases !js.isHealthy, t0 + FEEDBACK_TIMEOUT_MS - clock
      {
        if clock - t0 > FEEDBACK_TIMEOUT_MS {
          return false;
        }
        Sleep(20);
        js := GetArmJointStates();
      }
      var v := js.value;
      statePosition := [MdToRad(v[0]), MdToRad(v[1]), MdToRad(v[2]), MdToRad(v[3]), MdToRad(v[4]), MdToRad(v[5])];
      assert statePosition == Seeded(js.value);
      commands := AsCommands(statePosition);
      ok := true;
    }

    /** Makes the present jaw position the gripper's zero. */
    method HomeGripper() returns (ok: bool)
      requires Valid() && piper != null
      modifies piper`bus, piper`attempts, this`clock
      ensures Valid()
      ensures QuietlyExtends(old(piper.bus), piper.bus, false, true)
      ensures ok ==> piper.bus == old(piper.bus) + [GRIPPER_ZERO_FRAME]
      ensures clock >= old(clock) && piper.attempts >= old(piper.attempts)
      ensures !ok ==> SendFailed(piper, old(piper.attempts))
    {
      hide SendFailed;
      ghost var tried := piper.attempts;
      var sent := piper.SetGripperZero();
      if sent != Sent {
        LastSendFailed(piper, tried);
        return false;
      }
      Sleep(50);
      ok := true;
    }

    /** Waits for the gripper, optionally takes its position as zero, and seeds its command. */
    method SeedGripper() returns (ok: bool)
      requires Valid() && piper != null
      modifies piper`bus, piper`attempts, this`clock
      modifies this`gripperPosition, this`gripperEffort, this`gripperCommand, this`gripperSample
      ensures Valid()
      ensures QuietlyExtends(old(piper.bus), piper.bus, false, homeGripper)
      ensures ok ==> gripperSample.value.mode == Width && (homeGripper || gripperSample.isHealthy)
      ensures ok ==> gripperPosition == UmToM(gripperSample.value.value) && gripperCommand == Finite(gripperPosition)
      ensures ok ==> gripperEffort == gripperSample.value.effort as real * MILLI_TO_UNIT
      ensures ok && homeGripper ==> piper.bus == old(piper.bus) + [GRIPPER_ZERO_FRAME]
      ensures clock >= old(clock) && piper.attempts >= old(piper.attempts)
      ensures !ok ==> || SendFailed(piper, old(piper.attempts)) || gripperSample.value.mode != Width
                      || (!gripperSample.isHealthy && clock - old(clock) > FEEDBACK_TIMEOUT_MS)
    {
      var gs := GetGripperStates();
      var t0 := clock;
      while !gs.isHealthy
        invariant clock >= t0 && Valid() && piper.bus == old(piper.bus) && gs == gripperSample
        invariant piper.attempts == old(piper.attempts)
        decreases !gs.isHealthy, t0 + FEEDBACK_TIMEOUT_MS - clock
      {
        if clock - t0 > FEEDBACK_TIMEOUT_MS {
          return false;
        }
        Sleep(20);
        gs := GetGripperStates();
      }
      if homeGripper {
        ok := HomeGripper();
        if !ok {
          return false;
        }
        gs := GetGripperStates();
      }
      if gs.value.mode != Width {
        return false;
      }
      gripperPosition := UmToM(gs.value.value);
      gripperEffort := gs.value.effort as real * MILLI_TO_UNIT;
      gripperCommand := Finite(gripperPosition);
      ok := true;
    }

    method EnableMotors() returns (ok: bool)
      requires Valid() && piper != null
      modifies piper`bus, piper`attempts, this`clock, this`enabledSample
      ensures Valid()
      ensures QuietlyExtends(old(piper.bus), piper.bus, false, false)
      ensures ok ==> enabledSample && piper.bus == old(piper.bus) + [ENABLE_FRAME]
      ensures clock >= old(clock) && piper.attempts >= old(piper.attempts)
      ensures !ok ==> || SendFailed(piper, old(piper.attempts))
                      || (!enabledSample && clock - old(clock) > ENABLE_TIMEOUT_MS)
    {
      hide SendFailed;
      ghost var tried := piper.attempts;
      var sent := piper.EnableRobot();
      if sent != Sent {
        LastSendFailed(piper, tried);
        return false;
      }
      ok := WaitUntilEnabled();
    }

    /** CAN control, MoveJ, position-velocity. */
    method SetMotionMode() returns (ok: bool)
      requires Valid() && piper != null
      modifies piper`bus, piper`attempts, piper`ctrl151
      ensures Valid()
      ensures QuietlyExtends(old(piper.bus), piper.bus, false, false)
      ensures ok ==> piper.ctrl151 == MotionMode(0x01, 0x01, speed, 0x00, 0, 0x00)
      ensures ok ==> |piper.bus| == |old(piper.bus)| + 1 && piper.bus[|old(piper.bus)|].id == 0x151
      ensures piper.attempts >= old(piper.attempts) && (!ok ==> SendFailed(piper, old(piper.attempts)))
    {
      hide SendFailed;
      ghost var tried := piper.attempts;
      var sent := piper.SendMotionCtrl2(MotionMode(0x01, 0x01, speed, 0x00, 0, 0x00));
      ok := sent == Sent;
      if !ok {
        LastSendFailed(piper, tried);
      }
    }

    /** Everything the arm is told before the buffers are seeded. */
    method PrepareMotion() returns (ok: bool)
      requires Valid() && piper != null
      modifies piper`bus, piper`attempts, piper`ctrl151, this`clock, this`enabledSample
      ensures Valid()
      ensures QuietlyExtends(old(piper.bus), piper.bus, goToZero, false)
      ensures ok ==> enabledSample && piper.ctrl151 == MotionMode(0x01, 0x01, speed, 0x00, 0, 0x00)
      ensures ok ==> Announced(old(piper.bus), piper.bus, goToZero)
      ensures clock >= old(clock) && piper.attempts >= old(piper.attempts)
      ensures !ok ==> || SendFailed(piper, old(piper.attempts))
                      || (!enabledSample && clock - old(clock) > ENABLE_TIMEOUT_MS)
    {
      hide SendFailed, QuietlyExtends, Announced;
      ghost var was, tried := piper.bus, piper.attempts;
      ok := EnableMotors();
      ghost var enabled, triedMode := piper.bus, piper.attempts;
      QuietAnyway(was, enabled, goToZero, false, false, false);
      if !ok {
        return;
      }
      ok := SetMotionMode();
      ghost var mode, triedZero := piper.bus, piper.attempts;
      QuietAnyway(enabled, mode, goToZero, false, false, false);
      QuietThen(was, enabled, mode, goToZero, false);
      if !ok {
        SendFailedEarlier(piper, tried, triedMode);
        return;
      }
      if goToZero {
        ok := DriveToZero();
        QuietThen(was, mode, piper.bus, goToZero, false);
        if !ok {
          SendFailedEarlier(piper, tried, triedZero);
          return;
        }
      }
      AnnouncedBy(was, enabled, mode, piper.bus, goToZero);
    }

    method SeedBuffers() returns (ok: bool)
      requires Valid() && piper != null
      modifies piper`bus, piper`attempts, this`clock, this`statePosition, this`commands
      modifies this`gripperPosition, this`gripperEffort, this`gripperCommand
      modifies this`jointSample, this`gripperSample
      ensures Valid()
      ensures QuietlyExtends(old(piper.bus), piper.bus, false, withGripper && homeGripper)
      ensures ok ==> jointSample.isHealthy && statePosition == Seeded(jointSample.value)
                     && commands == AsCommands(statePosition)
      ensures ok && withGripper ==>
                && gripperSample.value.mode == Width && (homeGripper || gripperSample.isHealthy)
                && gripperCommand == Finite(UmToM(gripperSample.value.value))
      ensures clock >= old(clock) && piper.attempts >= old(piper.attempts)
      ensures !ok ==> SeedingFailed(piper, old(piper.attempts), clock - old(clock), withGripper,
                                    jointSample, gripperSample)
    {
      hide SendFailed;
      ok := SeedJoints();
      if ok && withGripper {
        ok := SeedGripper();
      }
    }

    /**
     * On success the command buffers hold the fresh feedback the component sampled; on the way there the arm is
     * told to move only to zero, and only when so configured.
     */
    method OnActivate() returns (r: CallbackReturn)
      requires Valid()
      modifies this`active, this`clock, this`statePosition, this`commands
      modifies this`gripperPosition, this`gripperEffort, this`gripperCommand
      modifies this`jointSample, this`gripperSample, this`enabledSample
      modifies Footprint() - {this}
      ensures Valid()
      ensures Now() == Effect(Activate, r == SUCCESS, old(Now())) && Possible(Activate, r == SUCCESS, old(Now()))
      ensures QuietlyExtends(old(Bus()), Bus(), goToZero, withGripper && homeGripper)
      ensures r == SUCCESS ==>
                && jointSample.isHealthy && statePosition == Seeded(jointSample.value)
                && commands == AsCommands(statePosition)
      ensures r == SUCCESS && withGripper ==>
                && gripperSample.value.mode == Width && (homeGripper || gripperSample.isHealthy)
                && gripperCommand == Finite(UmToM(gripperSample.value.value))
      ensures r == SUCCESS ==>
                && enabledSample && piper.ctrl151 == MotionMode(0x01, 0x01, speed, 0x00, 0, 0x00)
                && Announced(old(Bus()), Bus(), goToZero)
      ensures r == ERROR && piper != null ==>
                || (!enabledSample && clock - old(clock) > ENABLE_TIMEOUT_MS)
                || SeedingFailed(piper, old(if piper == null then 0 else piper.attempts), clock - old(clock),
                                 withGripper, jointSample, gripperSample)
    {
      hide SeedingFailed, SendFailed, QuietlyExtends, Announced;
      if piper == null {
        NothingIsQuiet(goToZero, withGripper && homeGripper);
        return ERROR;
      }
      var ok := PrepareMotion();
      QuietAnyway(old(Bus()), piper.bus, goToZero, withGripper && homeGripper, goToZero, false);
      if !ok {
        SendFailureFailsSeeding(piper, old(piper.attempts), clock - old(clock), withGripper,
                                jointSample, gripperSample);
        return ERROR;
      }
      hide Seeded, AsCommands;
      ghost var mid, tried, since := piper.bus, piper.attempts, clock;
      ok := SeedBuffers();
      MoreAfterAnnouncing(old(Bus()), mid, piper.bus, goToZero, withGripper && homeGripper);
      if !ok {
        SeedingFailedEarlier(piper, old(piper.attempts), tried, clock - since, clock - old(clock), withGripper,
                             jointSample, gripperSample);
        return ERROR;
      }
      active := true;
      r := SUCCESS;
    }

    method OnDeactivate()
      requires Valid()
      modifies this`active
      ensures Valid() && Now() == Effect(Deactivate, true, old(Now()))
    {
      active := false;
    }

    method OnError()
      requires Valid()
      modifies this`active, this`piper, Footprint() - {this}
      ensures Valid() && Now() == Effect(Callback.OnError, true, old(Now()))
    {
      active := false;
      if piper != null {
        piper.DisconnectPort();
        piper := null;
      }
    }

    /** Leaves the streaming flag as it is. */
    method OnCleanup()
      requires Valid()
      modifies this`piper, Footprint() - {this}
      ensures Valid() && Now() == Effect(Cleanup, true, old(Now()))
    {
      if piper != null {
        piper.DisconnectPort();
        piper := null;
      }
    }

    /** Motor speeds and efforts, in the units of the component. */
    method ReadSpeeds(s: Speeds6)
      modifies this`stateVelocity, this`stateEffort
      ensures stateVelocity == Velocities(s) && stateEffort == Efforts(s)
    {
      for i := 0 to 6
        invariant forall j :: 0 <= j < i ==>
                    && stateVelocity[j] == s[j].speed as real * MILLI_TO_UNIT
                    && stateEffort[j] == s[j].effort * MILLI_TO_UNIT
      {
        stateVelocity := stateVelocity[i := s[i].speed as real * MILLI_TO_UNIT];
        stateEffort := stateEffort[i := s[i].effort * MILLI_TO_UNIT];
      }
      assert stateVelocity == Velocities(s) && stateEffort == Efforts(s);
    }

    /**
     * Stale feedback, or a gripper that is not in width mode, is an error while active; inactive, it leaves the
     * reported state alone. What was read before the error stays reported.
     */
    method OnRead(js: Joints, hs: HighSpeeds, gs: Gripper) returns (ok: bool)
      requires Valid() && (js.isHealthy ==> js.isValid) && (gs.isHealthy ==> gs.isValid)
      modifies this`statePosition, this`stateVelocity, this`stateEffort, this`gripperPosition, this`gripperEffort
      ensures Valid() && Now() == Effect(Read, ok, old(Now()))
      ensures !ok <==> piper == null
                       || (active && (!js.isHealthy || (withGripper && (!gs.isHealthy || gs.value.mode != Width))))
      ensures statePosition == if piper != null && js.isValid && (active ==> js.isHealthy) then Seeded(js.value)
                               else old(statePosition)
      ensures if piper != null && hs.isValid && (active ==> js.isHealthy) then
                stateVelocity == Velocities(hs.value) && stateEffort == Efforts(hs.value)
              else
                stateVelocity == old(stateVelocity) && stateEffort == old(stateEffort)
      ensures if ok && withGripper && gs.isValid && gs.value.mode == Width then
                gripperPosition == UmToM(gs.value.value) && gripperEffort == gs.value.effort as real * MILLI_TO_UNIT
              else
                gripperPosition == old(gripperPosition) && gripperEffort == old(gripperEffort)
    {
      if piper == null {
        return false;
      }
      if active && !js.isHealthy {
        return false;
      }
      if js.isValid {
        var v := js.value;
        statePosition := [MdToRad(v[0]), MdToRad(v[1]), MdToRad(v[2]), MdToRad(v[3]), MdToRad(v[4]), MdToRad(v[5])];
        assert statePosition == Seeded(v);
      }
      if hs.isValid {
        ReadSpeeds(hs.value);
      }
      if withGripper {
        ok := ReadGripper(gs);
        return;
      }
      ok := true;
    }

    method ReadGripper(gs: Gripper) returns (ok: bool)
      requires gs.isHealthy ==> gs.isValid
      modifies this`gripperPosition, this`gripperEffort
      ensures !ok <==> active && (!gs.isHealthy || gs.value.mode != Width)
      ensures if ok && gs.isValid && gs.value.mode == Width then
                gripperPosition == UmToM(gs.value.value) && gripperEffort == gs.value.effort as real * MILLI_TO_UNIT
              else
                gripperPosition == old(gripperPosition) && gripperEffort == old(gripperEffort)
    {
      if active && !gs.isHealthy {
        return false;
      }
      var widthMode := gs.value.mode == Width;
      if active && gs.isValid && !widthMode {
        return false;
      }
      if gs.isValid && widthMode {
        gripperPosition := UmToM(gs.value.value);
        gripperEffort := gs.value.effort as real * MILLI_TO_UNIT;
      }
      ok := true;
    }

    /** Converts the commands one by one, stopping at the first that has no wire value. */
    method ConvertJoints() returns (r: Option<Six>)
      ensures r == JointTargets(commands)
    {
      var targets: seq<int32> := [];
      for i := 0 to 6
        invariant |targets| == i
        invariant forall j :: 0 <= j < i ==> JointCommandToMillideg(commands[j]) == Some(targets[j])
      {
        var md := JointCommandToMillideg(commands[i]);
        if md.None? {
          return None;
        }
        targets := targets + [md.value];
      }
      assert JointTargets(commands).Some? && JointTargets(commands).value == targets;
      r := Some(targets);
    }

    /** Three joint frames, then the gripper's, stopping at the first that is not sent. */
    method Transmit(targets: Six, um: Option<int32>) returns (ok: bool)
      requires Valid() && piper != null
      modifies piper`bus, piper`attempts
      ensures Valid()
      ensures var frames := WriteFrames(protocol, targets, um, effort);
              if ok then piper.bus == old(piper.bus) + frames
              else CutShort(old(piper.bus), piper.bus, frames)
      ensures piper.Takes(old(piper.attempts), if um.Some? then 4 else 3) ==> ok
    {
      hide M.Listen;
      ghost var was, parts := piper.bus, PartFrames(M.Call(M.Joints, targets));
      var sent := piper.ControlJoints(targets);
      if sent != Sent {
        CutShortBefore(was, piper.bus, parts, if um.Some? then [GripperFrame(protocol, um.value, effort)] else []);
        return false;
      }
      if um.Some? {
        ghost var all := parts + [GripperFrame(protocol, um.value, effort)];
        assert all[..3] == parts;
        OneMore(was, all, 3, piper.bus);
        sent := piper.ControlGripper(um.value, effort, ENABLE);
        if sent != Sent {
          return false;
        }
      }
      ok := true;
    }

    /**
     * All-or-nothing: the whole command set is checked before any of it is sent. A failed send leaves a proper
     * prefix of the frames on the bus.
     */
    method OnWrite() returns (ok: bool)
      requires Valid()
      modifies if piper == null then {} else {piper}
      ensures Valid() && Possible(Write, ok, old(Now()))
      ensures !Streams(Now()) ==> Bus() == old(Bus())
      ensures var targets := JointTargets(commands);
              var um := if withGripper then GripperCommandToMicrometres(gripperCommand) else None;
              Streams(Now()) ==>
                if targets.None? || (withGripper && um.None?) then
                  !ok && Bus() == old(Bus())
                else
                  var frames := WriteFrames(protocol, targets.value, um, effort);
                  if ok then Bus() == old(Bus()) + frames
                  else CutShort(old(Bus()), Bus(), frames)
      ensures var usable := JointTargets(commands).Some?
                            && (withGripper ==> GripperCommandToMicrometres(gripperCommand).Some?);
              var frames := if withGripper then 4 else 3;
              var tried := old(if piper == null then 0 else piper.attempts);
              usable && Streams(Now()) && piper.Takes(tried, frames) ==> ok
      ensures ok && Streams(Now()) ==>
                && ActedOn(old(Bus()), Bus(), commands)
                && (withGripper ==> GripperTold(protocol, Bus(), gripperCommand, effort))
      ensures !ok ==> M.Listen(Bus()).commits == M.Listen(old(Bus())).commits
                      || (withGripper && ActedOn(old(Bus()), Bus(), commands))
    {
      if piper == null {
        return false;
      }
      if !active {
        return true;
      }
      var targets := ConvertJoints();
      if targets.None? {
        return false;
      }
      var um := None;
      if withGripper {
        um := GripperCommandToMicrometres(gripperCommand);
        if um.None? {
          return false;
        }
      }
      ghost var was := piper.bus;
      ok := Transmit(targets.value, um);
      if ok {
        WholeWrite(was, piper.bus, protocol, commands, um, effort);
        if withGripper {
          WholeWriteTellsGripper(was, piper.bus, protocol, targets.value, gripperCommand.value, effort);
        }
      } else {
        PartialWrite(was, piper.bus, protocol, commands, um, effort);
      }
    }
  }

  predicate WithinMetre(um: int32) {
    -METRE <= um <= METRE
  }

  /**
   * The first write after activation, with the commands untouched: it transmits exactly what was sampled, or the
   * beginning of that if a send fails, or, when a sampled value has no place on the wire, nothing.
   */
  method FirstWrite(hw: PiperHardware) returns (r: CallbackReturn, ok: bool, ghost before: seq<Frame>)
    requires hw.Valid()
    modifies hw, hw.Footprint()
    ensures hw.Valid()
    ensures r == SUCCESS ==>
              var joints, um := hw.jointSample.value, hw.gripperSample.value.value;
              if WithinTurn(joints) && (hw.withGripper ==> WithinMetre(um)) then
                var stroke := if hw.withGripper then Some(um) else None;
                var frames := WriteFrames(hw.protocol, joints, stroke, hw.effort);
                && (if ok then hw.Bus() == before + frames else CutShort(before, hw.Bus(), frames))
                && (ok ==> Echoed(hw, before, joints, stroke))
              else
                !ok && hw.Bus() == before
    ensures QuietlyExtends(old(hw.Bus()), before, hw.goToZero, hw.withGripper && hw.homeGripper)
  {
    hide Announced, QuietlyExtends, Seeded, AsCommands, WriteFrames, Echoed, ActedOn, GripperTold, CutShort;
    r := hw.OnActivate();
    before := hw.Bus();
    ok := false;
    if r == SUCCESS {
      ghost var joints, um := hw.jointSample.value, hw.gripperSample.value.value;
      SeededCommandsEcho(joints);
      GripperRoundTrip(hw.gripperSample.value.value);
      ok := hw.OnWrite();
      if ok {
        EchoedByWrite(hw, before, joints, if hw.withGripper then Some(um) else None);
      }
    }
  }

  /** The arm has acted on exactly these joints, and the gripper has been told exactly that stroke. */
  ghost predicate Echoed(hw: PiperHardware, before: seq<Frame>, joints: Six, stroke: Option<int32>)
    reads hw, hw.Footprint()
  {
    && M.Listen(hw.Bus()).commits == M.Listen(before).commits + [M.Commit(M.Joints, Some(joints))]
    && (stroke.Some? ==>
          && hw.Bus() != [] && hw.Bus()[|hw.Bus()| - 1].id == 0x159
          && var (ok, r) := Decode(hw.protocol, hw.Bus()[|hw.Bus()| - 1], 0.0, DEFAULT);
             ok && r.cmd.gripperCmd == GripperCommand(stroke.value, hw.effort, 0x01, 0x00, Width))
  }

  lemma EchoedByWrite(hw: PiperHardware, before: seq<Frame>, joints: Six, stroke: Option<int32>)
    requires hw.Valid() && hw.Bus() == before + WriteFrames(hw.protocol, joints, stroke, hw.effort)
    ensures Echoed(hw, before, joints, stroke)
  {
    hide M.Listen, GripperFrame, Decode;
    var frames := WriteFrames(hw.protocol, joints, stroke, hw.effort);
    assert frames[..|frames|] == frames;
    WriteCommits(before, hw.protocol, joints, stroke, hw.effort, |frames|);
    if stroke.Some? {
      GripperFrameReadsBack(hw.protocol, stroke.value, hw.effort);
      assert hw.Bus()[|hw.Bus()| - 1] == frames[3];
    }
  }
}
