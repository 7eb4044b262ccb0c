/** Decoding and encoding of frames under protocols V2 and V3, as functions of the frame and the message. */
module Parser {
  import opened Bytes
  import opened Messages
  import opened Mit

  const SFF_LIMIT := 0x800
  const CAN_MAX_DLEN := 8
  const MOVE_M: byte := 0x04
  const MOVE_CPV: byte := 0x05
  const MOVE_M_WIRE_V3: byte := 0x06
  const UNKNOWN_MODE: byte := 0xFF
  const HORIZONTAL_INVERTED: byte := 0x04
  const MAX_GRIPPER_EFFORT_V3: uint16 := 5000

  // ---------- Decoding ----------

  /** One past the last byte the decoder reads for this identifier. */
  function RequiredDlc(id: nat): (n: nat)
    ensures n <= 8
  {
    if id == 0x2A8 || id == 0x473 then 7
    else if id == 0x47B || id == 0x151 then 6
    else if id == 0x47E || id == 0x47C then 3
    else if id == 0x476 then 2
    else if id == 0x4AF then 0
    else 8
  }

  function Int32At(d: Payload, k: nat): int32
    requires k <= 4
  {
    BytesToInt32(d[k..k + 4])
  }

  function Int16At(d: Payload, k: nat): int16
    requires k <= 6
  {
    BytesToInt16(d[k..k + 2])
  }

  function Uint16At(d: Payload, k: nat): uint16
    requires k <= 6
  {
    BytesToUint16(d[k..k + 2])
  }

  /** Stores the two values of a multipart frame in the slots of that part. */
  function StorePair(s: Six, part: Part, d: Payload): Six {
    s[2 * part := Int32At(d, 0)][2 * part + 1 := Int32At(d, 4)]
  }

  /** The received bytes, padded with zeros. */
  function Received(f: Frame): Payload
    requires f.dlc <= 8
  {
    f.data[..f.dlc] + ZERO_PAYLOAD[f.dlc..]
  }

  /** Checks the header and length, and records identity and raw bytes; a refusal leaves the kind `Unknown`. */
  function AcceptFrame(f: Frame, timestamp: real, m: Msg): (r: (bool, Msg)) {
    if f.id >= SFF_LIMIT || f.dlc > CAN_MAX_DLEN then (false, m.(kind := Unknown))
    else
      var k := CanIdToKind(f.id);
      if k.None? || f.dlc < RequiredDlc(f.id) then (false, m.(canId := f.id, kind := Unknown))
      else (true, m.(canId := f.id, kind := k.value, rawData := Received(f), timestamp := timestamp))
  }

  function Coefficient(m: Motor): real {
    if m < 3 then 1.18125 else 0.95844
  }

  function AsInt8(b: byte): int {
    if b < 0x80 then b else b - 0x100
  }

  /** The kinds the V2 decoder reads. */
  predicate DecodableV2(k: Kind) {
    k.StatusFeedback? || k.EndPoseFeedback? || k.JointFeedback? || k.GripperFeedback? || k.HighSpdFeed? || k.LowSpdFeed?
    || k.FeedbackEndVelAcc? || k.CrashFeedback? || k.TeachingPendantFeedback? || k.FeedbackAngleLimitMaxSpd?
    || k.FeedbackMaxAccLimit? || k.MotionCtrl2? || k.JointCtrl? || k.GripperCtrl? || k.FirmwareRead?
    || k.InstructionResponse?
  }

  /** Fills the feedback slot that kind `k` selects from the frame's bytes. */
  function ReadFeedback(f: Frame, k: Kind, fb: Feedback): Feedback
    requires f.dlc <= 8 && |fb.highSpd| == 6 && |fb.lowSpd| == 6
  {
    var d := f.data;
    match k
    case StatusFeedback => fb.(status := Status(d[0], d[1], d[2], d[3], d[4], d[5], Uint16At(d, 6)))
    case EndPoseFeedback(p) => fb.(endPose := StorePair(fb.endPose, p, d))
    case JointFeedback(p) => fb.(jointFeedback := StorePair(fb.jointFeedback, p, d))
    case GripperFeedback => fb.(gripper := GripperState(Int32At(d, 0), Int16At(d, 4), d[6], Width))
    case HighSpdFeed(i) =>
      fb.(highSpd := fb.highSpd[i := HighSpd(f.id, Int16At(d, 0), Int16At(d, 2), Int32At(d, 4),
                                             Int16At(d, 2) as real * Coefficient(i))])
    case LowSpdFeed(i) =>
      fb.(lowSpd := fb.lowSpd[i := LowSpd(f.id, Uint16At(d, 0), Int16At(d, 2), AsInt8(d[4]), d[5], Uint16At(d, 6))])
    case FeedbackEndVelAcc => fb.(endVelAcc := EndVelAcc(Int16At(d, 0), Int16At(d, 2), Int16At(d, 4), Int16At(d, 6)))
    case CrashFeedback => fb.(crash := d[..6])
    case TeachingPendantFeedback => fb.(teaching := d[..3])
    case FeedbackAngleLimitMaxSpd => fb.(motorLimit := MotorLimit(d[0], Int16At(d, 1), Int16At(d, 3), Int16At(d, 5)))
    case FeedbackMaxAccLimit => fb.(motorAcc := MotorAcc(d[0], Int16At(d, 1)))
    case FirmwareRead => fb.(firmware := d[..f.dlc])
    case InstructionResponse => fb.(instruction := d[..2])
    case _ => fb
  }

  /** Fills the command slot that the echo of a command selects. */
  function ReadCommand(f: Frame, k: Kind, cmd: Command): (r: Command)
    ensures r.mit == cmd.mit
  {
    var d := f.data;
    match k
    case MotionCtrl2 => cmd.(motionMode := MotionMode(d[0], d[1], d[2], d[3], d[4], d[5]))
    case JointCtrl(p) => cmd.(jointCtrl := StorePair(cmd.jointCtrl, p, d))
    case GripperCtrl => cmd.(gripperCmd := GripperCommand(Int32At(d, 0), AsUint16(Int16At(d, 4)), d[6], d[7], Width))
    case _ => cmd
  }

  function ReadFields(f: Frame, m: Msg): Msg
    requires f.dlc <= 8
  {
    m.(fb := ReadFeedback(f, m.kind, m.fb), cmd := ReadCommand(f, m.kind, m.cmd))
  }

  function DecodeV2(f: Frame, timestamp: real, m: Msg): (bool, Msg) {
    var (ok, a) := AcceptFrame(f, timestamp, m);
    if !ok then (false, a)
    else if !DecodableV2(a.kind) then (false, a.(kind := Unknown))
    else (true, ReadFields(f, a))
  }

  /** V3 moved MOVE M from 0x04 to 0x06 and left 0x04 undefined. */
  function MoveModeFromWire(wire: byte): byte {
    if wire == MOVE_M_WIRE_V3 then MOVE_M
    else if wire == MOVE_M || wire > MOVE_CPV then UNKNOWN_MODE
    else wire
  }

  /** What V3 reads differently from V2, applied to feedback V2 has decoded. */
  function PatchFeedback(f: Frame, k: Kind, fb: Feedback): Feedback {
    var d := f.data;
    match k
    case StatusFeedback => fb.(status := fb.status.(modeFeed := MoveModeFromWire(d[2])))
    case GripperFeedback =>
      fb.(gripper := fb.gripper.(mode :=
        if f.dlc < 8 || d[7] == 0 then Width else if d[7] == 1 then Angle else UnknownMode))
    case _ => fb
  }

  function PatchCommand(f: Frame, k: Kind, cmd: Command): Command {
    var d := f.data;
    match k
    case MotionCtrl2 => cmd.(motionMode := cmd.motionMode.(moveMode := MoveModeFromWire(d[1])))
    case GripperCtrl =>
      cmd.(gripperCmd :=
        if d[6] > 7 then cmd.gripperCmd.(mode := UnknownMode)
        else cmd.gripperCmd.(statusCode := d[6] % 4, mode := if d[6] / 4 % 2 == 1 then Angle else Width))
    case _ => cmd
  }

  function PatchV3(f: Frame, m: Msg): Msg {
    m.(fb := PatchFeedback(f, m.kind, m.fb), cmd := PatchCommand(f, m.kind, m.cmd))
  }

  function DecodeV3(f: Frame, timestamp: real, m: Msg): (bool, Msg) {
    if 0x2AA <= f.id <= 0x2AC then
      var (ok, a) := AcceptFrame(f, timestamp, m);
      if ok && a.kind.IKJointFeedback? then
        (true, a.(fb := a.fb.(ikFeedback := StorePair(a.fb.ikFeedback, a.kind.part, f.data))))
      else (ok, a)
    else
      var (ok, a) := DecodeV2(f, timestamp, m);
      if ok then (true, PatchV3(f, a)) else (false, a)
  }

  function Decode(p: Protocol, f: Frame, timestamp: real, m: Msg): (bool, Msg) {
    if p.V2? then DecodeV2(f, timestamp, m) else DecodeV3(f, timestamp, m)
  }

  // ---------- Encoding ----------

  /** A fixed-layout payload, zero beyond the bytes given. */
  function Pad(s: seq<byte>): (d: Payload)
    requires |s| <= 8
    ensures s <= d
  {
    s + ZERO_PAYLOAD[|s|..]
  }

  function PairBytes(s: Six, part: Part): (d: Payload) {
    Int32Bytes(s[2 * part]) + Int32Bytes(s[2 * part + 1])
  }

  function MotionBytes(w: MotionMode): Payload {
    Pad([w.ctrlMode, w.moveMode, w.speed, w.mitMode, w.residence, w.installation])
  }

  function GripperBytes(c: GripperCommand, status: byte): Payload {
    Int32Bytes(c.value) + Uint16Bytes(c.effort) + [status, c.setZero]
  }

  /** The 0x151 values each protocol's encoder accepts. */
  predicate AcceptsMotion(p: Protocol, c: MotionMode) {
    if p.V2? then c.installation != HORIZONTAL_INVERTED
    else
      && AcceptsCtrlMode(c.ctrlMode) && c.speed <= 100 && AcceptsMitMode(c.mitMode)
      && c.installation <= HORIZONTAL_INVERTED && c.moveMode <= MOVE_CPV
  }

  predicate AcceptsCtrlMode(b: byte) {
    b == 0x00 || b == 0x01 || b == 0x03 || b == 0x04 || b == 0x07
  }

  predicate AcceptsMitMode(b: byte) {
    b == 0x00 || b == 0xAD || b == 0xFF
  }

  /** The V3 wire fields of accepted 0x151 values. */
  function MotionToWireV3(c: MotionMode): MotionMode {
    if c.moveMode == MOVE_M then c.(moveMode := MOVE_M_WIRE_V3) else c
  }

  /** The V3 status byte, or nothing for a command V3 refuses. */
  function GripperStatusToWireV3(c: GripperCommand): Option<byte> {
    if c.statusCode > 3 || c.effort > MAX_GRIPPER_EFFORT_V3 || !(c.setZero == 0x00 || c.setZero == 0xAE) then None
    else match c.mode
      case Width => Some(c.statusCode)
      case Angle => Some(c.statusCode + 4)
      case UnknownMode => None
  }

  function LimitSetBytes(l: MotorLimit): Payload {
    Pad([l.motor] + Uint16Bytes(AsUint16(l.maxAngle)) + Uint16Bytes(AsUint16(l.minAngle))
        + Uint16Bytes(AsUint16(l.maxSpd)))
  }

  function JointSetupBytes(j: JointSetup): Payload {
    Pad([j.motor, j.setZero, j.accEffective] + Uint16Bytes(j.maxAcc) + [j.clearError])
  }

  function EndVelAccBytes(c: EndVelAcc): Payload {
    Uint16Bytes(AsUint16(c.linearVel)) + Uint16Bytes(AsUint16(c.angularVel))
    + Uint16Bytes(AsUint16(c.linearAcc)) + Uint16Bytes(AsUint16(c.angularAcc))
  }

  /** The payload of an outgoing message under V2, or nothing where the encoder refuses. */
  function EncodeV2(m: Msg): Option<Payload> {
    match m.kind
    case MotionCtrl1 => Some(Pad(m.cmd.motionCtrl1))
    case MotionCtrl2 => if AcceptsMotion(V2, m.cmd.motionMode) then Some(MotionBytes(m.cmd.motionMode)) else None
    case MotionCtrlCartesian(p) => Some(PairBytes(m.cmd.cartesian, p))
    case JointCtrl(p) => Some(PairBytes(m.cmd.jointCtrl, p))
    case CircularUpdateCtrl => Some(Pad([m.cmd.circular]))
    case GripperCtrl =>
      if m.cmd.gripperCmd.mode == Width then Some(GripperBytes(m.cmd.gripperCmd, m.cmd.gripperCmd.statusCode)) else None
    case MasterSlaveModeConfig => Some(Pad(m.cfg.masterSlave))
    case MotorEnableDisableConfig => Some(Pad(m.cfg.motorEnable))
    case SearchMotorLimit => Some(Pad(m.cfg.search))
    case AngleLimitMaxSpdSet => Some(LimitSetBytes(m.cfg.limitSet))
    case JointConfig => Some(JointSetupBytes(m.cfg.jointSetup))
    case InstructionResponse => Some(Pad(m.fb.instruction))
    case ParamEnquiry => Some(Pad(m.cfg.enquiry))
    case EndVelAccConfig => Some(EndVelAccBytes(m.cfg.endVelAccConfig))
    case CrashConfig => Some(Pad(m.cfg.crashConfig))
    case TeachingPendantConfig => Some(Pad(m.cfg.teachingConfig))
    case JointMitCtrl(i) => Some(Pack(m.cmd.mit[i], V2))
    case FirmwareRead => Some(Pad(if |m.fb.firmware| <= 8 then m.fb.firmware else m.fb.firmware[..8]))
    case _ => None
  }

  function EncodeV3(m: Msg): Option<Payload> {
    match m.kind
    case MotionCtrl2 =>
      if AcceptsMotion(V3, m.cmd.motionMode) then Some(MotionBytes(MotionToWireV3(m.cmd.motionMode))) else None
    case GripperCtrl =>
      var status := GripperStatusToWireV3(m.cmd.gripperCmd);
      if status.Some? then Some(GripperBytes(m.cmd.gripperCmd, status.value)) else None
    case JointMitCtrl(i) => Some(Pack(m.cmd.mit[i], V3))
    case _ => EncodeV2(m)
  }

  function Encode(p: Protocol, m: Msg): Option<Payload> {
    if p.V2? then EncodeV2(m) else EncodeV3(m)
  }

  /** The frame `Encode` puts on the wire: the kind's identifier and always eight bytes. */
  function FrameOf(m: Msg, d: Payload): Frame
    requires KindToCanId(m.kind).Some?
  {
    Frame(KindToCanId(m.kind).value, 8, d)
  }
}
