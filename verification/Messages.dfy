/** Message kinds, their CAN identifiers, and the fields a message carries. */
module Messages {
  import opened Bytes
  import Mit

  datatype Option<+T> = None | Some(value: T)

  /** One of the three frames of a multipart message. */
  type Part = x: nat | x < 3
  /** A joint motor, counted from zero. */
  type Motor = x: nat | x < 6
  type Bytes2 = s: seq<byte> | |s| == 2 witness [0, 0]
  type Bytes3 = s: seq<byte> | |s| == 3 witness [0, 0, 0]
  type Bytes4 = s: seq<byte> | |s| == 4 witness [0, 0, 0, 0]
  type Bytes5 = s: seq<byte> | |s| == 5 witness [0, 0, 0, 0, 0]
  type Bytes6 = s: seq<byte> | |s| == 6 witness [0, 0, 0, 0, 0, 0]
  /** Six joint angles, or the six coordinates of an end pose: two to a frame. */
  type Six = s: seq<int32> | |s| == 6 witness [0, 0, 0, 0, 0, 0]

  datatype Kind =
    | Unknown
    | StatusFeedback | EndPoseFeedback(part: Part) | JointFeedback(part: Part) | GripperFeedback
    | HighSpdFeed(motor: Motor) | LowSpdFeed(motor: Motor)
    | MotionCtrl1 | MotionCtrl2 | MotionCtrlCartesian(part: Part) | JointCtrl(part: Part)
    | CircularUpdateCtrl | GripperCtrl | JointMitCtrl(motor: Motor)
    | MasterSlaveModeConfig | MotorEnableDisableConfig | SearchMotorLimit
    | FeedbackAngleLimitMaxSpd | AngleLimitMaxSpdSet | JointConfig | InstructionResponse | ParamEnquiry
    | FeedbackEndVelAcc | EndVelAccConfig | CrashConfig | CrashFeedback | FeedbackMaxAccLimit
    | TeachingPendantConfig | TeachingPendantFeedback
    | JointVelAccFeedback(motor: Motor) | LightCtrl | SilentModeConfig | FirmwareRead
    | IKJointFeedback(part: Part)

  /** The wire identifier of a kind; only `Unknown` has none. */
  function KindToCanId(k: Kind): Option<nat> {
    match k
    case Unknown => None
    case StatusFeedback => Some(0x2A1)
    case EndPoseFeedback(p) => Some(0x2A2 + p)
    case JointFeedback(p) => Some(0x2A5 + p)
    case GripperFeedback => Some(0x2A8)
    case IKJointFeedback(p) => Some(0x2AA + p)
    case HighSpdFeed(m) => Some(0x251 + m)
    case LowSpdFeed(m) => Some(0x261 + m)
    case MotionCtrl1 => Some(0x150)
    case MotionCtrl2 => Some(0x151)
    case MotionCtrlCartesian(p) => Some(0x152 + p)
    case JointCtrl(p) => Some(0x155 + p)
    case CircularUpdateCtrl => Some(0x158)
    case GripperCtrl => Some(0x159)
    case JointMitCtrl(m) => Some(0x15A + m)
    case MasterSlaveModeConfig => Some(0x470)
    case MotorEnableDisableConfig => Some(0x471)
    case SearchMotorLimit => Some(0x472)
    case FeedbackAngleLimitMaxSpd => Some(0x473)
    case AngleLimitMaxSpdSet => Some(0x474)
    case JointConfig => Some(0x475)
    case InstructionResponse => Some(0x476)
    case ParamEnquiry => Some(0x477)
    case FeedbackEndVelAcc => Some(0x478)
    case EndVelAccConfig => Some(0x479)
    case CrashConfig => Some(0x47A)
    case CrashFeedback => Some(0x47B)
    case FeedbackMaxAccLimit => Some(0x47C)
    case TeachingPendantConfig => Some(0x47D)
    case TeachingPendantFeedback => Some(0x47E)
    case JointVelAccFeedback(m) => Some(0x481 + m)
    case LightCtrl => Some(0x121)
    case SilentModeConfig => Some(0x422)
    case FirmwareRead => Some(0x4AF)
  }

  function CanIdToKind(id: nat): Option<Kind> {
    if id == 0x2A1 then Some(StatusFeedback)
    else if 0x2A2 <= id <= 0x2A4 then Some(EndPoseFeedback(id - 0x2A2))
    else if 0x2A5 <= id <= 0x2A7 then Some(JointFeedback(id - 0x2A5))
    else if id == 0x2A8 then Some(GripperFeedback)
    else if 0x2AA <= id <= 0x2AC then Some(IKJointFeedback(id - 0x2AA))
    else if 0x251 <= id <= 0x256 then Some(HighSpdFeed(id - 0x251))
    else if 0x261 <= id <= 0x266 then Some(LowSpdFeed(id - 0x261))
    else if id == 0x150 then Some(MotionCtrl1)
    else if id == 0x151 then Some(MotionCtrl2)
    else if 0x152 <= id <= 0x154 then Some(MotionCtrlCartesian(id - 0x152))
    else if 0x155 <= id <= 0x157 then Some(JointCtrl(id - 0x155))
    else if id == 0x158 then Some(CircularUpdateCtrl)
    else if id == 0x159 then Some(GripperCtrl)
    else if 0x15A <= id <= 0x15F then Some(JointMitCtrl(id - 0x15A))
    else if id == 0x470 then Some(MasterSlaveModeConfig)
    else if id == 0x471 then Some(MotorEnableDisableConfig)
    else if id == 0x472 then Some(SearchMotorLimit)
    else if id == 0x473 then Some(FeedbackAngleLimitMaxSpd)
    else if id == 0x474 then Some(AngleLimitMaxSpdSet)
    else if id == 0x475 then Some(JointConfig)
    else if id == 0x476 then Some(InstructionResponse)
    else if id == 0x477 then Some(ParamEnquiry)
    else if id == 0x478 then Some(FeedbackEndVelAcc)
    else if id == 0x479 then Some(EndVelAccConfig)
    else if id == 0x47A then Some(CrashConfig)
    else if id == 0x47B then Some(CrashFeedback)
    else if id == 0x47C then Some(FeedbackMaxAccLimit)
    else if id == 0x47D then Some(TeachingPendantConfig)
    else if id == 0x47E then Some(TeachingPendantFeedback)
    else if 0x481 <= id <= 0x486 then Some(JointVelAccFeedback(id - 0x481))
    else if id == 0x121 then Some(LightCtrl)
    else if id == 0x422 then Some(SilentModeConfig)
    else if id == 0x4AF then Some(FirmwareRead)
    else None
  }

  lemma IdOfKind(id: nat)
    requires CanIdToKind(id).Some?
    ensures KindToCanId(CanIdToKind(id).value) == Some(id)
  {}

  lemma KindOfId(k: Kind)
    requires k != Unknown
    ensures KindToCanId(k).Some? && CanIdToKind(KindToCanId(k).value) == Some(k)
  {}

  /** The two tables are each other's inverse. */
  lemma CanIdTablesInverse(id: nat, k: Kind)
    ensures CanIdToKind(id) == Some(k) <==> KindToCanId(k) == Some(id)
  {
    if CanIdToKind(id) == Some(k) {
      IdOfKind(id);
    } else if k != Unknown {
      KindOfId(k);
    }
  }

  datatype GripperMode = Width | Angle | UnknownMode

  datatype Status = Status(ctrlMode: byte, armStatus: byte, modeFeed: byte, teach: byte, motion: byte,
                           trajectory: byte, errCode: uint16)
  datatype GripperState = GripperState(value: int32, effort: int16, statusCode: byte, mode: GripperMode)
  datatype HighSpd = HighSpd(canId: nat, speed: int16, current: int16, pos: int32, effort: real)
  datatype LowSpd = LowSpd(canId: nat, vol: uint16, focTemp: int16, motorTemp: int, focStatus: byte, busCurrent: uint16)
  datatype EndVelAcc = EndVelAcc(linearVel: int16, angularVel: int16, linearAcc: int16, angularAcc: int16)
  datatype MotorLimit = MotorLimit(motor: byte, maxAngle: int16, minAngle: int16, maxSpd: int16)
  datatype MotorAcc = MotorAcc(motor: byte, maxAcc: int16)
  /** The 0x151 fields; `moveMode` is the protocol-independent mode, not a wire byte. */
  datatype MotionMode = MotionMode(ctrlMode: byte, moveMode: byte, speed: byte, mitMode: byte, residence: byte,
                                   installation: byte)
  datatype GripperCommand = GripperCommand(value: int32, effort: uint16, statusCode: byte, setZero: byte, mode: GripperMode)
  datatype JointSetup = JointSetup(motor: byte, setZero: byte, accEffective: byte, maxAcc: uint16, clearError: byte)

  /** What the arm reports, one slot per payload type. */
  datatype Feedback = Feedback(
    status: Status, endPose: Six, jointFeedback: Six, ikFeedback: Six, gripper: GripperState,
    highSpd: seq<HighSpd>, lowSpd: seq<LowSpd>, endVelAcc: EndVelAcc, crash: Bytes6, teaching: Bytes3,
    motorLimit: MotorLimit, motorAcc: MotorAcc, instruction: Bytes2, firmware: seq<byte>)

  /** Motion commands. */
  datatype Command = Command(
    motionCtrl1: Bytes3, motionMode: MotionMode, cartesian: Six, jointCtrl: Six, circular: byte,
    gripperCmd: GripperCommand, mit: seq<Mit.Codes>)

  /** Configuration and query commands. */
  datatype Config = Config(
    masterSlave: Bytes4, motorEnable: Bytes2, search: Bytes2, limitSet: MotorLimit, jointSetup: JointSetup,
    enquiry: Bytes5, endVelAccConfig: EndVelAcc, crashConfig: Bytes6, teachingConfig: Bytes3)

  /** A decoded or outgoing message; `kind` says which slot is meant. */
  datatype Message = Message(canId: nat, rawData: Payload, kind: Kind, timestamp: real,
                             fb: Feedback, cmd: Command, cfg: Config) {
    /** The per-motor arrays have one entry for each of the six joints. */
    predicate Sized() {
      |fb.highSpd| == 6 && |fb.lowSpd| == 6 && |cmd.mit| == 6
    }
  }

  type Msg = m: Message | m.Sized() witness DEFAULT

  const ZERO_SIX: Six := [0, 0, 0, 0, 0, 0]
  const ZERO_HIGH := HighSpd(0, 0, 0, 0, 0.0)
  const ZERO_LOW := LowSpd(0, 0, 0, 0, 0, 0)
  const ZERO_MIT := Mit.Codes(0, 0, 10, 0, 0)
  const ZERO_ACC := EndVelAcc(0, 0, 0, 0)
  const ZERO_LIMIT := MotorLimit(0, 0, 0, 0)
  const DEFAULT_MOTION_MODE := MotionMode(0x01, 0x01, 50, 0x00, 0, 0x00)
  const DEFAULT_GRIPPER := GripperCommand(0, 0, 0, 0, Width)

  /** A freshly constructed message. */
  const DEFAULT: Message := Message(
    0, ZERO_PAYLOAD, Unknown, 0.0,
    Feedback(
      Status(0, 0, 0, 0, 0, 0, 0), ZERO_SIX, ZERO_SIX, ZERO_SIX, GripperState(0, 0, 0, Width),
      [ZERO_HIGH, ZERO_HIGH, ZERO_HIGH, ZERO_HIGH, ZERO_HIGH, ZERO_HIGH],
      [ZERO_LOW, ZERO_LOW, ZERO_LOW, ZERO_LOW, ZERO_LOW, ZERO_LOW], ZERO_ACC, [0, 0, 0, 0, 0, 0], [0, 0, 0],
      ZERO_LIMIT, MotorAcc(0, 0), [0, 0], []),
    Command(
      [0, 0, 0], DEFAULT_MOTION_MODE, ZERO_SIX, ZERO_SIX, 0,
      DEFAULT_GRIPPER, [ZERO_MIT, ZERO_MIT, ZERO_MIT, ZERO_MIT, ZERO_MIT, ZERO_MIT]),
    Config(
      [0, 0, 0, 0], [0xFF, 0x01], [1, 0x01], ZERO_LIMIT, JointSetup(7, 0, 0, 500, 0), [0, 0, 0, 0, 3], ZERO_ACC,
      [0, 0, 0, 0, 0, 0], [0, 0, 0]))

  /** A received CAN frame: only the first `dlc` bytes were on the bus, the rest of the buffer is arbitrary. */
  datatype Frame = Frame(id: nat, dlc: nat, data: Payload)
}
