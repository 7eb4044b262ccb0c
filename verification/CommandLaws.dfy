/** What each command puts on the bus: which values are accepted, and the bytes they become. */
module CommandLaws {
  import opened Bytes
  import opened Messages
  import opened Mit
  import opened Parser
  import F = FeedbackLaws

  // ---------- Accepted values ----------

  /** The 0x151 values each protocol sends. */
  lemma MotionAcceptedIff(m: Msg)
    requires m.kind == MotionCtrl2
    ensures var c := m.cmd.motionMode;
            && (Encode(V2, m).Some? <==> c.installation != 4)
            && (Encode(V3, m).Some? <==>
                  && c.ctrlMode in {0, 1, 3, 4, 7} && c.moveMode in {0, 1, 2, 3, 4, 5} && c.speed <= 100
                  && c.mitMode in {0, 173, 255} && c.installation in {0, 1, 2, 3, 4})
  {}

  /** The gripper commands each protocol sends. */
  lemma GripperAcceptedIff(m: Msg)
    requires m.kind == GripperCtrl
    ensures var c := m.cmd.gripperCmd;
            && (Encode(V2, m).Some? <==> c.mode == Width)
            && (Encode(V3, m).Some? <==>
                  c.mode != UnknownMode && c.statusCode in {0, 1, 2, 3} && c.effort <= 5000 && c.setZero in {0, 174})
  {}

  /** Everything else that can be sent at all is always sent. */
  lemma OthersAcceptedIff(p: Protocol, m: Msg)
    requires m.kind != MotionCtrl2 && m.kind != GripperCtrl
    ensures Encode(p, m).Some? <==>
              || m.kind.MotionCtrl1? || m.kind.MotionCtrlCartesian? || m.kind.JointCtrl? || m.kind.CircularUpdateCtrl?
              || m.kind.JointMitCtrl? || m.kind.MasterSlaveModeConfig? || m.kind.MotorEnableDisableConfig?
              || m.kind.SearchMotorLimit? || m.kind.AngleLimitMaxSpdSet? || m.kind.JointConfig?
              || m.kind.InstructionResponse? || m.kind.ParamEnquiry? || m.kind.EndVelAccConfig? || m.kind.CrashConfig?
              || m.kind.TeachingPendantConfig? || m.kind.FirmwareRead?
  {}

  // ---------- Bytes ----------

  /** The frame of an accepted message. */
  function Sent(p: Protocol, m: Msg): Frame
    requires Encode(p, m).Some? && KindToCanId(m.kind).Some?
  {
    FrameOf(m, Encode(p, m).value)
  }

  /** The 0x151 frame; V3 writes MOVE M as 0x06. */
  lemma MotionFrameBytes(p: Protocol, m: Msg)
    requires m.kind == MotionCtrl2 && Encode(p, m).Some?
    ensures var c := m.cmd.motionMode;
            var move := if p.V3? && c.moveMode == 0x04 then 0x06 else c.moveMode;
            Sent(p, m) == Frame(0x151, 8, [c.ctrlMode, move, c.speed, c.mitMode, c.residence, c.installation, 0, 0])
  {}

  /** The 0x159 frame; V3 adds four to the status for an angle. */
  lemma GripperFrameBytes(p: Protocol, m: Msg)
    requires m.kind == GripperCtrl && Encode(p, m).Some?
    ensures var c := m.cmd.gripperCmd;
            var status := if c.mode == Angle then c.statusCode as int + 4 else c.statusCode;
            && Sent(p, m).id == 0x159 && Sent(p, m).dlc == 8 && status < 0x100
            && Sent(p, m).data == Int32Bytes(c.value) + Uint16Bytes(c.effort) + [status, c.setZero]
  {}

  /** A pair of joints or of end pose coordinates, two to a frame. */
  lemma PairFrameBytes(p: Protocol, m: Msg)
    requires m.kind.JointCtrl? || m.kind.MotionCtrlCartesian?
    ensures Encode(p, m).Some?
    ensures var i := m.kind.part;
            Sent(p, m) == if m.kind.JointCtrl? then
                            Frame(0x155 + i, 8, F.TwoWords(m.cmd.jointCtrl[2 * i], m.cmd.jointCtrl[2 * i + 1]))
                          else
                            Frame(0x152 + i, 8, F.TwoWords(m.cmd.cartesian[2 * i], m.cmd.cartesian[2 * i + 1]))
  {}

  /** The bytes of the short commands and queries, without their zeros. */
  function ShortBytes(m: Msg): (s: seq<byte>)
    ensures |s| <= 8
  {
    if m.kind.MotionCtrl1? then m.cmd.motionCtrl1
    else if m.kind.CircularUpdateCtrl? then [m.cmd.circular]
    else if m.kind.MasterSlaveModeConfig? then m.cfg.masterSlave
    else if m.kind.MotorEnableDisableConfig? then m.cfg.motorEnable
    else if m.kind.SearchMotorLimit? then m.cfg.search
    else if m.kind.ParamEnquiry? then m.cfg.enquiry
    else []
  }

  /** They are sent in order, then zeros. */
  lemma ShortCommandBytes(p: Protocol, m: Msg)
    requires m.kind.MotionCtrl1? || m.kind.CircularUpdateCtrl? || m.kind.MasterSlaveModeConfig?
             || m.kind.MotorEnableDisableConfig? || m.kind.SearchMotorLimit? || m.kind.ParamEnquiry?
    ensures var s := ShortBytes(m);
            Encode(p, m) == Some(s + [0, 0, 0, 0, 0, 0, 0, 0][|s|..])
    ensures KindToCanId(m.kind) == Some(if m.kind.MotionCtrl1? then 0x150 else if m.kind.CircularUpdateCtrl? then 0x158
                                        else if m.kind.MasterSlaveModeConfig? then 0x470
                                        else if m.kind.MotorEnableDisableConfig? then 0x471
                                        else if m.kind.SearchMotorLimit? then 0x472 else 0x477)
  {}

  lemma JointConfigBytes(p: Protocol, m: Msg)
    requires m.kind.JointConfig?
    ensures Encode(p, m).Some?
    ensures var j := m.cfg.jointSetup;
            Sent(p, m) == Frame(0x475, 8, [j.motor, j.setZero, j.accEffective, j.maxAcc / 0x100, j.maxAcc % 0x100,
                                           j.clearError, 0, 0])
  {}

  // ---------- Configurations read back as they were set ----------

  /** The arm's report of a configuration has the layout of the frame that set it, under another identifier. */
  function Reported(f: Frame, id: nat): Frame {
    Frame(id, 8, f.data)
  }

  lemma MotorLimitsBytes(p: Protocol, m: Msg)
    requires m.kind.AngleLimitMaxSpdSet?
    ensures Encode(p, m) == Some(F.MotorLimitBytes(m.cfg.limitSet) + [0])
  {}

  lemma MotorLimitsReadBack(p: Protocol, m: Msg, timestamp: real, into: Msg)
    requires m.kind.AngleLimitMaxSpdSet?
    ensures Encode(p, m).Some? && Sent(p, m).id == 0x474
    ensures Decode(p, Reported(Sent(p, m), 0x473), timestamp, into).0
    ensures Decode(p, Reported(Sent(p, m), 0x473), timestamp, into).1.fb.motorLimit == m.cfg.limitSet
  {
    hide Encode, Decode;
    MotorLimitsBytes(p, m);
    F.MotorLimitMeans(p, m.cfg.limitSet, 0, timestamp, into);
  }

  lemma EndVelAccBytesSent(p: Protocol, m: Msg)
    requires m.kind.EndVelAccConfig?
    ensures var e := m.cfg.endVelAccConfig;
            Encode(p, m) == Some(F.Int16Bytes(e.linearVel) + F.Int16Bytes(e.angularVel)
                                 + F.Int16Bytes(e.linearAcc) + F.Int16Bytes(e.angularAcc))
  {}

  lemma EndVelAccReadsBack(p: Protocol, m: Msg, timestamp: real, into: Msg)
    requires m.kind.EndVelAccConfig?
    ensures Encode(p, m).Some? && Sent(p, m).id == 0x479
    ensures Decode(p, Reported(Sent(p, m), 0x478), timestamp, into).0
    ensures Decode(p, Reported(Sent(p, m), 0x478), timestamp, into).1.fb.endVelAcc == m.cfg.endVelAccConfig
  {
    hide Encode, Decode;
    EndVelAccBytesSent(p, m);
    F.EndVelAccMeans(p, m.cfg.endVelAccConfig, timestamp, into);
  }

  lemma CrashConfigBytes(p: Protocol, m: Msg)
    requires m.kind.CrashConfig?
    ensures Encode(p, m) == Some(m.cfg.crashConfig + [0, 0])
  {}

  lemma CrashConfigReadsBack(p: Protocol, m: Msg, timestamp: real, into: Msg)
    requires m.kind.CrashConfig?
    ensures Encode(p, m).Some? && Sent(p, m).id == 0x47A
    ensures Decode(p, Reported(Sent(p, m), 0x47B), timestamp, into).0
    ensures Decode(p, Reported(Sent(p, m), 0x47B), timestamp, into).1.fb.crash == m.cfg.crashConfig
  {
    hide Encode, Decode;
    CrashConfigBytes(p, m);
    F.CrashFeedbackMeans(p, m.cfg.crashConfig, [0, 0], timestamp, into);
  }

  lemma TeachingConfigBytes(p: Protocol, m: Msg)
    requires m.kind.TeachingPendantConfig?
    ensures Encode(p, m) == Some(m.cfg.teachingConfig + [0, 0, 0, 0, 0])
  {}

  lemma TeachingConfigReadsBack(p: Protocol, m: Msg, timestamp: real, into: Msg)
    requires m.kind.TeachingPendantConfig?
    ensures Encode(p, m).Some? && Sent(p, m).id == 0x47D
    ensures Decode(p, Reported(Sent(p, m), 0x47E), timestamp, into).0
    ensures Decode(p, Reported(Sent(p, m), 0x47E), timestamp, into).1.fb.teaching == m.cfg.teachingConfig
  {
    hide Encode, Decode;
    TeachingConfigBytes(p, m);
    F.TeachingFeedbackMeans(p, m.cfg.teachingConfig, [0, 0, 0, 0, 0], timestamp, into);
  }

  lemma InstructionBytes(p: Protocol, m: Msg)
    requires m.kind.InstructionResponse?
    ensures Encode(p, m) == Some(m.fb.instruction + [0, 0, 0, 0, 0, 0])
  {}

  /** An instruction response reads back under its own identifier. */
  lemma InstructionReadsBack(p: Protocol, m: Msg, timestamp: real, into: Msg)
    requires m.kind.InstructionResponse?
    ensures Encode(p, m).Some? && Sent(p, m).id == 0x476
    ensures Decode(p, Sent(p, m), timestamp, into).0
    ensures Decode(p, Sent(p, m), timestamp, into).1.fb.instruction == m.fb.instruction
  {
    hide Encode, Decode;
    InstructionBytes(p, m);
    F.InstructionMeans(p, m.fb.instruction, [0, 0, 0, 0, 0, 0], timestamp, into);
  }

  /** A firmware query carries the first eight bytes of its data. */
  lemma FirmwareBytes(p: Protocol, m: Msg, k: nat)
    requires m.kind.FirmwareRead? && k < 8
    ensures Encode(p, m).Some? && Sent(p, m).id == 0x4AF
    ensures Sent(p, m).data[k] == if k < |m.fb.firmware| then m.fb.firmware[k] else 0
  {}
}
