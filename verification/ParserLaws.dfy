/** What the two parsers promise: frames mean what was received, and commands mean the same under both protocols. */
module ParserLaws {
  import opened Bytes
  import opened Messages
  import opened Mit
  import opened Parser

  // ---------- Only received bytes matter ----------

  /** Two frames nobody on the bus could tell apart, whatever the rest of their buffers holds. */
  predicate SameOnBus(f: Frame, g: Frame) {
    f.id == g.id && f.dlc == g.dlc && (f.dlc <= 8 ==> f.data[..f.dlc] == g.data[..g.dlc])
  }

  lemma SameBytes(f: Frame, g: Frame, k: nat)
    requires SameOnBus(f, g) && k < f.dlc <= 8
    ensures f.data[k] == g.data[k]
  {
    assert f.data[k] == f.data[..f.dlc][k];
    assert g.data[k] == g.data[..g.dlc][k];
  }

  lemma SameRead(f: Frame, g: Frame, from: nat, to: nat)
    requires SameOnBus(f, g) && from <= to <= f.dlc <= 8
    ensures f.data[from..to] == g.data[from..to]
  {
    forall k | from <= k < to ensures f.data[k] == g.data[k] {
      SameBytes(f, g, k);
    }
  }

  lemma SameAccept(f: Frame, g: Frame, timestamp: real, m: Msg)
    requires SameOnBus(f, g)
    ensures AcceptFrame(f, timestamp, m) == AcceptFrame(g, timestamp, m)
  {}

  lemma SamePair(f: Frame, g: Frame, s: Six, p: Part)
    requires SameOnBus(f, g) && f.dlc == 8
    ensures StorePair(s, p, f.data) == StorePair(s, p, g.data)
  {
    SameRead(f, g, 0, 4);
    SameRead(f, g, 4, 8);
  }

  lemma SameFields(f: Frame, g: Frame, m: Msg)
    requires SameOnBus(f, g) && CanIdToKind(f.id) == Some(m.kind) && DecodableV2(m.kind)
    requires RequiredDlc(f.id) <= f.dlc <= 8
    ensures ReadFields(f, m) == ReadFields(g, m)
  {
    var k := m.kind;
    if RequiredDlc(f.id) == 8 {
      assert f.data == f.data[0..8] && g.data == g.data[0..8];
      SameRead(f, g, 0, 8);
    } else if k.FirmwareRead? {
    } else if k.CrashFeedback? {
      SameRead(f, g, 0, 6);
    } else if k.TeachingPendantFeedback? {
      SameRead(f, g, 0, 3);
    } else if k.InstructionResponse? {
      SameRead(f, g, 0, 2);
    } else if k.MotionCtrl2? {
      SameRead(f, g, 0, 6);
      assert forall i :: 0 <= i < 6 ==> f.data[i] == f.data[0..6][i] == g.data[0..6][i] == g.data[i];
    } else if k.GripperFeedback? {
      SameRead(f, g, 0, 4);
      SameRead(f, g, 4, 6);
      SameBytes(f, g, 6);
    } else {
      SameBytes(f, g, 0);
      SameRead(f, g, 1, 3);
      if k.FeedbackAngleLimitMaxSpd? {
        SameRead(f, g, 3, 5);
        SameRead(f, g, 5, 7);
      }
    }
  }

  lemma SamePatch(f: Frame, g: Frame, m: Msg)
    requires SameOnBus(f, g) && CanIdToKind(f.id) == Some(m.kind) && RequiredDlc(f.id) <= f.dlc <= 8
    ensures PatchV3(f, m) == PatchV3(g, m)
  {
    match m.kind
    case StatusFeedback => SameBytes(f, g, 2);
    case MotionCtrl2 => SameBytes(f, g, 1);
    case GripperFeedback => if f.dlc == 8 { SameBytes(f, g, 7); }
    case GripperCtrl => SameBytes(f, g, 6);
    case _ =>
  }

  /** No byte beyond the received length reaches the decoded message, under either protocol. */
  lemma DecodeReadsOnlyReceivedBytes(p: Protocol, f: Frame, g: Frame, timestamp: real, m: Msg)
    requires SameOnBus(f, g)
    ensures Decode(p, f, timestamp, m) == Decode(p, g, timestamp, m)
  {
    SameAccept(f, g, timestamp, m);
    var (ok, a) := AcceptFrame(f, timestamp, m);
    if !ok {
    } else if a.kind.IKJointFeedback? {
      SamePair(f, g, a.fb.ikFeedback, a.kind.part);
    } else if DecodableV2(a.kind) {
      SameFields(f, g, a);
      SamePatch(f, g, ReadFields(f, a));
    }
  }

  /** The fields of the slot that kind `k` selects, as numbers. */
  function Carried(m: Msg, k: Kind): seq<int> {
    if IsCommand(k) then CarriedCommand(m.cmd, k) else CarriedFeedback(m.fb, k)
  }

  function CarriedFeedback(fb: Feedback, k: Kind): seq<int>
    requires |fb.highSpd| == 6 && |fb.lowSpd| == 6
  {
    match k
    case StatusFeedback =>
      var s := fb.status;
      [s.ctrlMode, s.armStatus, s.modeFeed, s.teach, s.motion, s.trajectory, s.errCode]
    case EndPoseFeedback(p) => fb.endPose[2 * p..2 * p + 2]
    case JointFeedback(p) => fb.jointFeedback[2 * p..2 * p + 2]
    case IKJointFeedback(p) => fb.ikFeedback[2 * p..2 * p + 2]
    case GripperFeedback =>
      var g := fb.gripper;
      [g.value, g.effort, ModeNumber(g.mode), g.statusCode]
    case HighSpdFeed(i) =>
      var h := fb.highSpd[i];
      [h.canId, h.speed, h.current, h.pos]
    case LowSpdFeed(i) =>
      var l := fb.lowSpd[i];
      [l.canId, l.vol, l.focTemp, l.motorTemp, l.focStatus, l.busCurrent]
    case FeedbackEndVelAcc =>
      var e := fb.endVelAcc;
      [e.linearVel, e.angularVel, e.linearAcc, e.angularAcc]
    case CrashFeedback => fb.crash
    case TeachingPendantFeedback => fb.teaching
    case FeedbackAngleLimitMaxSpd =>
      var l := fb.motorLimit;
      [l.motor, l.maxAngle, l.minAngle, l.maxSpd]
    case FeedbackMaxAccLimit => [fb.motorAcc.motor, fb.motorAcc.maxAcc]
    case FirmwareRead => fb.firmware
    case InstructionResponse => fb.instruction
    case _ => []
  }

  function CarriedCommand(cmd: Command, k: Kind): seq<int> {
    match k
    case JointCtrl(p) => cmd.jointCtrl[2 * p..2 * p + 2]
    case MotionCtrl2 =>
      var c := cmd.motionMode;
      [c.ctrlMode, c.moveMode, c.speed, c.mitMode, c.residence, c.installation]
    case GripperCtrl =>
      var c := cmd.gripperCmd;
      [c.value, c.effort, c.statusCode, ModeNumber(c.mode), c.setZero]
    case _ => []
  }

  /** The kinds that both parsers write and read back. */
  predicate IsCommand(k: Kind) {
    k.MotionCtrl2? || k.JointCtrl? || k.GripperCtrl?
  }

  function ModeNumber(g: GripperMode): int {
    match g case Width => 0x00 case Angle => 0x01 case UnknownMode => 0xFF
  }

  lemma PairOf(s: Six, p: Part, d: Payload)
    ensures StorePair(s, p, d)[2 * p..2 * p + 2] == [Int32At(d, 0), Int32At(d, 4)]
  {}

  lemma ReadIgnores(f: Frame, m: Msg, n: Msg)
    requires f.dlc <= 8 && m.kind == n.kind && DecodableV2(m.kind)
    ensures Carried(ReadFields(f, m), m.kind) == Carried(ReadFields(f, n), m.kind)
  {
    var k, d := m.kind, f.data;
    if k.EndPoseFeedback? {
      PairOf(m.fb.endPose, k.part, d);
      PairOf(n.fb.endPose, k.part, d);
    } else if k.JointFeedback? {
      PairOf(m.fb.jointFeedback, k.part, d);
      PairOf(n.fb.jointFeedback, k.part, d);
    } else if k.JointCtrl? {
      PairOf(m.cmd.jointCtrl, k.part, d);
      PairOf(n.cmd.jointCtrl, k.part, d);
    }
  }

  lemma PatchIgnores(f: Frame, m: Msg, n: Msg)
    requires m.kind == n.kind && Carried(m, m.kind) == Carried(n, n.kind)
    ensures Carried(PatchV3(f, m), m.kind) == Carried(PatchV3(f, n), m.kind)
  {
    var k, x, y := m.kind, Carried(m, m.kind), Carried(n, n.kind);
    if k.StatusFeedback? || k.MotionCtrl2? || k.GripperFeedback? || k.GripperCtrl? {
      assert forall i :: 0 <= i < |x| ==> x[i] == y[i];
    }
  }

  lemma IKIgnores(f: Frame, m: Msg, n: Msg)
    requires m.kind == n.kind && m.kind.IKJointFeedback?
    ensures Carried(m.(fb := m.fb.(ikFeedback := StorePair(m.fb.ikFeedback, m.kind.part, f.data))), m.kind)
            == Carried(n.(fb := n.fb.(ikFeedback := StorePair(n.fb.ikFeedback, m.kind.part, f.data))), m.kind)
            == [Int32At(f.data, 0), Int32At(f.data, 4)]
  {
    PairOf(m.fb.ikFeedback, m.kind.part, f.data);
    PairOf(n.fb.ikFeedback, m.kind.part, f.data);
  }

  /**
   * What a frame carries does not depend on what the message held before it was decoded into it, and neither does
   * the effort derived from a motor's current.
   */
  lemma DecodeIgnoresOldContents(p: Protocol, f: Frame, timestamp: real, m: Msg, n: Msg)
    ensures var (ok, a) := Decode(p, f, timestamp, m);
            var (ok', b) := Decode(p, f, timestamp, n);
            && ok == ok' && a.kind == b.kind
            && (ok ==> Carried(a, a.kind) == Carried(b, b.kind))
            && (ok && a.kind.HighSpdFeed? ==> a.fb.highSpd[a.kind.motor] == b.fb.highSpd[a.kind.motor])
  {
    var (ok, a) := AcceptFrame(f, timestamp, m);
    var (_, b) := AcceptFrame(f, timestamp, n);
    if ok && DecodableV2(a.kind) {
      ReadIgnores(f, a, b);
      PatchIgnores(f, ReadFields(f, a), ReadFields(f, b));
    } else if ok && a.kind.IKJointFeedback? {
      IKIgnores(f, a, b);
    }
  }

  /** The length table is tight: the last byte it demands is read, in every kind that is decoded. */
  lemma RequiredBytesAreAllRead(p: Protocol, f: Frame, b: byte, timestamp: real, m: Msg)
    requires f.dlc == 8 && Decode(p, f, timestamp, m).0 && RequiredDlc(f.id) > 0
    requires b != f.data[RequiredDlc(f.id) - 1]
    ensures var g := f.(data := f.data[RequiredDlc(f.id) - 1 := b]);
            var k := Decode(p, f, timestamp, m).1.kind;
            Carried(Decode(p, f, timestamp, m).1, k) != Carried(Decode(p, g, timestamp, m).1, k)
  {
    var g := f.(data := f.data[RequiredDlc(f.id) - 1 := b]);
    var a, c := AcceptFrame(f, timestamp, m).1, AcceptFrame(g, timestamp, m).1;
    if DecodableV2(a.kind) {
      LastFieldDiffers(f, g, a);
      ReadIgnores(g, a, c);
      LastSurvivesPatch(f, g, ReadFields(f, a), ReadFields(g, c));
      AcceptedIsRead(p, f, timestamp, m);
      AcceptedIsRead(p, g, timestamp, m);
    } else {
      DlcByKind(f.id);
      LastWordDiffers(f, g);
      IKIgnores(f, a, a);
      IKIgnores(g, c, c);
    }
  }

  lemma AcceptedIsRead(p: Protocol, f: Frame, timestamp: real, m: Msg)
    requires AcceptFrame(f, timestamp, m).0 && DecodableV2(AcceptFrame(f, timestamp, m).1.kind)
    ensures var r := ReadFields(f, AcceptFrame(f, timestamp, m).1);
            Decode(p, f, timestamp, m) == (true, if p.V2? then r else PatchV3(f, r))
    ensures ReadFields(f, AcceptFrame(f, timestamp, m).1).kind == AcceptFrame(f, timestamp, m).1.kind
  {}

  lemma LastSurvivesPatch(f: Frame, g: Frame, m: Msg, n: Msg)
    requires m.kind == n.kind
    requires LastDiffers(Carried(m, m.kind), Carried(n, n.kind))
    ensures Carried(m, m.kind) != Carried(n, n.kind)
    ensures Carried(PatchV3(f, m), m.kind) != Carried(PatchV3(g, n), n.kind)
  {
    PatchKeepsLast(f, m);
    PatchKeepsLast(g, n);
    var x, y := Carried(PatchV3(f, m), m.kind), Carried(PatchV3(g, n), n.kind);
    assert x[|x| - 1] != y[|y| - 1];
  }

  /** Frames of equal length that differ in the last byte their kind requires, and only there. */
  predicate DifferAtLast(f: Frame, g: Frame) {
    && f.dlc == 8 && RequiredDlc(f.id) > 0
    && var last := RequiredDlc(f.id) - 1;
       g == f.(data := f.data[last := g.data[last]]) && f.data[last] != g.data[last]
  }

  lemma LastWordDiffers(f: Frame, g: Frame)
    requires f.data[7] != g.data[7]
    ensures Int32At(f.data, 4) != Int32At(g.data, 4)
  {
    var s, t := f.data[4..8], g.data[4..8];
    assert s[3] == f.data[7] && t[3] == g.data[7];
    if BytesToInt32(s) == BytesToInt32(t) {
      Int32Injective(s, t);
    }
  }

  lemma HalfDiffers(f: Frame, g: Frame, k: nat)
    requires k <= 6 && f.data[k] == g.data[k] && f.data[k + 1] != g.data[k + 1]
    ensures Uint16At(f.data, k) != Uint16At(g.data, k) && Int16At(f.data, k) != Int16At(g.data, k)
  {
    assert f.data[k..k + 2] == [f.data[k], f.data[k + 1]];
    assert g.data[k..k + 2] == [g.data[k], g.data[k + 1]];
  }

  predicate LastDiffers(x: seq<int>, y: seq<int>) {
    |x| == |y| > 0 && x[|x| - 1] != y[|y| - 1]
  }

  /** The length table, by kind. */
  function DlcOfKind(k: Kind): nat {
    match k
    case GripperFeedback => 7
    case FeedbackAngleLimitMaxSpd => 7
    case CrashFeedback => 6
    case MotionCtrl2 => 6
    case TeachingPendantFeedback => 3
    case FeedbackMaxAccLimit => 3
    case InstructionResponse => 2
    case FirmwareRead => 0
    case _ => 8
  }

  lemma DlcByKind(id: nat)
    requires CanIdToKind(id).Some?
    ensures RequiredDlc(id) == DlcOfKind(CanIdToKind(id).value)
  {}

  lemma LastFieldDiffers(f: Frame, g: Frame, m: Msg)
    requires DifferAtLast(f, g) && CanIdToKind(f.id) == Some(m.kind) && DecodableV2(m.kind)
    ensures LastDiffers(Carried(ReadFields(f, m), m.kind), Carried(ReadFields(g, m), m.kind))
  {
    DlcByKind(f.id);
    var n := DlcOfKind(m.kind);
    assert f.data[n - 1] != g.data[n - 1] && forall i :: 0 <= i < n - 1 ==> f.data[i] == g.data[i];
    if IsCommand(m.kind) {
      LastOfCommand(f, g, m.kind, m.cmd);
    } else {
      LastOfFeedback(f, g, m.kind, m.fb);
    }
  }

  lemma LastOfCommand(f: Frame, g: Frame, k: Kind, cmd: Command)
    requires IsCommand(k) && f.data[DlcOfKind(k) - 1] != g.data[DlcOfKind(k) - 1]
    ensures LastDiffers(CarriedCommand(ReadCommand(f, k, cmd), k), CarriedCommand(ReadCommand(g, k, cmd), k))
  {
    if k.JointCtrl? {
      LastWordDiffers(f, g);
      PairOf(cmd.jointCtrl, k.part, f.data);
      PairOf(cmd.jointCtrl, k.part, g.data);
    }
  }

  lemma LastOfFeedback(f: Frame, g: Frame, k: Kind, fb: Feedback)
    requires f.dlc == g.dlc == 8 && f.id == g.id && |fb.highSpd| == 6 && |fb.lowSpd| == 6
    requires DecodableV2(k) && !IsCommand(k) && !k.FirmwareRead?
    requires var n := DlcOfKind(k); f.data[n - 1] != g.data[n - 1] && f.data[n - 2] == g.data[n - 2]
    ensures LastDiffers(CarriedFeedback(ReadFeedback(f, k, fb), k), CarriedFeedback(ReadFeedback(g, k, fb), k))
  {
    if k.EndPoseFeedback? {
      LastWordDiffers(f, g);
      PairOf(fb.endPose, k.part, f.data);
      PairOf(fb.endPose, k.part, g.data);
    } else if k.JointFeedback? {
      LastWordDiffers(f, g);
      PairOf(fb.jointFeedback, k.part, f.data);
      PairOf(fb.jointFeedback, k.part, g.data);
    } else if k.HighSpdFeed? {
      LastWordDiffers(f, g);
    } else if k.StatusFeedback? || k.LowSpdFeed? || k.FeedbackEndVelAcc? {
      HalfDiffers(f, g, 6);
    } else if k.FeedbackAngleLimitMaxSpd? {
      HalfDiffers(f, g, 5);
    } else if k.FeedbackMaxAccLimit? {
      HalfDiffers(f, g, 1);
    }
  }

  lemma PatchKeepsLast(f: Frame, m: Msg)
    ensures var x, y := Carried(m, m.kind), Carried(PatchV3(f, m), m.kind);
            |x| == |y| && (|x| > 0 ==> x[|x| - 1] == y[|y| - 1])
  {}

  /** Refusing a frame always leaves the kind `Unknown`, whatever the message held before. */
  lemma RefusalLeavesUnknown(p: Protocol, f: Frame, timestamp: real, m: Msg)
    ensures !Decode(p, f, timestamp, m).0 ==> Decode(p, f, timestamp, m).1.kind == Unknown
    ensures Decode(p, f, timestamp, m).0 ==> CanIdToKind(f.id) == Some(Decode(p, f, timestamp, m).1.kind)
  {}

  // ---------- Commands keep their meaning ----------

  /** The messages carry the same values in the slot of kind `k`. */
  predicate SameCommand(a: Msg, b: Msg, k: Kind) {
    a.kind == b.kind == k && Carried(a, k) == Carried(b, k)
  }

  lemma PairRoundTrip(s: Six, t: Six, p: Part)
    ensures StorePair(t, p, PairBytes(s, p))[2 * p..2 * p + 2] == s[2 * p..2 * p + 2]
  {
    var d := PairBytes(s, p);
    assert d[0..4] == Int32Bytes(s[2 * p]);
    assert d[4..8] == Int32Bytes(s[2 * p + 1]);
    Int32RoundTrip(s[2 * p]);
    Int32RoundTrip(s[2 * p + 1]);
    PairOf(t, p, d);
  }

  lemma GripperRoundTrip(c: GripperCommand, status: byte)
    ensures var d := GripperBytes(c, status);
            && Int32At(d, 0) == c.value && AsUint16(Int16At(d, 4)) == c.effort
            && d[6] == status && d[7] == c.setZero
  {
    var d := GripperBytes(c, status);
    assert d[0..4] == Int32Bytes(c.value);
    assert d[4..6] == Uint16Bytes(c.effort);
    Int32RoundTrip(c.value);
    Uint16ThroughSigned(c.effort);
  }

  /** Under each protocol, an accepted command reads back as itself: modes, efforts and negative angles included. */
  lemma DecodeInvertsEncode(p: Protocol, m: Msg, timestamp: real, into: Msg)
    requires IsCommand(m.kind) && Encode(p, m).Some?
    ensures var (ok, r) := Decode(p, FrameOf(m, Encode(p, m).value), timestamp, into);
            ok && SameCommand(m, r, m.kind)
  {
    var d := Encode(p, m).value;
    var a := AcceptFrame(FrameOf(m, d), timestamp, into).1;
    if m.kind.JointCtrl? {
      PairRoundTrip(m.cmd.jointCtrl, a.cmd.jointCtrl, m.kind.part);
    } else if m.kind.GripperCtrl? {
      GripperMeans(p, m, FrameOf(m, d), a);
    } else {
      MotionMeans(p, m, FrameOf(m, d), a);
    }
  }

  lemma GripperMeans(p: Protocol, m: Msg, f: Frame, a: Msg)
    requires m.kind == a.kind == GripperCtrl && Encode(p, m) == Some(f.data) && f.dlc == 8
    ensures var r := ReadFields(f, a); (if p.V2? then r else PatchV3(f, r)).cmd.gripperCmd == m.cmd.gripperCmd
  {
    var c := m.cmd.gripperCmd;
    GripperRoundTrip(c, if p.V2? then c.statusCode else GripperStatusToWireV3(c).value);
  }

  lemma MotionMeans(p: Protocol, m: Msg, f: Frame, a: Msg)
    requires m.kind == a.kind == MotionCtrl2 && Encode(p, m) == Some(f.data) && f.dlc == 8
    ensures var r := ReadFields(f, a); (if p.V2? then r else PatchV3(f, r)).cmd.motionMode == m.cmd.motionMode
  {}

  /** So the two protocols agree on the meaning of every command both accept. */
  lemma ProtocolsAgreeOnMeaning(m: Msg, timestamp: real, into: Msg)
    requires IsCommand(m.kind) && Encode(V2, m).Some? && Encode(V3, m).Some?
    ensures SameCommand(Decode(V2, FrameOf(m, Encode(V2, m).value), timestamp, into).1,
                        Decode(V3, FrameOf(m, Encode(V3, m).value), timestamp, into).1, m.kind)
  {
    DecodeInvertsEncode(V2, m, timestamp, into);
    DecodeInvertsEncode(V3, m, timestamp, into);
  }

  /** A command both protocols accept has the same bytes in both, except MOVE M. */
  lemma SameBytesIffNotMoveM(m: Msg)
    requires IsCommand(m.kind) && Encode(V2, m).Some? && Encode(V3, m).Some?
    ensures Encode(V2, m) == Encode(V3, m) <==> !(m.kind.MotionCtrl2? && m.cmd.motionMode.moveMode == MOVE_M)
  {
    if m.kind.MotionCtrl2? && m.cmd.motionMode.moveMode == MOVE_M {
      assert Encode(V2, m).value[1] == MOVE_M && Encode(V3, m).value[1] == MOVE_M_WIRE_V3;
    }
  }

  /** Reading an accepted V3 mode command with the V2 parser goes wrong for MOVE M and only for it. */
  lemma WrongProtocolMisreadsMoveM(m: Msg, timestamp: real, into: Msg)
    requires m.kind.MotionCtrl2? && Encode(V3, m).Some?
    ensures Decode(V2, FrameOf(m, Encode(V3, m).value), timestamp, into).1.cmd.motionMode == m.cmd.motionMode
            <==> m.cmd.motionMode.moveMode != MOVE_M
  {}
}
