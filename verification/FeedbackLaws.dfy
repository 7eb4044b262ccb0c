/** What each received frame means, from the bytes on the bus to the fields of the message, under both protocols. */
module FeedbackLaws {
  import opened Bytes
  import opened Messages
  import opened Mit
  import opened Parser
  import L = ParserLaws

  /** Identity and raw bytes of an accepted eight-byte frame. */
  function Recorded(m: Msg, f: Frame, k: Kind, timestamp: real): Msg {
    m.(canId := f.id, rawData := f.data, kind := k, timestamp := timestamp)
  }

  /** A frame is accepted and leaves exactly this message. */
  ghost predicate Means(p: Protocol, f: Frame, timestamp: real, m: Msg, r: Msg) {
    Decode(p, f, timestamp, m) == (true, r)
  }

  /** An accepted frame is read by V2, and patched under V3. */
  lemma Reads(p: Protocol, f: Frame, k: Kind, timestamp: real, m: Msg)
    requires f.dlc == 8 && CanIdToKind(f.id) == Some(k)
    ensures AcceptFrame(f, timestamp, m) == (true, Recorded(m, f, k, timestamp))
    ensures DecodableV2(k) ==>
              var r := ReadFields(f, Recorded(m, f, k, timestamp));
              Decode(p, f, timestamp, m) == (true, if p.V2? then r else PatchV3(f, r))
  {
    assert f.data[..8] + ZERO_PAYLOAD[8..] == f.data;
    if DecodableV2(k) {
      L.AcceptedIsRead(p, f, timestamp, m);
    }
  }

  function TwoWords(a: int32, b: int32): Payload {
    Int32Bytes(a) + Int32Bytes(b)
  }

  lemma TwoWordsRead(a: int32, b: int32)
    ensures Int32At(TwoWords(a, b), 0) == a && Int32At(TwoWords(a, b), 4) == b
  {
    var d := TwoWords(a, b);
    assert d[0..4] == Int32Bytes(a) && d[4..8] == Int32Bytes(b);
    Int32RoundTrip(a);
    Int32RoundTrip(b);
  }

  function Int16Bytes(v: int16): (s: seq<byte>)
    ensures |s| == 2
  {
    Uint16Bytes(AsUint16(v))
  }

  lemma HalfRead(d: Payload, k: nat, v: uint16)
    requires k <= 6 && d[k..k + 2] == Uint16Bytes(v)
    ensures Uint16At(d, k) == v && Int16At(d, k) == AsInt16(v)
  {}

  lemma SignedHalfRead(d: Payload, k: nat, v: int16)
    requires k <= 6 && d[k..k + 2] == Int16Bytes(v)
    ensures Int16At(d, k) == v
  {
    HalfRead(d, k, AsUint16(v));
  }

  /** The mode a V3 arm reports or is sent: MOVE M is 0x06, and 0x04 and everything above 0x06 mean nothing. */
  function MoveModeV3(wire: byte): byte {
    match wire
    case 0x00 => 0x00
    case 0x01 => 0x01
    case 0x02 => 0x02
    case 0x03 => 0x03
    case 0x05 => 0x05
    case 0x06 => 0x04
    case _ => 0xFF
  }

  /** The identifiers that are decoded, and the bytes each needs. */
  predicate Needs(p: Protocol, id: nat, n: nat) {
    if id == 0x4AF then true
    else if id == 0x476 then n >= 2
    else if id == 0x47C || id == 0x47E then n >= 3
    else if id == 0x151 || id == 0x47B then n >= 6
    else if id == 0x2A8 || id == 0x473 then n >= 7
    else
      n >= 8 && (|| 0x155 <= id <= 0x157 || id == 0x159 || 0x251 <= id <= 0x256 || 0x261 <= id <= 0x266
                 || 0x2A1 <= id <= 0x2A7 || id == 0x478 || (p.V3? && 0x2AA <= id <= 0x2AC))
  }

  lemma DecodedIds(p: Protocol, id: nat, n: nat)
    ensures Needs(p, id, n) <==>
              && CanIdToKind(id).Some? && n >= RequiredDlc(id)
              && (DecodableV2(CanIdToKind(id).value) || (p.V3? && 0x2AA <= id <= 0x2AC))
    ensures (CanIdToKind(id).Some? && CanIdToKind(id).value.IKJointFeedback?) <==> 0x2AA <= id <= 0x2AC
    ensures CanIdToKind(id).Some? ==> id < SFF_LIMIT
  {}

  /** The frames each protocol accepts. */
  lemma AcceptedIff(p: Protocol, f: Frame, timestamp: real, m: Msg)
    ensures Decode(p, f, timestamp, m).0 <==> f.dlc <= 8 && Needs(p, f.id, f.dlc)
  {
    hide CanIdToKind, Needs, RequiredDlc, DecodableV2;
    DecodedIds(p, f.id, f.dlc);
  }

  // ---------- Feedback ----------

  lemma EndPoseFeedbackMeans(p: Protocol, part: Part, a: int32, b: int32, timestamp: real, m: Msg)
    ensures var f := Frame(0x2A2 + part, 8, TwoWords(a, b));
            Means(p, f, timestamp, m, Recorded(m, f, EndPoseFeedback(part), timestamp).(
              fb := m.fb.(endPose := m.fb.endPose[2 * part := a][2 * part + 1 := b])))
  {
    Reads(p, Frame(0x2A2 + part, 8, TwoWords(a, b)), EndPoseFeedback(part), timestamp, m);
    TwoWordsRead(a, b);
  }

  lemma JointFeedbackMeans(p: Protocol, part: Part, a: int32, b: int32, timestamp: real, m: Msg)
    ensures var f := Frame(0x2A5 + part, 8, TwoWords(a, b));
            Means(p, f, timestamp, m, Recorded(m, f, JointFeedback(part), timestamp).(
              fb := m.fb.(jointFeedback := m.fb.jointFeedback[2 * part := a][2 * part + 1 := b])))
  {
    Reads(p, Frame(0x2A5 + part, 8, TwoWords(a, b)), JointFeedback(part), timestamp, m);
    TwoWordsRead(a, b);
  }

  /** Only V3 knows these. */
  lemma IKJointFeedbackMeans(part: Part, a: int32, b: int32, timestamp: real, m: Msg)
    ensures var f := Frame(0x2AA + part, 8, TwoWords(a, b));
            && Means(V3, f, timestamp, m, Recorded(m, f, IKJointFeedback(part), timestamp).(
                 fb := m.fb.(ikFeedback := m.fb.ikFeedback[2 * part := a][2 * part + 1 := b])))
            && !Decode(V2, f, timestamp, m).0
  {
    Reads(V3, Frame(0x2AA + part, 8, TwoWords(a, b)), IKJointFeedback(part), timestamp, m);
    TwoWordsRead(a, b);
  }

  lemma StatusFeedbackMeans(p: Protocol, ctrl: byte, arm: byte, mode: byte, teach: byte, motion: byte, trajectory: byte,
                            err: uint16, timestamp: real, m: Msg)
    ensures var f := Frame(0x2A1, 8, [ctrl, arm, mode, teach, motion, trajectory] + Uint16Bytes(err));
            Means(p, f, timestamp, m, Recorded(m, f, StatusFeedback, timestamp).(
              fb := m.fb.(status := Status(ctrl, arm, if p.V2? then mode else MoveModeV3(mode), teach, motion,
                                           trajectory, err))))
  {
    var d := [ctrl, arm, mode, teach, motion, trajectory] + Uint16Bytes(err);
    assert d[6..8] == Uint16Bytes(err);
    Reads(p, Frame(0x2A1, 8, d), StatusFeedback, timestamp, m);
    HalfRead(d, 6, err);
  }

  /** V2 reads a width whatever the last byte says; V3 takes it for the mode. */
  lemma GripperFeedbackMeans(p: Protocol, v: int32, effort: int16, status: byte, mode: byte, timestamp: real, m: Msg)
    ensures var f := Frame(0x2A8, 8, Int32Bytes(v) + Int16Bytes(effort) + [status, mode]);
            Means(p, f, timestamp, m, Recorded(m, f, GripperFeedback, timestamp).(
              fb := m.fb.(gripper := GripperState(v, effort, status,
                if p.V2? || mode == 0x00 then Width else if mode == 0x01 then Angle else UnknownMode))))
  {
    var d := Int32Bytes(v) + Int16Bytes(effort) + [status, mode];
    assert d[0..4] == Int32Bytes(v) && d[4..6] == Int16Bytes(effort);
    Int32RoundTrip(v);
    Reads(p, Frame(0x2A8, 8, d), GripperFeedback, timestamp, m);
    SignedHalfRead(d, 4, effort);
  }

  /** Without the last byte it is a width under both protocols. */
  lemma ShortGripperFeedbackMeans(p: Protocol, v: int32, effort: int16, status: byte, rest: byte,
                                  timestamp: real, m: Msg)
    ensures var d := Int32Bytes(v) + Int16Bytes(effort) + [status];
            var f := Frame(0x2A8, 7, d + [rest]);
            Means(p, f, timestamp, m, Recorded(m, Frame(0x2A8, 7, d + [0]), GripperFeedback, timestamp).(
              fb := m.fb.(gripper := GripperState(v, effort, status, Width))))
  {
    var d := Int32Bytes(v) + Int16Bytes(effort) + [status] + [rest];
    assert d[0..4] == Int32Bytes(v) && d[4..6] == Int16Bytes(effort);
    assert d[..7] == Int32Bytes(v) + Int16Bytes(effort) + [status] && ZERO_PAYLOAD[7..] == [0];
    Int32RoundTrip(v);
    SignedHalfRead(d, 4, effort);
  }

  /** The effort derived from a motor's current: the first three motors have another constant. */
  function Effort(i: Motor, current: int16): real {
    current as real * if i < 3 then 1.18125 else 0.95844
  }

  lemma HighSpdRead(d: Payload, i: Motor, speed: int16, current: int16, pos: int32)
    requires d == Int16Bytes(speed) + Int16Bytes(current) + Int32Bytes(pos)
    ensures Int16At(d, 0) == speed && Int16At(d, 2) == current && Int32At(d, 4) == pos
    ensures Int16At(d, 2) as real * Coefficient(i) == Effort(i, current)
  {
    assert d[0..2] == Int16Bytes(speed) && d[2..4] == Int16Bytes(current) && d[4..8] == Int32Bytes(pos);
    SignedHalfRead(d, 0, speed);
    SignedHalfRead(d, 2, current);
    Int32RoundTrip(pos);
    assert Coefficient(i) == if i < 3 then 1.18125 else 0.95844;
  }

  lemma HighSpdFeedMeans(p: Protocol, i: Motor, speed: int16, current: int16, pos: int32, timestamp: real, m: Msg)
    ensures var f := Frame(0x251 + i, 8, Int16Bytes(speed) + Int16Bytes(current) + Int32Bytes(pos));
            Means(p, f, timestamp, m, Recorded(m, f, HighSpdFeed(i), timestamp).(
              fb := m.fb.(highSpd := m.fb.highSpd[i := HighSpd(0x251 + i, speed, current, pos, Effort(i, current))])))
  {
    var d := Int16Bytes(speed) + Int16Bytes(current) + Int32Bytes(pos);
    HighSpdRead(d, i, speed, current, pos);
    hide Effort, Coefficient, Int16At, Int32At, Int16Bytes;
    Reads(p, Frame(0x251 + i, 8, d), HighSpdFeed(i), timestamp, m);
  }

  /** The motor temperature is a signed byte. */
  lemma LowSpdFeedMeans(p: Protocol, i: Motor, vol: uint16, foc: int16, temp: int, status: byte, bus: uint16,
                        timestamp: real, m: Msg)
    requires -0x80 <= temp < 0x80
    ensures var d := Uint16Bytes(vol) + Int16Bytes(foc) + [temp % 0x100, status] + Uint16Bytes(bus);
            var f := Frame(0x261 + i, 8, d);
            Means(p, f, timestamp, m, Recorded(m, f, LowSpdFeed(i), timestamp).(
              fb := m.fb.(lowSpd := m.fb.lowSpd[i := LowSpd(0x261 + i, vol, foc, temp, status, bus)])))
  {
    var d := Uint16Bytes(vol) + Int16Bytes(foc) + [temp % 0x100, status] + Uint16Bytes(bus);
    assert d[0..2] == Uint16Bytes(vol) && d[2..4] == Int16Bytes(foc) && d[6..8] == Uint16Bytes(bus);
    Reads(p, Frame(0x261 + i, 8, d), LowSpdFeed(i), timestamp, m);
    HalfRead(d, 0, vol);
    SignedHalfRead(d, 2, foc);
    HalfRead(d, 6, bus);
  }

  function MotorLimitBytes(l: MotorLimit): seq<byte> {
    [l.motor] + Int16Bytes(l.maxAngle) + Int16Bytes(l.minAngle) + Int16Bytes(l.maxSpd)
  }

  lemma MotorLimitMeans(p: Protocol, l: MotorLimit, rest: byte, timestamp: real, m: Msg)
    ensures var f := Frame(0x473, 8, MotorLimitBytes(l) + [rest]);
            Means(p, f, timestamp, m, Recorded(m, f, FeedbackAngleLimitMaxSpd, timestamp).(
              fb := m.fb.(motorLimit := l)))
  {
    var d := MotorLimitBytes(l) + [rest];
    assert d[1..3] == Int16Bytes(l.maxAngle) && d[3..5] == Int16Bytes(l.minAngle) && d[5..7] == Int16Bytes(l.maxSpd);
    Reads(p, Frame(0x473, 8, d), FeedbackAngleLimitMaxSpd, timestamp, m);
    SignedHalfRead(d, 1, l.maxAngle);
    SignedHalfRead(d, 3, l.minAngle);
    SignedHalfRead(d, 5, l.maxSpd);
  }

  lemma MotorAccMeans(p: Protocol, a: MotorAcc, rest: Bytes5, timestamp: real, m: Msg)
    ensures var f := Frame(0x47C, 8, [a.motor] + Int16Bytes(a.maxAcc) + rest);
            Means(p, f, timestamp, m, Recorded(m, f, FeedbackMaxAccLimit, timestamp).(fb := m.fb.(motorAcc := a)))
  {
    var d := [a.motor] + Int16Bytes(a.maxAcc) + rest;
    assert d[1..3] == Int16Bytes(a.maxAcc);
    Reads(p, Frame(0x47C, 8, d), FeedbackMaxAccLimit, timestamp, m);
    SignedHalfRead(d, 1, a.maxAcc);
  }

  lemma EndVelAccMeans(p: Protocol, e: EndVelAcc, timestamp: real, m: Msg)
    ensures var f := Frame(0x478, 8, Int16Bytes(e.linearVel) + Int16Bytes(e.angularVel)
                                     + Int16Bytes(e.linearAcc) + Int16Bytes(e.angularAcc));
            Means(p, f, timestamp, m, Recorded(m, f, FeedbackEndVelAcc, timestamp).(fb := m.fb.(endVelAcc := e)))
  {
    var d := Int16Bytes(e.linearVel) + Int16Bytes(e.angularVel) + Int16Bytes(e.linearAcc) + Int16Bytes(e.angularAcc);
    assert d[0..2] == Int16Bytes(e.linearVel) && d[2..4] == Int16Bytes(e.angularVel);
    assert d[4..6] == Int16Bytes(e.linearAcc) && d[6..8] == Int16Bytes(e.angularAcc);
    Reads(p, Frame(0x478, 8, d), FeedbackEndVelAcc, timestamp, m);
    SignedHalfRead(d, 0, e.linearVel);
    SignedHalfRead(d, 2, e.angularVel);
    SignedHalfRead(d, 4, e.linearAcc);
    SignedHalfRead(d, 6, e.angularAcc);
  }

  lemma CrashFeedbackMeans(p: Protocol, crash: Bytes6, rest: Bytes2, timestamp: real, m: Msg)
    ensures var f := Frame(0x47B, 8, crash + rest);
            Means(p, f, timestamp, m, Recorded(m, f, CrashFeedback, timestamp).(fb := m.fb.(crash := crash)))
  {
    Reads(p, Frame(0x47B, 8, crash + rest), CrashFeedback, timestamp, m);
    assert (crash + rest)[..6] == crash;
  }

  lemma TeachingFeedbackMeans(p: Protocol, teaching: Bytes3, rest: Bytes5, timestamp: real, m: Msg)
    ensures var f := Frame(0x47E, 8, teaching + rest);
            Means(p, f, timestamp, m, Recorded(m, f, TeachingPendantFeedback, timestamp).(
              fb := m.fb.(teaching := teaching)))
  {
    Reads(p, Frame(0x47E, 8, teaching + rest), TeachingPendantFeedback, timestamp, m);
    assert (teaching + rest)[..3] == teaching;
  }

  lemma InstructionMeans(p: Protocol, answer: Bytes2, rest: Bytes6, timestamp: real, m: Msg)
    ensures var f := Frame(0x476, 8, answer + rest);
            Means(p, f, timestamp, m, Recorded(m, f, InstructionResponse, timestamp).(
              fb := m.fb.(instruction := answer)))
  {
    Reads(p, Frame(0x476, 8, answer + rest), InstructionResponse, timestamp, m);
    assert (answer + rest)[..2] == answer;
  }

  /** A firmware chunk is all the bytes received, however few. */
  lemma FirmwareReadMeans(p: Protocol, f: Frame, timestamp: real, m: Msg)
    requires f.id == 0x4AF && f.dlc <= 8
    ensures var (ok, r) := Decode(p, f, timestamp, m);
            ok && r.kind == FirmwareRead && r.fb == m.fb.(firmware := f.data[..f.dlc])
  {}

  // ---------- Echoes of commands ----------

  lemma JointCtrlMeans(p: Protocol, part: Part, a: int32, b: int32, timestamp: real, m: Msg)
    ensures var f := Frame(0x155 + part, 8, TwoWords(a, b));
            Means(p, f, timestamp, m, Recorded(m, f, JointCtrl(part), timestamp).(
              cmd := m.cmd.(jointCtrl := m.cmd.jointCtrl[2 * part := a][2 * part + 1 := b])))
  {
    Reads(p, Frame(0x155 + part, 8, TwoWords(a, b)), JointCtrl(part), timestamp, m);
    TwoWordsRead(a, b);
  }

  lemma MotionCtrl2Means(p: Protocol, w: MotionMode, rest: Bytes2, timestamp: real, m: Msg)
    ensures var f := Frame(0x151, 8, [w.ctrlMode, w.moveMode, w.speed, w.mitMode, w.residence, w.installation] + rest);
            Means(p, f, timestamp, m, Recorded(m, f, MotionCtrl2, timestamp).(
              cmd := m.cmd.(motionMode := if p.V2? then w else w.(moveMode := MoveModeV3(w.moveMode)))))
  {
    var d := [w.ctrlMode, w.moveMode, w.speed, w.mitMode, w.residence, w.installation] + rest;
    Reads(p, Frame(0x151, 8, d), MotionCtrl2, timestamp, m);
  }

  /** V3 keeps the mode in the third bit of the status byte; a byte with higher bits is not understood. */
  lemma GripperCtrlMeans(p: Protocol, v: int32, effort: uint16, status: byte, setZero: byte, timestamp: real, m: Msg)
    ensures var f := Frame(0x159, 8, Int32Bytes(v) + Uint16Bytes(effort) + [status, setZero]);
            Means(p, f, timestamp, m, Recorded(m, f, GripperCtrl, timestamp).(
              cmd := m.cmd.(gripperCmd :=
                if p.V2? || status < 4 then GripperCommand(v, effort, status, setZero, Width)
                else if status < 8 then GripperCommand(v, effort, status - 4, setZero, Angle)
                else GripperCommand(v, effort, status, setZero, UnknownMode))))
  {
    Reads(p, Frame(0x159, 8, Int32Bytes(v) + Uint16Bytes(effort) + [status, setZero]), GripperCtrl, timestamp, m);
    L.GripperRoundTrip(GripperCommand(v, effort, status, setZero, Width), status);
  }
}
