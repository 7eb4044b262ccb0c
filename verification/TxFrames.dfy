/** Filling a transmit frame in place, as the encoders do. */
module TxFrames {
  import opened Bytes
  import opened Messages
  import opened Mit
  import opened Parser

  /** An outgoing CAN frame; its buffer may hold anything before it is filled. */
  class TxFrame {
    var canId: nat
    var dlc: nat
    const data: array<byte>

    ghost predicate Valid() reads this {
      data.Length == 8
    }

    constructor ()
      ensures Valid() && fresh(data)
      ensures data[..] == ZERO_PAYLOAD && canId == 0 && dlc == 0
    {
      canId, dlc := 0, 0;
      data := new byte[8](_ => 0);
    }

    method Clear()
      requires Valid()
      modifies data
      ensures data[..] == ZERO_PAYLOAD
    {
      forall i | 0 <= i < 8 {
        data[i] := 0;
      }
    }

    /** Assigns consecutive bytes, one after the other. */
    method WriteBytes(at: nat, s: seq<byte>)
      requires Valid() && at + |s| <= 8
      modifies data
      ensures data[..] == old(data[..at]) + s + old(data[at + |s|..])
    {
      for i := 0 to |s|
        invariant data[..] == old(data[..at]) + s[..i] + old(data[at + i..])
      {
        data[at + i] := s[i];
        assert data[..at + i + 1] == old(data[..at]) + s[..i + 1];
        assert data[at + i + 1..] == old(data[at + i + 1..]);
      }
      assert s[..|s|] == s;
    }

    /** setCommandHeader: every command is an eight-byte frame named by its kind. */
    method SetCommandHeader(k: Kind)
      requires KindToCanId(k).Some?
      modifies this
      ensures Some(canId) == KindToCanId(k) && dlc == 8
    {
      canId, dlc := KindToCanId(k).value, 8;
    }

    /** Bytes 6 and 7 are left as they were: the caller clears the buffer first. */
    method WriteMotionCtrl2(w: MotionMode)
      requires Valid()
      modifies data
      ensures data[..] == MotionBytes(w)[..6] + old(data[6..])
    {
      WriteBytes(0, [w.ctrlMode, w.moveMode, w.speed, w.mitMode, w.residence, w.installation]);
    }

    /** Writes all eight bytes, so no caller needs to clear the buffer. */
    method WriteGripperCtrl(c: GripperCommand, status: byte)
      requires Valid()
      modifies data
      ensures data[..] == GripperBytes(c, status)
    {
      Int32ToBytes(c.value, data, 0);
      Uint16ToBytes(c.effort, data, 4);
      data[6] := status;
      data[7] := c.setZero;
      assert data[..] == data[..4] + data[4..6] + [data[6], data[7]];
    }

    method WritePair(s: Six, p: Part)
      requires Valid()
      modifies data
      ensures data[..] == PairBytes(s, p)
    {
      Int32ToBytes(s[2 * p], data, 0);
      Int32ToBytes(s[2 * p + 1], data, 4);
    }

    /** The seven shared MIT bytes; byte 7 is the caller's. */
    method WriteMitGains(c: Codes)
      requires Valid()
      modifies data
      ensures data[..] == GainBytes(c) + [old(data[7])]
    {
      WriteBytes(0, GainBytes(c));
    }

    method WriteMitV2(c: Codes)
      requires Valid()
      modifies data
      ensures data[..] == Pack(c, V2)
    {
      WriteMitGains(c);
      data[6] := data[6] + c.torque / 0x10 % 0x10;
      ghost var before := data[..];
      data[7] := c.torque % 0x10 * 0x10 + CheckNibble(data[..]);
      SamePrefix(before, data[..], 7);
      CheckedTail(c, data[..]);
    }

    method WriteFirmware(bytes: seq<byte>)
      requires Valid() && data[..] == ZERO_PAYLOAD
      modifies data
      ensures data[..] == Pad(if |bytes| <= 8 then bytes else bytes[..8])
    {
      var n := if |bytes| <= 8 then |bytes| else 8;
      WriteBytes(0, bytes[..n]);
    }

    /** The V2 encoder: clears the buffer, writes the payload, and sets the header only on success. */
    method EncodeV2(m: Msg) returns (ok: bool)
      requires Valid()
      modifies this, data
      ensures ok <==> Parser.EncodeV2(m).Some?
      ensures ok ==> data[..] == Parser.EncodeV2(m).value && Some(canId) == KindToCanId(m.kind) && dlc == 8
      ensures !ok ==> canId == old(canId) && dlc == old(dlc)
    {
      ok := true;
      Clear();
      match m.kind {
        case MotionCtrl2 =>
          if m.cmd.motionMode.installation == HORIZONTAL_INVERTED {
            ok := false;
          } else {
            WriteMotionCtrl2(m.cmd.motionMode);
          }
        case MotionCtrlCartesian(p) => WritePair(m.cmd.cartesian, p);
        case JointCtrl(p) => WritePair(m.cmd.jointCtrl, p);
        case GripperCtrl =>
          if m.cmd.gripperCmd.mode != Width {
            ok := false;
          } else {
            WriteGripperCtrl(m.cmd.gripperCmd, m.cmd.gripperCmd.statusCode);
          }
        case JointMitCtrl(i) => WriteMitV2(m.cmd.mit[i]);
        case FirmwareRead => WriteFirmware(m.fb.firmware);
        case _ =>
          ok := EncodeFixed(m);
      }
      if ok {
        SetCommandHeader(m.kind);
      }
    }

    method WriteAngleLimits(l: MotorLimit)
      requires Valid() && data[..] == ZERO_PAYLOAD
      modifies data
      ensures data[..] == LimitSetBytes(l)
    {
      data[0] := l.motor;
      Uint16ToBytes(AsUint16(l.maxAngle), data, 1);
      Uint16ToBytes(AsUint16(l.minAngle), data, 3);
      Uint16ToBytes(AsUint16(l.maxSpd), data, 5);
    }

    method WriteJointSetup(j: JointSetup)
      requires Valid() && data[..] == ZERO_PAYLOAD
      modifies data
      ensures data[..] == JointSetupBytes(j)
    {
      data[0], data[1], data[2] := j.motor, j.setZero, j.accEffective;
      Uint16ToBytes(j.maxAcc, data, 3);
      data[5] := j.clearError;
    }

    method WriteEndVelAcc(c: EndVelAcc)
      requires Valid()
      modifies data
      ensures data[..] == EndVelAccBytes(c)
    {
      Uint16ToBytes(AsUint16(c.linearVel), data, 0);
      Uint16ToBytes(AsUint16(c.angularVel), data, 2);
      Uint16ToBytes(AsUint16(c.linearAcc), data, 4);
      Uint16ToBytes(AsUint16(c.angularAcc), data, 6);
    }

    /** The bytes a message object holds one by one, in their order. */
    method WriteFirst(s: seq<byte>)
      requires Valid() && data[..] == ZERO_PAYLOAD && |s| <= 8
      modifies data
      ensures data[..] == Pad(s)
    {
      WriteBytes(0, s);
    }

    /** The configuration and query commands: fixed bytes, then zeros. Everything else is unsupported. */
    method EncodeFixed(m: Msg) returns (ok: bool)
      requires Valid() && data[..] == ZERO_PAYLOAD
      requires !m.kind.MotionCtrl2? && !m.kind.MotionCtrlCartesian? && !m.kind.JointCtrl? && !m.kind.GripperCtrl?
      requires !m.kind.JointMitCtrl? && !m.kind.FirmwareRead?
      modifies data
      ensures ok <==> Parser.EncodeV2(m).Some?
      ensures ok ==> data[..] == Parser.EncodeV2(m).value
    {
      var k := m.kind;
      ok := true;
      if k.MotionCtrl1? {
        WriteFirst(m.cmd.motionCtrl1);
      } else if k.CircularUpdateCtrl? {
        WriteFirst([m.cmd.circular]);
      } else if k.MasterSlaveModeConfig? {
        WriteFirst(m.cfg.masterSlave);
      } else if k.MotorEnableDisableConfig? {
        WriteFirst(m.cfg.motorEnable);
      } else if k.SearchMotorLimit? {
        WriteFirst(m.cfg.search);
      } else if k.AngleLimitMaxSpdSet? {
        WriteAngleLimits(m.cfg.limitSet);
      } else if k.JointConfig? {
        WriteJointSetup(m.cfg.jointSetup);
      } else if k.InstructionResponse? {
        WriteFirst(m.fb.instruction);
      } else if k.ParamEnquiry? {
        WriteFirst(m.cfg.enquiry);
      } else if k.EndVelAccConfig? {
        WriteEndVelAcc(m.cfg.endVelAccConfig);
      } else if k.CrashConfig? {
        WriteFirst(m.cfg.crashConfig);
      } else if k.TeachingPendantConfig? {
        WriteFirst(m.cfg.teachingConfig);
      } else {
        ok := false;
      }
    }

    /** The V3 encoder: a refused mode or gripper command leaves the whole frame untouched. */
    method EncodeV3(m: Msg) returns (ok: bool)
      requires Valid()
      modifies this, data
      ensures ok <==> Parser.EncodeV3(m).Some?
      ensures ok ==> data[..] == Parser.EncodeV3(m).value && Some(canId) == KindToCanId(m.kind) && dlc == 8
      ensures !ok ==> canId == old(canId) && dlc == old(dlc)
      ensures !ok && (m.kind.MotionCtrl2? || m.kind.GripperCtrl?) ==> data[..] == old(data[..])
    {
      if m.kind.MotionCtrl2? {
        if !AcceptsMotion(V3, m.cmd.motionMode) {
          return false;
        }
        Clear();
        WriteMotionCtrl2(MotionToWireV3(m.cmd.motionMode));
      } else if m.kind.GripperCtrl? {
        var status := GripperStatusToWireV3(m.cmd.gripperCmd);
        if status.None? {
          return false;
        }
        WriteGripperCtrl(m.cmd.gripperCmd, status.value);
      } else if m.kind.JointMitCtrl? {
        var c := m.cmd.mit[m.kind.motor];
        WriteMitGains(c);
        data[6] := data[6] + c.torque / 0x100 % 0x10;
        data[7] := c.torque % 0x100;
        assert data[..] == Pack(c, V3);
      } else {
        ok := EncodeV2(m);
        return ok;
      }
      SetCommandHeader(m.kind);
      ok := true;
    }
  }

  /** The check nibble is computed from the seven bytes already in the buffer. */
  lemma CheckedTail(c: Codes, d: Payload)
    requires var g := GainBytes(c); d[..6] == g[..6] && d[6] == g[6] + c.torque / 0x10 % 0x10
    requires d[7] == c.torque % 0x10 * 0x10 + CheckNibble(d)
    ensures d == Pack(c, V2)
  {
    var g := GainBytes(c);
    var head := [g[0], g[1], g[2], g[3], g[4], g[5], g[6] + c.torque / 0x10 % 0x10];
    assert forall k :: 0 <= k < 6 ==> d[k] == d[..6][k] == g[..6][k] == g[k];
    SamePrefix(d, head, 7);
  }
}
