/** Decoding a received frame in place, into a message that may hold anything from before. */
module RxMessages {
  import opened Bytes
  import opened Messages
  import opened Mit
  import opened Parser

  /** The caller's message object, overwritten field by field. */
  class PiperMessage {
    var canId: nat
    var rawData: Payload
    var kind: Kind
    var timestamp: real
    var fb: Feedback
    var cmd: Command
    var cfg: Config

    ghost predicate Valid() reads this {
      |fb.highSpd| == 6 && |fb.lowSpd| == 6 && |cmd.mit| == 6
    }

    ghost function Contents(): Msg
      requires Valid()
      reads this
    {
      Message(canId, rawData, kind, timestamp, fb, cmd, cfg)
    }

    constructor ()
      ensures Valid() && Contents() == DEFAULT
    {
      canId, rawData, kind, timestamp := DEFAULT.canId, DEFAULT.rawData, DEFAULT.kind, DEFAULT.timestamp;
      fb, cmd, cfg := DEFAULT.fb, DEFAULT.cmd, DEFAULT.cfg;
    }

    method AcceptFrame(f: Frame, now: real) returns (ok: bool)
      requires Valid()
      modifies this
      ensures Valid() && (ok, Contents()) == Parser.AcceptFrame(f, now, old(Contents()))
    {
      if f.id >= SFF_LIMIT || f.dlc > CAN_MAX_DLEN {
        kind := Unknown;
        return false;
      }
      canId := f.id;
      var k := CanIdToKind(f.id);
      if k.None? {
        kind := Unknown;
        return false;
      }
      kind := k.value;
      if f.dlc < RequiredDlc(f.id) {
        kind := Unknown;
        return false;
      }
      rawData := f.data[..f.dlc] + ZERO_PAYLOAD[f.dlc..];
      timestamp := now;
      ok := true;
    }

    method ReadFeedback(f: Frame)
      requires Valid() && f.dlc <= 8
      modifies this`fb
      ensures Valid() && fb == Parser.ReadFeedback(f, kind, old(fb))
    {
      if kind.HighSpdFeed? || kind.LowSpdFeed? {
        ReadDriver(f);
      } else if kind.StatusFeedback? || kind.EndPoseFeedback? || kind.JointFeedback? || kind.GripperFeedback? {
        ReadState(f);
      } else {
        ReadParameters(f);
      }
    }

    /** Status, poses and the gripper. */
    method ReadState(f: Frame)
      requires Valid() && f.dlc <= 8
      requires kind.StatusFeedback? || kind.EndPoseFeedback? || kind.JointFeedback? || kind.GripperFeedback?
      modifies this`fb
      ensures Valid() && fb == Parser.ReadFeedback(f, kind, old(fb))
    {
      var d := f.data;
      if kind.StatusFeedback? {
        var status := Status(d[0], d[1], d[2], d[3], d[4], d[5], Uint16At(d, 6));
        fb := fb.(status := status);
      } else if kind.EndPoseFeedback? {
        fb := fb.(endPose := fb.endPose[2 * kind.part := Int32At(d, 0)]);
        fb := fb.(endPose := fb.endPose[2 * kind.part + 1 := Int32At(d, 4)]);
      } else if kind.JointFeedback? {
        fb := fb.(jointFeedback := fb.jointFeedback[2 * kind.part := Int32At(d, 0)]);
        fb := fb.(jointFeedback := fb.jointFeedback[2 * kind.part + 1 := Int32At(d, 4)]);
      } else {
        fb := fb.(gripper := fb.gripper.(value := Int32At(d, 0)));
        fb := fb.(gripper := fb.gripper.(effort := Int16At(d, 4)));
        fb := fb.(gripper := fb.gripper.(statusCode := d[6], mode := Width));
      }
    }

    /** One motor's driver. */
    method ReadDriver(f: Frame)
      requires Valid() && f.dlc <= 8 && (kind.HighSpdFeed? || kind.LowSpdFeed?)
      modifies this`fb
      ensures Valid() && fb == Parser.ReadFeedback(f, kind, old(fb))
    {
      var d, i := f.data, kind.motor;
      if kind.HighSpdFeed? {
        var high := HighSpd(f.id, Int16At(d, 0), Int16At(d, 2), Int32At(d, 4), 0.0);
        high := high.(effort := high.current as real * Coefficient(i));
        fb := fb.(highSpd := fb.highSpd[i := high]);
      } else {
        var low := LowSpd(f.id, Uint16At(d, 0), Int16At(d, 2), AsInt8(d[4]), d[5], Uint16At(d, 6));
        fb := fb.(lowSpd := fb.lowSpd[i := low]);
      }
    }

    /** Limits, ratings and answers to queries. */
    method ReadParameters(f: Frame)
      requires Valid() && f.dlc <= 8
      requires !(kind.StatusFeedback? || kind.EndPoseFeedback? || kind.JointFeedback? || kind.GripperFeedback?)
      requires !(kind.HighSpdFeed? || kind.LowSpdFeed?)
      modifies this`fb
      ensures Valid() && fb == Parser.ReadFeedback(f, kind, old(fb))
    {
      var d := f.data;
      if kind.FeedbackEndVelAcc? {
        fb := fb.(endVelAcc := EndVelAcc(Int16At(d, 0), Int16At(d, 2), Int16At(d, 4), Int16At(d, 6)));
      } else if kind.CrashFeedback? {
        fb := fb.(crash := d[..6]);
      } else if kind.TeachingPendantFeedback? {
        fb := fb.(teaching := d[..3]);
      } else if kind.FeedbackAngleLimitMaxSpd? {
        fb := fb.(motorLimit := MotorLimit(d[0], Int16At(d, 1), Int16At(d, 3), Int16At(d, 5)));
      } else if kind.FeedbackMaxAccLimit? {
        fb := fb.(motorAcc := MotorAcc(d[0], Int16At(d, 1)));
      } else if kind.FirmwareRead? {
        fb := fb.(firmware := d[..f.dlc]);
      } else if kind.InstructionResponse? {
        fb := fb.(instruction := d[..2]);
      }
    }

    /** The echoes of commands. */
    method ReadCommand(f: Frame)
      requires Valid()
      modifies this`cmd
      ensures Valid() && cmd == Parser.ReadCommand(f, kind, old(cmd))
    {
      var d := f.data;
      if kind.MotionCtrl2? {
        cmd := cmd.(motionMode := MotionMode(d[0], d[1], d[2], d[3], d[4], d[5]));
      } else if kind.JointCtrl? {
        cmd := cmd.(jointCtrl := cmd.jointCtrl[2 * kind.part := Int32At(d, 0)]);
        cmd := cmd.(jointCtrl := cmd.jointCtrl[2 * kind.part + 1 := Int32At(d, 4)]);
      } else if kind.GripperCtrl? {
        cmd := cmd.(gripperCmd := cmd.gripperCmd.(value := Int32At(d, 0)));
        cmd := cmd.(gripperCmd := cmd.gripperCmd.(effort := AsUint16(Int16At(d, 4))));
        cmd := cmd.(gripperCmd := cmd.gripperCmd.(statusCode := d[6], setZero := d[7], mode := Width));
      }
    }

    method DecodeV2(f: Frame, now: real) returns (ok: bool)
      requires Valid()
      modifies this
      ensures Valid() && (ok, Contents()) == Parser.DecodeV2(f, now, old(Contents()))
    {
      ok := AcceptFrame(f, now);
      if !ok {
        return;
      }
      if !DecodableV2(kind) {
        kind := Unknown;
        return false;
      }
      ReadFeedback(f);
      ReadCommand(f);
    }

    /** V3 reads its own frames itself, and otherwise corrects what V2 decoded. */
    method DecodeV3(f: Frame, now: real) returns (ok: bool)
      requires Valid()
      modifies this
      ensures Valid() && (ok, Contents()) == Parser.DecodeV3(f, now, old(Contents()))
    {
      if 0x2AA <= f.id <= 0x2AC {
        ok := AcceptFrame(f, now);
        if ok {
          var part: nat := kind.part;
          fb := fb.(ikFeedback := fb.ikFeedback[2 * part := Int32At(f.data, 0)]);
          fb := fb.(ikFeedback := fb.ikFeedback[2 * part + 1 := Int32At(f.data, 4)]);
        }
        return;
      }
      ok := DecodeV2(f, now);
      if ok {
        Patch(f);
      }
    }

    method Patch(f: Frame)
      requires Valid()
      modifies this`fb, this`cmd
      ensures Valid() && Contents() == PatchV3(f, old(Contents()))
    {
      var d := f.data;
      if kind.StatusFeedback? {
        fb := fb.(status := fb.status.(modeFeed := MoveModeFromWire(d[2])));
      } else if kind.MotionCtrl2? {
        cmd := cmd.(motionMode := cmd.motionMode.(moveMode := MoveModeFromWire(d[1])));
      } else if kind.GripperFeedback? {
        if f.dlc < 8 {
          fb := fb.(gripper := fb.gripper.(mode := Width));
        } else {
          var mode := if d[7] == 0x00 then Width else if d[7] == 0x01 then Angle else UnknownMode;
          fb := fb.(gripper := fb.gripper.(mode := mode));
        }
      } else if kind.GripperCtrl? {
        if d[6] <= 7 {
          var mode := if d[6] / 4 % 2 == 1 then Angle else Width;
          cmd := cmd.(gripperCmd := cmd.gripperCmd.(statusCode := d[6] % 4, mode := mode));
        } else {
          cmd := cmd.(gripperCmd := cmd.gripperCmd.(mode := UnknownMode));
        }
      }
    }
  }
}
