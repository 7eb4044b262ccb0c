/** Unit conversions between ROS commands and the arm's integers. */
module Conversion {
  import opened Bytes
  import opened Messages
  import opened Rounding

  const PI := 3.14159265358979323846
  const RAD_TO_MD := 1000.0 * 180.0 / PI
  const MD_TO_RAD := 1.0 / RAD_TO_MD
  const MILLI_TO_UNIT := 0.001
  const UM_TO_M := 0.000001
  const M_TO_UM := 1000000.0

  /** A full turn in 0.001 deg, and a metre in micrometres: the largest commands accepted. */
  const FULL_TURN := 360000
  const METRE := 1000000

  function MdToRad(md: int32): real {
    md as real * MD_TO_RAD
  }

  function UmToM(um: int32): real {
    um as real * UM_TO_M
  }

  /** Half a turn is 180 degrees, and a metre is a million micrometres. */
  lemma UnitsOf(md: int32, um: int32)
    ensures MdToRad(md) * 180000.0 == md as real * PI && UmToM(um) * 1000000.0 == um as real
    ensures RAD_TO_MD * PI == 180000.0 && M_TO_UM == 1000000.0
  {}

  /** No value for a command that is not finite or lies beyond a full turn. */
  function JointCommandToMillideg(rad: Double): (md: Option<int32>)
    ensures md.Some? ==> -FULL_TURN <= md.value <= FULL_TURN
  {
    if rad.NotFinite? || Abs(rad.value) > 2.0 * PI then None else Some(LRound(rad.value * RAD_TO_MD))
  }

  function GripperCommandToMicrometres(m: Double): (um: Option<int32>)
    ensures um.Some? ==> -METRE <= um.value <= METRE
  {
    if m.NotFinite? || Abs(m.value) > 1.0 then None else Some(LRound(m.value * M_TO_UM))
  }

  /** The commands that have a place on the wire: finite, and within a full turn or a metre. */
  lemma AcceptedIff(rad: Double, m: Double)
    ensures JointCommandToMillideg(rad).Some? <==> rad.Finite? && -2.0 * PI <= rad.value <= 2.0 * PI
    ensures GripperCommandToMicrometres(m).Some? <==> m.Finite? && -1.0 <= m.value <= 1.0
  {}

  /** A measured joint angle survives the trip through radians exactly when it is within a full turn. */
  lemma JointRoundTrip(md: int32)
    ensures JointCommandToMillideg(Finite(MdToRad(md))) == if -FULL_TURN <= md <= FULL_TURN then Some(md) else None
  {
    assert MdToRad(md) * RAD_TO_MD == md as real;
    SameCode(MdToRad(md) * RAD_TO_MD, md as real);
    LRoundExact(md, md as real);
  }

  lemma GripperRoundTrip(um: int32)
    ensures GripperCommandToMicrometres(Finite(UmToM(um))) == if -METRE <= um <= METRE then Some(um) else None
  {
    assert UmToM(um) * M_TO_UM == um as real;
    SameCode(UmToM(um) * M_TO_UM, um as real);
    LRoundExact(um, um as real);
  }

  /** An accepted command is sent to within half a unit, and no closer integer exists. */
  lemma JointWithinHalfUnit(rad: real, other: int)
    requires JointCommandToMillideg(Finite(rad)).Some?
    ensures var md := JointCommandToMillideg(Finite(rad)).value;
            && Abs(md as real - rad * RAD_TO_MD) <= 0.5
            && Abs(md as real - rad * RAD_TO_MD) <= Abs(other as real - rad * RAD_TO_MD)
  {
    LRoundClosest(rad * RAD_TO_MD, JointCommandToMillideg(Finite(rad)).value, other);
  }

  lemma GripperWithinHalfUnit(m: real, other: int)
    requires GripperCommandToMicrometres(Finite(m)).Some?
    ensures var um := GripperCommandToMicrometres(Finite(m)).value;
            && Abs(um as real - m * M_TO_UM) <= 0.5
            && Abs(um as real - m * M_TO_UM) <= Abs(other as real - m * M_TO_UM)
  {
    LRoundClosest(m * M_TO_UM, GripperCommandToMicrometres(Finite(m)).value, other);
  }
}
