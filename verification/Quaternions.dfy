/** Euler angles to quaternions and quaternions to rotation matrices. */
module Quaternions {
  import opened Geometry
  import opened Kinematics
  import opened Messages

  datatype Quat = Quat(x: real, y: real, z: real, w: real)

  function NormSquared(q: Quat): real {
    q.x * q.x + q.y * q.y + q.z * q.z + q.w * q.w
  }

  /** The Hamilton product: turn by `q`, then by `p`. */
  function Times(p: Quat, q: Quat): Quat {
    Quat(p.w * q.x + p.x * q.w + p.y * q.z - p.z * q.y,
         p.w * q.y - p.x * q.z + p.y * q.w + p.z * q.x,
         p.w * q.z + p.x * q.y - p.y * q.x + p.z * q.w,
         p.w * q.w - p.x * q.x - p.y * q.y - p.z * q.z)
  }

  // ---------- Euler angles to quaternion ----------

  datatype Axes = Sxyz | Rzyx

  function TurnX(c: real, s: real): Quat {
    Quat(s, 0.0, 0.0, c)
  }

  function TurnY(c: real, s: real): Quat {
    Quat(0.0, s, 0.0, c)
  }

  function TurnZ(c: real, s: real): Quat {
    Quat(0.0, 0.0, s, c)
  }

  /** Three turns, about x first, by the cosines and sines of their half angles. */
  function Turns(cr: real, sr: real, cp: real, sp: real, cy: real, sy: real): Quat {
    Times(Times(TurnZ(cy, sy), TurnY(cp, sp)), TurnX(cr, sr))
  }

  /** The rotating-frame axes exchange roll and yaw. */
  function EulerQuat(trig: Trig, roll: real, pitch: real, yaw: real, axes: Axes): Quat {
    var (r, p, y) := if axes == Rzyx then (yaw * 0.5, pitch * 0.5, roll * 0.5) else (roll * 0.5, pitch * 0.5, yaw * 0.5);
    Turns(trig.cos(r), trig.sin(r), trig.cos(p), trig.sin(p), trig.cos(y), trig.sin(y))
  }

  /** The closed form of the three turns. */
  function Closed(cr: real, sr: real, cp: real, sp: real, cy: real, sy: real): Quat {
    Quat(cp * (sr * cy) - sp * (cr * sy), cp * (sr * sy) + sp * (cr * cy),
         cp * (cr * sy) - sp * (sr * cy), cp * (cr * cy) + sp * (sr * sy))
  }

  lemma TurnsByComponents(cr: real, sr: real, cp: real, sp: real, cy: real, sy: real)
    ensures Turns(cr, sr, cp, sp, cy, sy)
            == Closed(cr, sr, cp, sp, cy, sy)
  {
    var p := Times(TurnZ(cy, sy), TurnY(cp, sp));
    assert p == Quat(-(sy * sp), cy * sp, sy * cp, cy * cp);
    ThirdTurn(p, cr, sr);
    TurnTerms(cr, sr, cp, sp, cy, sy, p);
  }

  lemma ThirdTurn(p: Quat, c: real, s: real)
    ensures Times(p, TurnX(c, s)) == Quat(p.w * s + p.x * c, p.y * c + p.z * s, p.z * c - p.y * s, p.w * c - p.x * s)
  {}

  lemma TurnTerms(cr: real, sr: real, cp: real, sp: real, cy: real, sy: real, p: Quat)
    requires p.x == -(sy * sp) && p.y == cy * sp && p.z == sy * cp && p.w == cy * cp
    ensures p.w * sr + p.x * cr == cp * (sr * cy) - sp * (cr * sy)
    ensures p.y * cr + p.z * sr == cp * (sr * sy) + sp * (cr * cy)
    ensures p.z * cr - p.y * sr == cp * (cr * sy) - sp * (sr * cy)
    ensures p.w * cr - p.x * sr == cp * (cr * cy) + sp * (sr * sy)
  {}

  /** The driver's closed form is that product of turns. */
  method EulerToQuat(trig: Trig, roll: real, pitch: real, yaw: real, axes: Axes) returns (q: array<real>)
    ensures fresh(q) && q.Length == 4
    ensures Quat(q[0], q[1], q[2], q[3]) == EulerQuat(trig, roll, pitch, yaw, axes)
  {
    var r, p, y := roll, pitch, yaw;
    if axes == Rzyx {
      r, y := y, r;
    }
    r, p, y := r * 0.5, p * 0.5, y * 0.5;
    q := new real[4](_ => 0.0);
    FillQuat(q, trig.cos(r), trig.sin(r), trig.cos(p), trig.sin(p), trig.cos(y), trig.sin(y));
  }

  method FillQuat(q: array<real>, cr: real, sr: real, cp: real, sp: real, cy: real, sy: real)
    requires q.Length == 4
    modifies q
    ensures Quat(q[0], q[1], q[2], q[3]) == Turns(cr, sr, cp, sp, cy, sy)
  {
    var cc, cs, sc, ss := cr * cy, cr * sy, sr * cy, sr * sy;
    q[0] := cp * sc - sp * cs;
    q[1] := cp * ss + sp * cc;
    q[2] := cp * cs - sp * sc;
    q[3] := cp * cc + sp * ss;
    TurnsByComponents(cr, sr, cp, sp, cy, sy);
  }

  lemma NormOfTurns(cr: real, sr: real, cp: real, sp: real, cy: real, sy: real)
    ensures NormSquared(Closed(cr, sr, cp, sp, cy, sy))
            == (cp * cp + sp * sp) * ((cr * cr + sr * sr) * (cy * cy + sy * sy))
  {}

  lemma NormOfTurnsAs(cr: real, sr: real, cp: real, sp: real, cy: real, sy: real) returns (n: real)
    ensures n == NormSquared(Turns(cr, sr, cp, sp, cy, sy))
    ensures n == (cp * cp + sp * sp) * ((cr * cr + sr * sr) * (cy * cy + sy * sy))
  {
    TurnsByComponents(cr, sr, cp, sp, cy, sy);
    NormOfTurns(cr, sr, cp, sp, cy, sy);
    n := NormSquared(Turns(cr, sr, cp, sp, cy, sy));
  }

  lemma TurnsAreUnit(cr: real, sr: real, cp: real, sp: real, cy: real, sy: real, n: real)
    requires cr * cr + sr * sr == 1.0 && cp * cp + sp * sp == 1.0 && cy * cy + sy * sy == 1.0
    requires n == (cp * cp + sp * sp) * ((cr * cr + sr * sr) * (cy * cy + sy * sy))
    ensures n == 1.0
  {
    ProductOfOnes(cp * cp + sp * sp, cr * cr + sr * sr, cy * cy + sy * sy);
  }

  lemma ProductOfOnes(a: real, b: real, c: real)
    requires a == 1.0 && b == 1.0 && c == 1.0
    ensures a * (b * c) == 1.0
  {}

  /** Every Euler angle triple gives a unit quaternion. */
  lemma EulerQuatIsUnit(trig: Trig, roll: real, pitch: real, yaw: real, axes: Axes)
    requires trig.Pythagorean()
    ensures NormSquared(EulerQuat(trig, roll, pitch, yaw, axes)) == 1.0
  {
    var (r, p, y) := if axes == Rzyx then (yaw * 0.5, pitch * 0.5, roll * 0.5) else (roll * 0.5, pitch * 0.5, yaw * 0.5);
    var n := NormOfTurnsAs(trig.cos(r), trig.sin(r), trig.cos(p), trig.sin(p), trig.cos(y), trig.sin(y));
    TurnsAreUnit(trig.cos(r), trig.sin(r), trig.cos(p), trig.sin(p), trig.cos(y), trig.sin(y), n);
  }

  // ---------- Quaternion to matrix ----------

  const EPS := 0.0000000001

  /** Divides by `norm`, the square root the driver computes; nothing for a quaternion too close to zero. */
  function NormalizeQuat(q: Quat, norm: real): (r: Option<Quat>)
    requires norm >= 0.0 && norm * norm == NormSquared(q)
  {
    if norm < EPS then None else Some(Quat(q.x / norm, q.y / norm, q.z / norm, q.w / norm))
  }

  lemma DivideByTimes(x: real, n: real)
    requires n != 0.0
    ensures x / n == x * (1.0 / n)
  {}

  lemma NormOfScaled(q: Quat, t: real)
    ensures NormSquared(Quat(q.x * t, q.y * t, q.z * t, q.w * t)) == (t * t) * NormSquared(q)
  {}

  lemma SquareOfInverse(n: real, t: real, s: real)
    requires n != 0.0 && t == 1.0 / n && s == n * n
    ensures (t * t) * s == 1.0
  {
    assert t * n == 1.0;
    assert (t * n) * (t * n) == (t * t) * (n * n);
  }

  lemma SquaresInOrder(n: real, e: real)
    requires n >= 0.0 && e > 0.0
    ensures n < e <==> n * n < e * e
  {
    if n < e {
      assert n * (e - n) >= 0.0 && e * (e - n) > 0.0;
    } else {
      assert n * (n - e) >= 0.0 && e * (n - e) >= 0.0;
    }
  }

  /** Refused exactly when too short, otherwise scaled to unit length. */
  lemma NormalizedIsUnit(q: Quat, norm: real)
    requires norm >= 0.0 && norm * norm == NormSquared(q)
    ensures NormalizeQuat(q, norm).None? <==> NormSquared(q) < EPS * EPS
    ensures NormalizeQuat(q, norm).Some? ==> NormSquared(NormalizeQuat(q, norm).value) == 1.0
  {
    SquaresInOrder(norm, EPS);
    if norm >= EPS {
      DivideByTimes(q.x, norm);
      DivideByTimes(q.y, norm);
      DivideByTimes(q.z, norm);
      DivideByTimes(q.w, norm);
      NormOfScaled(q, 1.0 / norm);
      SquareOfInverse(norm, 1.0 / norm, NormSquared(q));
    }
  }

  /** A unit quaternion is left as it is. */
  lemma UnitIsUnchanged(q: Quat, norm: real)
    requires norm >= 0.0 && norm * norm == NormSquared(q) == 1.0
    ensures NormalizeQuat(q, norm) == Some(q)
  {
    SquaresInOrder(norm, 1.0);
    SquaresInOrder(1.0, if norm > 0.0 then norm else 1.0);
    assert norm == 1.0;
  }

  /** The matrix `quatToEuler` builds from the normalised components. */
  function QuatMatrix(x: real, y: real, z: real, w: real): Rows {
    Rows(Vec(1.0 - 2.0 * (y * y + z * z), 2.0 * (x * y - z * w), 2.0 * (x * z + y * w)),
         Vec(2.0 * (x * y + z * w), 1.0 - 2.0 * (x * x + z * z), 2.0 * (y * z - x * w)),
         Vec(2.0 * (x * z - y * w), 2.0 * (y * z + x * w), 1.0 - 2.0 * (x * x + y * y)))
  }

  // ---------- The matrix is a rotation: each condition is an identity up to a multiple of 1 - |q|^2 ----------

  function Dot3(a: real, b: real, c: real, x: real, y: real, z: real): real {
    a * x + b * y + c * z
  }

  function Minor(a: real, b: real, x: real, y: real): real {
    a * y - b * x
  }

  lemma Vanishes(k: real, n: real)
    requires n == 1.0
    ensures k * (1.0 - n) == 0.0
  {}

  lemma FirstRowLengthIdentity(x: real, y: real, z: real, w: real)
    ensures Dot3(1.0 - 2.0 * (y * y + z * z), 2.0 * (x * y - z * w), 2.0 * (x * z + y * w),
                 1.0 - 2.0 * (y * y + z * z), 2.0 * (x * y - z * w), 2.0 * (x * z + y * w))
            == 1.0 - 4.0 * ((y * y + z * z) * (1.0 - (x * x + y * y + z * z + w * w)))
  {}

  lemma FirstRowLength(x: real, y: real, z: real, w: real)
    requires x * x + y * y + z * z + w * w == 1.0
    ensures Dot3(1.0 - 2.0 * (y * y + z * z), 2.0 * (x * y - z * w), 2.0 * (x * z + y * w),
                 1.0 - 2.0 * (y * y + z * z), 2.0 * (x * y - z * w), 2.0 * (x * z + y * w)) == 1.0
  {
    FirstRowLengthIdentity(x, y, z, w);
    Vanishes(y * y + z * z, x * x + y * y + z * z + w * w);
  }

  lemma SecondRowLengthIdentity(x: real, y: real, z: real, w: real)
    ensures Dot3(2.0 * (x * y + z * w), 1.0 - 2.0 * (x * x + z * z), 2.0 * (y * z - x * w),
                 2.0 * (x * y + z * w), 1.0 - 2.0 * (x * x + z * z), 2.0 * (y * z - x * w))
            == 1.0 - 4.0 * ((x * x + z * z) * (1.0 - (x * x + y * y + z * z + w * w)))
  {}

  lemma SecondRowLength(x: real, y: real, z: real, w: real)
    requires x * x + y * y + z * z + w * w == 1.0
    ensures Dot3(2.0 * (x * y + z * w), 1.0 - 2.0 * (x * x + z * z), 2.0 * (y * z - x * w),
                 2.0 * (x * y + z * w), 1.0 - 2.0 * (x * x + z * z), 2.0 * (y * z - x * w)) == 1.0
  {
    SecondRowLengthIdentity(x, y, z, w);
    Vanishes(x * x + z * z, x * x + y * y + z * z + w * w);
  }

  lemma RightAnglesIdentity(x: real, y: real, z: real, w: real)
    ensures Dot3(1.0 - 2.0 * (y * y + z * z), 2.0 * (x * y - z * w), 2.0 * (x * z + y * w),
                 2.0 * (x * y + z * w), 1.0 - 2.0 * (x * x + z * z), 2.0 * (y * z - x * w))
            == 4.0 * ((x * y) * (1.0 - (x * x + y * y + z * z + w * w)))
  {}

  lemma RightAngles(x: real, y: real, z: real, w: real)
    requires x * x + y * y + z * z + w * w == 1.0
    ensures Dot3(1.0 - 2.0 * (y * y + z * z), 2.0 * (x * y - z * w), 2.0 * (x * z + y * w),
                 2.0 * (x * y + z * w), 1.0 - 2.0 * (x * x + z * z), 2.0 * (y * z - x * w)) == 0.0
  {
    RightAnglesIdentity(x, y, z, w);
    Vanishes(x * y, x * x + y * y + z * z + w * w);
  }

  lemma MinorXIdentity(x: real, y: real, z: real, w: real)
    ensures Minor(2.0 * (x * y - z * w), 2.0 * (x * z + y * w), 1.0 - 2.0 * (x * x + z * z), 2.0 * (y * z - x * w))
            == 2.0 * (x * z - y * w) - 4.0 * ((x * z) * (1.0 - (x * x + y * y + z * z + w * w)))
  {}

  lemma MinorX(x: real, y: real, z: real, w: real)
    requires x * x + y * y + z * z + w * w == 1.0
    ensures Minor(2.0 * (x * y - z * w), 2.0 * (x * z + y * w),
                  1.0 - 2.0 * (x * x + z * z), 2.0 * (y * z - x * w)) == 2.0 * (x * z - y * w)
  {
    MinorXIdentity(x, y, z, w);
    Vanishes(x * z, x * x + y * y + z * z + w * w);
  }

  lemma MinorYIdentity(x: real, y: real, z: real, w: real)
    ensures Minor(2.0 * (x * z + y * w), 1.0 - 2.0 * (y * y + z * z), 2.0 * (y * z - x * w), 2.0 * (x * y + z * w))
            == 2.0 * (y * z + x * w) - 4.0 * ((y * z) * (1.0 - (x * x + y * y + z * z + w * w)))
  {}

  lemma MinorY(x: real, y: real, z: real, w: real)
    requires x * x + y * y + z * z + w * w == 1.0
    ensures Minor(2.0 * (x * z + y * w), 1.0 - 2.0 * (y * y + z * z),
                  2.0 * (y * z - x * w), 2.0 * (x * y + z * w)) == 2.0 * (y * z + x * w)
  {
    MinorYIdentity(x, y, z, w);
    Vanishes(y * z, x * x + y * y + z * z + w * w);
  }

  lemma MinorZIdentity(x: real, y: real, z: real, w: real)
    ensures Minor(1.0 - 2.0 * (y * y + z * z), 2.0 * (x * y - z * w),
                  2.0 * (x * y + z * w), 1.0 - 2.0 * (x * x + z * z))
            == 1.0 - 2.0 * (x * x + y * y) - 4.0 * ((z * z) * (1.0 - (x * x + y * y + z * z + w * w)))
  {}

  lemma MinorZ(x: real, y: real, z: real, w: real)
    requires x * x + y * y + z * z + w * w == 1.0
    ensures Minor(1.0 - 2.0 * (y * y + z * z), 2.0 * (x * y - z * w),
                  2.0 * (x * y + z * w), 1.0 - 2.0 * (x * x + z * z)) == 1.0 - 2.0 * (x * x + y * y)
  {
    MinorZIdentity(x, y, z, w);
    Vanishes(z * z, x * x + y * y + z * z + w * w);
  }

  lemma ConditionsSuffice(a: Vec, b: Vec, c: Vec)
    requires Dot3(a.x, a.y, a.z, a.x, a.y, a.z) == 1.0 && Dot3(b.x, b.y, b.z, b.x, b.y, b.z) == 1.0
    requires Dot3(a.x, a.y, a.z, b.x, b.y, b.z) == 0.0
    requires Minor(a.y, a.z, b.y, b.z) == c.x && Minor(a.z, a.x, b.z, b.x) == c.y && Minor(a.x, a.y, b.x, b.y) == c.z
    ensures Rotation(Rows(a, b, c))
  {
    TwoRowsMakeRotation(Rows(a, b, c));
  }

  lemma EntriesSuffice(a1: real, a2: real, a3: real, b1: real, b2: real, b3: real, c1: real, c2: real, c3: real)
    requires Dot3(a1, a2, a3, a1, a2, a3) == 1.0 && Dot3(b1, b2, b3, b1, b2, b3) == 1.0
    requires Dot3(a1, a2, a3, b1, b2, b3) == 0.0
    requires Minor(a2, a3, b2, b3) == c1 && Minor(a3, a1, b3, b1) == c2 && Minor(a1, a2, b1, b2) == c3
    ensures Rotation(Rows(Vec(a1, a2, a3), Vec(b1, b2, b3), Vec(c1, c2, c3)))
  {
    ConditionsSuffice(Vec(a1, a2, a3), Vec(b1, b2, b3), Vec(c1, c2, c3));
  }

  /** The matrix of a unit quaternion is a rotation. */
  lemma QuatMatrixIsRotation(x: real, y: real, z: real, w: real)
    requires x * x + y * y + z * z + w * w == 1.0
    ensures Rotation(QuatMatrix(x, y, z, w))
  {
    FirstRowLength(x, y, z, w);
    SecondRowLength(x, y, z, w);
    RightAngles(x, y, z, w);
    MinorX(x, y, z, w);
    MinorY(x, y, z, w);
    MinorZ(x, y, z, w);
    EntriesSuffice(1.0 - 2.0 * (y * y + z * z), 2.0 * (x * y - z * w), 2.0 * (x * z + y * w),
                      2.0 * (x * y + z * w), 1.0 - 2.0 * (x * x + z * z), 2.0 * (y * z - x * w),
                      2.0 * (x * z - y * w), 2.0 * (y * z + x * w), 1.0 - 2.0 * (x * x + y * y));
  }

  /** So the matrix of every Euler angle triple is a rotation. */
  lemma EulerMatrixIsRotation(trig: Trig, roll: real, pitch: real, yaw: real, axes: Axes)
    requires trig.Pythagorean()
    ensures var q := EulerQuat(trig, roll, pitch, yaw, axes); Rotation(QuatMatrix(q.x, q.y, q.z, q.w))
  {
    var q := EulerQuat(trig, roll, pitch, yaw, axes);
    EulerQuatIsUnit(trig, roll, pitch, yaw, axes);
    QuatMatrixIsRotation(q.x, q.y, q.z, q.w);
  }

  /** So is the matrix of every quaternion that normalisation accepts. */
  lemma AcceptedQuatGivesRotation(q: Quat, norm: real)
    requires norm >= 0.0 && norm * norm == NormSquared(q) && NormSquared(q) >= EPS * EPS
    ensures NormalizeQuat(q, norm).Some?
    ensures var r := NormalizeQuat(q, norm).value; Rotation(QuatMatrix(r.x, r.y, r.z, r.w))
  {
    NormalizedIsUnit(q, norm);
    var r := NormalizeQuat(q, norm).value;
    QuatMatrixIsRotation(r.x, r.y, r.z, r.w);
  }

  // ---------- What extraction sees ----------

  /** The double-angle formulas at `x`. */
  ghost predicate HalfAngle(trig: Trig, x: real) {
    && trig.cos(x) == trig.cos(x * 0.5) * trig.cos(x * 0.5) - trig.sin(x * 0.5) * trig.sin(x * 0.5)
    && trig.sin(x) == 2.0 * trig.sin(x * 0.5) * trig.cos(x * 0.5)
  }

  lemma TimesOne(t: real, a: real, b: real, one: real, x: real, y: real)
    requires t == (a * b) * one && one == 1.0 && x == a && y == b
    ensures t == x * y
  {}

  lemma RollSineTerm(cr: real, sr: real, cp: real, sp: real, cy: real, sy: real)
    ensures var q := Closed(cr, sr, cp, sp, cy, sy);
            2.0 * (q.y * q.z + q.x * q.w) == ((cp * cp - sp * sp) * (2.0 * sr * cr)) * (cy * cy + sy * sy)
  {}

  lemma RollSine(cr: real, sr: real, cp: real, sp: real, cy: real, sy: real, c: real, t: real)
    requires cy * cy + sy * sy == 1.0 && c == cp * cp - sp * sp && t == 2.0 * sr * cr
    ensures var q := Closed(cr, sr, cp, sp, cy, sy); 2.0 * (q.y * q.z + q.x * q.w) == c * t
  {
    RollSineTerm(cr, sr, cp, sp, cy, sy);
    var q := Closed(cr, sr, cp, sp, cy, sy);
    TimesOne(2.0 * (q.y * q.z + q.x * q.w), cp * cp - sp * sp, 2.0 * sr * cr, cy * cy + sy * sy, c, t);
  }

  lemma RollCosineTerm(cr: real, sr: real, cp: real, sp: real, cy: real, sy: real)
    ensures var q := Closed(cr, sr, cp, sp, cy, sy);
            q.w * q.w - q.x * q.x - q.y * q.y + q.z * q.z
            == ((cp * cp - sp * sp) * (cr * cr - sr * sr)) * (cy * cy + sy * sy)
  {}

  lemma RollCosine(cr: real, sr: real, cp: real, sp: real, cy: real, sy: real, c: real, t: real)
    requires cy * cy + sy * sy == 1.0 && c == cp * cp - sp * sp && t == cr * cr - sr * sr
    ensures var q := Closed(cr, sr, cp, sp, cy, sy); q.w * q.w - q.x * q.x - q.y * q.y + q.z * q.z == c * t
  {
    RollCosineTerm(cr, sr, cp, sp, cy, sy);
    var q := Closed(cr, sr, cp, sp, cy, sy);
    TimesOne(q.w * q.w - q.x * q.x - q.y * q.y + q.z * q.z,
             cp * cp - sp * sp, cr * cr - sr * sr, cy * cy + sy * sy, c, t);
  }

  lemma YawSineTerm(cr: real, sr: real, cp: real, sp: real, cy: real, sy: real)
    ensures var q := Closed(cr, sr, cp, sp, cy, sy);
            2.0 * (q.x * q.y + q.z * q.w) == ((cp * cp - sp * sp) * (2.0 * sy * cy)) * (cr * cr + sr * sr)
  {}

  lemma YawSine(cr: real, sr: real, cp: real, sp: real, cy: real, sy: real, c: real, t: real)
    requires cr * cr + sr * sr == 1.0 && c == cp * cp - sp * sp && t == 2.0 * sy * cy
    ensures var q := Closed(cr, sr, cp, sp, cy, sy); 2.0 * (q.x * q.y + q.z * q.w) == c * t
  {
    YawSineTerm(cr, sr, cp, sp, cy, sy);
    var q := Closed(cr, sr, cp, sp, cy, sy);
    TimesOne(2.0 * (q.x * q.y + q.z * q.w), cp * cp - sp * sp, 2.0 * sy * cy, cr * cr + sr * sr, c, t);
  }

  lemma YawCosineTerm(cr: real, sr: real, cp: real, sp: real, cy: real, sy: real)
    ensures var q := Closed(cr, sr, cp, sp, cy, sy);
            q.w * q.w + q.x * q.x - q.y * q.y - q.z * q.z
            == ((cp * cp - sp * sp) * (cy * cy - sy * sy)) * (cr * cr + sr * sr)
  {}

  lemma YawCosine(cr: real, sr: real, cp: real, sp: real, cy: real, sy: real, c: real, t: real)
    requires cr * cr + sr * sr == 1.0 && c == cp * cp - sp * sp && t == cy * cy - sy * sy
    ensures var q := Closed(cr, sr, cp, sp, cy, sy); q.w * q.w + q.x * q.x - q.y * q.y - q.z * q.z == c * t
  {
    YawCosineTerm(cr, sr, cp, sp, cy, sy);
    var q := Closed(cr, sr, cp, sp, cy, sy);
    TimesOne(q.w * q.w + q.x * q.x - q.y * q.y - q.z * q.z,
             cp * cp - sp * sp, cy * cy - sy * sy, cr * cr + sr * sr, c, t);
  }

  lemma PitchSineTerm(cr: real, sr: real, cp: real, sp: real, cy: real, sy: real)
    ensures var q := Closed(cr, sr, cp, sp, cy, sy);
            2.0 * (q.x * q.z - q.y * q.w) == -((2.0 * sp * cp) * ((cr * cr + sr * sr) * (cy * cy + sy * sy)))
  {}

  lemma PitchSine(cr: real, sr: real, cp: real, sp: real, cy: real, sy: real, t: real)
    requires cr * cr + sr * sr == 1.0 && cy * cy + sy * sy == 1.0 && t == 2.0 * sp * cp
    ensures var q := Closed(cr, sr, cp, sp, cy, sy); -(2.0 * (q.x * q.z - q.y * q.w)) == t
  {
    PitchSineTerm(cr, sr, cp, sp, cy, sy);
    ProductOfOnes(1.0, cr * cr + sr * sr, cy * cy + sy * sy);
  }

  lemma UnitEntries(x: real, y: real, z: real, w: real)
    requires x * x + y * y + z * z + w * w == 1.0
    ensures QuatMatrix(x, y, z, w).a.x == w * w + x * x - y * y - z * z
    ensures QuatMatrix(x, y, z, w).b.x == 2.0 * (x * y + z * w)
    ensures QuatMatrix(x, y, z, w).c
            == Vec(2.0 * (x * z - y * w), 2.0 * (y * z + x * w), w * w - x * x - y * y + z * z)
  {}

  lemma EntriesOfTurns(cr: real, sr: real, cp: real, sp: real, cy: real, sy: real, q: Quat, m: Rows)
    requires cr * cr + sr * sr == 1.0 && cp * cp + sp * sp == 1.0 && cy * cy + sy * sy == 1.0
    requires q == Turns(cr, sr, cp, sp, cy, sy) && m == QuatMatrix(q.x, q.y, q.z, q.w)
    ensures q == Closed(cr, sr, cp, sp, cy, sy)
    ensures m.a.x == q.w * q.w + q.x * q.x - q.y * q.y - q.z * q.z && m.b.x == 2.0 * (q.x * q.y + q.z * q.w)
    ensures m.c == Vec(2.0 * (q.x * q.z - q.y * q.w), 2.0 * (q.y * q.z + q.x * q.w),
                       q.w * q.w - q.x * q.x - q.y * q.y + q.z * q.z)
  {
    TurnsByComponents(cr, sr, cp, sp, cy, sy);
    NormOfTurns(cr, sr, cp, sp, cy, sy);
    TurnsAreUnit(cr, sr, cp, sp, cy, sy, NormSquared(Closed(cr, sr, cp, sp, cy, sy)));
    UnitEntries(q.x, q.y, q.z, q.w);
  }

  lemma EntriesSeen(cr: real, sr: real, cp: real, sp: real, cy: real, sy: real,
                    cosP: real, sinP: real, cosR: real, sinR: real, cosY: real, sinY: real, q: Quat)
    requires cr * cr + sr * sr == 1.0 && cy * cy + sy * sy == 1.0
    requires cosP == cp * cp - sp * sp && sinP == 2.0 * sp * cp
    requires cosR == cr * cr - sr * sr && sinR == 2.0 * sr * cr
    requires cosY == cy * cy - sy * sy && sinY == 2.0 * sy * cy
    requires q == Closed(cr, sr, cp, sp, cy, sy)
    ensures 2.0 * (q.y * q.z + q.x * q.w) == cosP * sinR && q.w * q.w - q.x * q.x - q.y * q.y + q.z * q.z == cosP * cosR
    ensures 2.0 * (q.x * q.y + q.z * q.w) == cosP * sinY && q.w * q.w + q.x * q.x - q.y * q.y - q.z * q.z == cosP * cosY
    ensures -(2.0 * (q.x * q.z - q.y * q.w)) == sinP
  {
    RollSine(cr, sr, cp, sp, cy, sy, cosP, sinR);
    RollCosine(cr, sr, cp, sp, cy, sy, cosP, cosR);
    YawSine(cr, sr, cp, sp, cy, sy, cosP, sinY);
    YawCosine(cr, sr, cp, sp, cy, sy, cosP, cosY);
    PitchSine(cr, sr, cp, sp, cy, sy, sinP);
  }

  lemma MatrixSeen(cr: real, sr: real, cp: real, sp: real, cy: real, sy: real,
                   cosP: real, sinP: real, cosR: real, sinR: real, cosY: real, sinY: real, q: Quat, m: Rows)
    requires cr * cr + sr * sr == 1.0 && cp * cp + sp * sp == 1.0 && cy * cy + sy * sy == 1.0
    requires cosP == cp * cp - sp * sp && sinP == 2.0 * sp * cp
    requires cosR == cr * cr - sr * sr && sinR == 2.0 * sr * cr
    requires cosY == cy * cy - sy * sy && sinY == 2.0 * sy * cy
    requires q == Turns(cr, sr, cp, sp, cy, sy) && m == QuatMatrix(q.x, q.y, q.z, q.w)
    ensures m.c.y == cosP * sinR && m.c.z == cosP * cosR && m.b.x == cosP * sinY && m.a.x == cosP * cosY
    ensures -m.c.x == sinP
  {
    EntriesOfTurns(cr, sr, cp, sp, cy, sy, q, m);
    EntriesSeen(cr, sr, cp, sp, cy, sy, cosP, sinP, cosR, sinR, cosY, sinY, q);
  }
}
