/** Euler angles of matrices and quaternions, and forward kinematics up to them. */
module EulerAngles {
  import opened Geometry
  import opened Kinematics
  import opened Messages
  import opened Quaternions

  /** Degrees in a radian. */
  const RADIAN := 180.0 / PI
  const RIGHT_ANGLE := 90.0
  const POLE := 0.0001

  /**
   * Trigonometry with the inverses the driver calls, of which only these identities are used. The usual functions
   * satisfy them when half a turn is measured as PI.
   */
  datatype Library = Library(trig: Trig, atan2: (real, real) -> real, sqrt: real -> real) {
    ghost predicate Sound() {
      && trig.Pythagorean() && (forall x :: HalfAngle(trig, x))
      && (forall v :: v >= 0.0 ==> sqrt(v) >= 0.0 && sqrt(v) * sqrt(v) == v)
      && (forall x :: trig.cos(-x) == trig.cos(x) && trig.sin(-x) == -trig.sin(x))
      && trig.cos(0.0) == 1.0 && trig.sin(0.0) == 0.0
      && trig.cos(RIGHT_ANGLE / RADIAN) == 0.0 && trig.sin(RIGHT_ANGLE / RADIAN) == 1.0
      && (forall y, x, h :: OnCircle(x, y, h) ==> h * trig.sin(atan2(y, x)) == y && h * trig.cos(atan2(y, x)) == x)
    }
  }

  /** The point (x, y) is at distance `h` from the origin. */
  predicate OnCircle(x: real, y: real, h: real) {
    h >= 0.0 && h * h == x * x + y * y
  }

  /** Roll, pitch and yaw. */
  datatype Angles = Angles(roll: real, pitch: real, yaw: real)

  /** The five entries that `quatToEuler` reads away from the poles are those of these angles. */
  ghost predicate Seen(trig: Trig, e: Angles, m: Rows) {
    && m.c.y == trig.cos(e.pitch) * trig.sin(e.roll) && m.c.z == trig.cos(e.pitch) * trig.cos(e.roll)
    && m.b.x == trig.cos(e.pitch) * trig.sin(e.yaw) && m.a.x == trig.cos(e.pitch) * trig.cos(e.yaw)
    && -m.c.x == trig.sin(e.pitch)
  }

  // ---------- The rotation three angles stand for ----------

  function AboutY(c: real, s: real): Rows {
    Rows(Vec(c, 0.0, s), Vec(0.0, 1.0, 0.0), Vec(-s, 0.0, c))
  }

  /** Turns about the fixed axes, x first. */
  function TurnRows(cr: real, sr: real, cp: real, sp: real, cy: real, sy: real): Rows {
    Product(AboutZ(cy, sy), Product(AboutY(cp, sp), AboutX(cr, sr)))
  }

  function TurnMatrix(trig: Trig, e: Angles): Rows {
    TurnRows(trig.cos(e.roll), trig.sin(e.roll), trig.cos(e.pitch), trig.sin(e.pitch), trig.cos(e.yaw), trig.sin(e.yaw))
  }

  lemma FirstTurns(cr: real, sr: real, cp: real, sp: real)
    ensures Product(AboutY(cp, sp), AboutX(cr, sr))
            == Rows(Vec(cp, sp * sr, sp * cr), Vec(0.0, cr, -sr), Vec(-sp, cp * sr, cp * cr))
  {}

  lemma TurnRowsByEntries(cr: real, sr: real, cp: real, sp: real, cy: real, sy: real)
    ensures TurnRows(cr, sr, cp, sp, cy, sy)
            == Rows(Vec(cy * cp, cy * (sp * sr) - sy * cr, cy * (sp * cr) + sy * sr),
                    Vec(sy * cp, sy * (sp * sr) + cy * cr, sy * (sp * cr) - cy * sr),
                    Vec(-sp, cp * sr, cp * cr))
  {
    FirstTurns(cr, sr, cp, sp);
    LastTurn(cy, sy, Rows(Vec(cp, sp * sr, sp * cr), Vec(0.0, cr, -sr), Vec(-sp, cp * sr, cp * cr)), -sr);
  }

  lemma LastTurn(c: real, s: real, m: Rows, n: real)
    requires m.b.x == 0.0 && m.b.z == n
    ensures Product(AboutZ(c, s), m)
            == Rows(Vec(c * m.a.x, c * m.a.y - s * m.b.y, c * m.a.z - s * n),
                    Vec(s * m.a.x, s * m.a.y + c * m.b.y, s * m.a.z + c * n), m.c)
  {}

  lemma AboutYIsRotation(c: real, s: real)
    requires c * c + s * s == 1.0
    ensures Rotation(AboutY(c, s))
  {}

  lemma TurnRowsAreRotation(cr: real, sr: real, cp: real, sp: real, cy: real, sy: real)
    requires cr * cr + sr * sr == 1.0 && cp * cp + sp * sp == 1.0 && cy * cy + sy * sy == 1.0
    ensures Rotation(TurnRows(cr, sr, cp, sp, cy, sy))
  {
    AxisRotations(cr, sr);
    AxisRotations(cy, sy);
    AboutYIsRotation(cp, sp);
    ComposeThree(AboutZ(cy, sy), AboutY(cp, sp), AboutX(cr, sr));
  }

  lemma ComposeThree(z: Rows, y: Rows, x: Rows)
    requires Rotation(z) && Rotation(y) && Rotation(x)
    ensures Rotation(Product(z, Product(y, x)))
  {
    ProductIsRotation(y, x);
    ProductIsRotation(z, Product(y, x));
  }

  lemma TurnMatrixIsRotation(trig: Trig, e: Angles)
    requires trig.Pythagorean()
    ensures Rotation(TurnMatrix(trig, e))
  {
    TurnRowsAreRotation(trig.cos(e.roll), trig.sin(e.roll), trig.cos(e.pitch), trig.sin(e.pitch),
                        trig.cos(e.yaw), trig.sin(e.yaw));
  }

  // ---------- Five entries determine a rotation away from the poles ----------

  lemma FirstColumnIsUnit(m: Rows)
    requires Rotation(m)
    ensures m.a.x * m.a.x + m.b.x * m.b.x + m.c.x * m.c.x == 1.0
  {
    var e := Vec(1.0, 0.0, 0.0);
    assert Apply(m, e) == Vec(m.a.x, m.b.x, m.c.x);
    RotationKeepsDot(m, e, e);
  }

  /** An unknown entry `t`, when the other unknown `u` is given in terms of it and the known ones. */
  lemma Eliminated(t: real, u: real, x: real, p: real, a: real, b: real, q: real, m: real, n: real, known: real)
    requires t == u * x - b * q && u == x * t - p * a
    requires m == 1.0 - x && n == 1.0 + x && known == -((x * p) * a) - b * q
    ensures (t * m) * n == known
  {
    assert u * x == (x * x) * t - (x * p) * a;
    assert (t * (1.0 - x)) * (1.0 + x) == t - (x * x) * t;
  }

  lemma Cancel(s: real, t: real, k: real)
    requires s * k == t * k && k != 0.0
    ensures s == t
  {
    assert (s - t) * k == 0.0;
  }

  lemma CancelFactor(s: real, t: real, k: real, r: real)
    requires k * s == r && k * t == r && k != 0.0
    ensures s == t
  {
    Cancel(s, t, k);
  }

  lemma CancelTwice(s: real, t: real, m: real, n: real, k: real)
    requires (s * m) * n == k && (t * m) * n == k && m != 0.0 && n != 0.0
    ensures s == t
  {
    Cancel(s * m, t * m, n);
    Cancel(s, t, m);
  }

  lemma SameEntry(t: real, u: real, t': real, u': real, x: real, p: real, a: real, b: real, q: real)
    requires t == u * x - b * q && u == x * t - p * a
    requires t' == u' * x - b * q && u' == x * t' - p * a
    requires x != 1.0 && x != -1.0
    ensures t == t' && u == u'
  {
    var m, n, known := 1.0 - x, 1.0 + x, -((x * p) * a) - b * q;
    Eliminated(t, u, x, p, a, b, q, m, n, known);
    Eliminated(t', u', x, p, a, b, q, m, n, known);
    CancelTwice(t, t', m, n, known);
  }

  lemma SameByCrossings(m: Rows, n: Rows, x: real)
    requires Cross(m.b, m.c) == m.a && Cross(m.c, m.a) == m.b && Cross(n.b, n.c) == n.a && Cross(n.c, n.a) == n.b
    requires m.c == n.c && m.a.x == n.a.x && m.b.x == n.b.x && m.c.x == x && x != 1.0 && x != -1.0
    ensures m == n
  {
    var c, a, b := m.c, m.a.x, m.b.x;
    SameEntry(m.a.y, m.b.z, n.a.y, n.b.z, x, c.y, a, b, c.z);
    SameEntry(m.a.z, -m.b.y, n.a.z, -n.b.y, x, c.z, a, -b, c.y);
  }

  /** Rotations with the same first column and last row are the same, unless these are on an axis. */
  lemma FiveEntriesDetermine(m: Rows, n: Rows)
    requires Rotation(m) && Rotation(n)
    requires m.c == n.c && m.a.x == n.a.x && m.b.x == n.b.x && m.c.x != 1.0 && m.c.x != -1.0
    ensures m == n
  {
    SameByCrossings(m, n, m.c.x);
  }

  /** Angles that reproduce the first column and the last row reproduce the rotation. */
  lemma AnglesDetermine(trig: Trig, e: Angles, m: Rows)
    requires trig.Pythagorean() && Rotation(m) && m.c.x != 1.0 && m.c.x != -1.0
    requires Seen(trig, e, m)
    ensures TurnMatrix(trig, e) == m
  {
    TurnMatrixIsRotation(trig, e);
    TurnRowsByEntries(trig.cos(e.roll), trig.sin(e.roll), trig.cos(e.pitch), trig.sin(e.pitch),
                      trig.cos(e.yaw), trig.sin(e.yaw));
    FiveEntriesDetermine(TurnMatrix(trig, e), m);
  }

  // ---------- Arctangents ----------

  lemma AngleOf(lib: Library, y: real, x: real, h: real)
    requires lib.Sound() && h >= 0.0 && h * h == x * x + y * y
    ensures h * lib.trig.sin(lib.atan2(y, x)) == y && h * lib.trig.cos(lib.atan2(y, x)) == x
  {
    assert OnCircle(x, y, h);
  }

  lemma SumTimesSquare(u: real, v: real, c: real, x: real, y: real, k: real)
    requires u * c == x && v * c == y && k == x * x + y * y
    ensures ((u * u + v * v) * c) * c == k
  {
    assert ((u * u + v * v) * c) * c == (u * c) * (u * c) + (v * c) * (v * c);
  }

  lemma QuotientSquares(y: real, x: real, c: real, u: real, v: real)
    requires c > 0.0 && c * c == x * x + y * y && u * c == x && v * c == y
    ensures 1.0 * 1.0 == u * u + v * v
  {
    SumTimesSquare(u, v, c, x, y, c * c);
    CancelTwice(u * u + v * v, 1.0, c, c, c * c);
  }

  /** Dividing both arguments by their distance from the origin leaves the sine and the cosine. */
  lemma ScaledAngle(lib: Library, y: real, x: real, c: real, angle: real)
    requires lib.Sound() && c > 0.0 && c * c == x * x + y * y && angle == lib.atan2(y / c, x / c)
    ensures c * lib.trig.sin(angle) == y && c * lib.trig.cos(angle) == x
  {
    var u, v := x / c, y / c;
    assert u * c == x && v * c == y;
    QuotientSquares(y, x, c, u, v);
    AngleOf(lib, v, u, 1.0);
  }

  lemma RootOfSquare(lib: Library, a: real, s: real)
    requires lib.Sound() && a >= 0.0 && s == a * a
    ensures lib.sqrt(s) == a
  {
    var r := lib.sqrt(s);
    assert s >= 0.0 && r >= 0.0 && r * r == s;
    if r < a {
      SquaresInOrder(r, a);
    } else if r > a {
      SquaresInOrder(a, r);
    }
  }

  /** The pitch is read from the first column: its cosine is the length of the column's first two entries. */
  lemma PitchOfColumn(lib: Library, a: real, b: real, x: real, v: real, c: real)
    requires lib.Sound() && v == a * a + b * b && v + x * x == 1.0 && c == lib.sqrt(v)
    ensures c >= 0.0 && c * c == v && lib.trig.cos(lib.atan2(-x, c)) == c && lib.trig.sin(lib.atan2(-x, c)) == -x
    ensures b == 0.0 && a >= 0.0 ==> c == a
  {
    assert a * a >= 0.0 && b * b >= 0.0;
    assert c >= 0.0 && c * c == v;
    assert (-x) * (-x) == x * x;
    AngleOf(lib, -x, c, 1.0);
    if b == 0.0 && a >= 0.0 {
      RootOfSquare(lib, a, v);
    }
  }

  // ---------- The matrix of an Euler quaternion, entry by entry ----------

  lemma FirstRowTerms(cr: real, sr: real, cp: real, sp: real, cy: real, sy: real)
    ensures var q := Closed(cr, sr, cp, sp, cy, sy);
            && 2.0 * (q.x * q.y - q.z * q.w)
               == ((cy * cy - sy * sy) * (2.0 * sp * cp)) * (2.0 * sr * cr)
                  - ((2.0 * sy * cy) * (cr * cr - sr * sr)) * (cp * cp + sp * sp)
            && 2.0 * (q.x * q.z + q.y * q.w)
               == ((cy * cy - sy * sy) * (2.0 * sp * cp)) * (cr * cr - sr * sr)
                  + ((2.0 * sy * cy) * (2.0 * sr * cr)) * (cp * cp + sp * sp)
  {}

  lemma SecondRowTerms(cr: real, sr: real, cp: real, sp: real, cy: real, sy: real)
    ensures var q := Closed(cr, sr, cp, sp, cy, sy);
            && q.w * q.w - q.x * q.x + q.y * q.y - q.z * q.z
               == ((2.0 * sy * cy) * (2.0 * sp * cp)) * (2.0 * sr * cr)
                  + ((cy * cy - sy * sy) * (cr * cr - sr * sr)) * (cp * cp + sp * sp)
            && 2.0 * (q.y * q.z - q.x * q.w)
               == ((2.0 * sy * cy) * (2.0 * sp * cp)) * (cr * cr - sr * sr)
                  - ((cy * cy - sy * sy) * (2.0 * sr * cr)) * (cp * cp + sp * sp)
  {}

  /** Two products, the second with a factor that is one. */
  lemma TwoProducts(a: real, b: real, c: real, u: real, v: real, one: real, x: real, y: real, z: real, g: real, h: real)
    requires one == 1.0 && x == a && y == b && z == c && g == u && h == v
    ensures (a * b) * c - (u * v) * one == x * (y * z) - g * h
    ensures (a * b) * c + (u * v) * one == x * (y * z) + g * h
  {
    assert (a * b) * c == x * (y * z);
  }

  lemma OtherEntries(cr: real, sr: real, cp: real, sp: real, cy: real, sy: real,
                     sinP: real, cosR: real, sinR: real, cosY: real, sinY: real, q: Quat)
    requires cp * cp + sp * sp == 1.0 && sinP == 2.0 * sp * cp
    requires cosR == cr * cr - sr * sr && sinR == 2.0 * sr * cr
    requires cosY == cy * cy - sy * sy && sinY == 2.0 * sy * cy
    requires q == Closed(cr, sr, cp, sp, cy, sy)
    ensures 2.0 * (q.x * q.y - q.z * q.w) == cosY * (sinP * sinR) - sinY * cosR
    ensures 2.0 * (q.x * q.z + q.y * q.w) == cosY * (sinP * cosR) + sinY * sinR
    ensures q.w * q.w - q.x * q.x + q.y * q.y - q.z * q.z == sinY * (sinP * sinR) + cosY * cosR
    ensures 2.0 * (q.y * q.z - q.x * q.w) == sinY * (sinP * cosR) - cosY * sinR
  {
    FirstRowTerms(cr, sr, cp, sp, cy, sy);
    SecondRowTerms(cr, sr, cp, sp, cy, sy);
    var one, p, c, s := cp * cp + sp * sp, 2.0 * sp * cp, cr * cr - sr * sr, 2.0 * sr * cr;
    var d, t := cy * cy - sy * sy, 2.0 * sy * cy;
    TwoProducts(d, p, s, t, c, one, cosY, sinP, sinR, sinY, cosR);
    TwoProducts(d, p, c, t, s, one, cosY, sinP, cosR, sinY, sinR);
    TwoProducts(t, p, s, d, c, one, sinY, sinP, sinR, cosY, cosR);
    TwoProducts(t, p, c, d, s, one, sinY, sinP, cosR, cosY, sinR);
  }

  lemma UnitDiagonal(x: real, y: real, z: real, w: real)
    requires x * x + y * y + z * z + w * w == 1.0
    ensures 1.0 - 2.0 * (x * x + z * z) == w * w - x * x + y * y - z * z
  {}

  lemma OtherEntriesOfMatrix(cr: real, sr: real, cp: real, sp: real, cy: real, sy: real,
                             sinP: real, cosR: real, sinR: real, cosY: real, sinY: real, q: Quat, m: Rows)
    requires cr * cr + sr * sr == 1.0 && cp * cp + sp * sp == 1.0 && cy * cy + sy * sy == 1.0
    requires sinP == 2.0 * sp * cp && cosR == cr * cr - sr * sr && sinR == 2.0 * sr * cr
    requires cosY == cy * cy - sy * sy && sinY == 2.0 * sy * cy
    requires q == Turns(cr, sr, cp, sp, cy, sy) && m == QuatMatrix(q.x, q.y, q.z, q.w)
    ensures m.a.y == cosY * (sinP * sinR) - sinY * cosR && m.a.z == cosY * (sinP * cosR) + sinY * sinR
    ensures m.b.y == sinY * (sinP * sinR) + cosY * cosR && m.b.z == sinY * (sinP * cosR) - cosY * sinR
  {
    TurnsByComponents(cr, sr, cp, sp, cy, sy);
    NormOfTurns(cr, sr, cp, sp, cy, sy);
    TurnsAreUnit(cr, sr, cp, sp, cy, sy, NormSquared(Closed(cr, sr, cp, sp, cy, sy)));
    UnitDiagonal(q.x, q.y, q.z, q.w);
    OtherEntries(cr, sr, cp, sp, cy, sy, sinP, cosR, sinR, cosY, sinY, q);
  }

  lemma SameEntries(m: Rows, cr: real, sr: real, cp: real, sp: real, cy: real, sy: real)
    requires m.a == Vec(cp * cy, cy * (sp * sr) - sy * cr, cy * (sp * cr) + sy * sr)
    requires m.b == Vec(cp * sy, sy * (sp * sr) + cy * cr, sy * (sp * cr) - cy * sr)
    requires m.c == Vec(-sp, cp * sr, cp * cr)
    ensures m == TurnRows(cr, sr, cp, sp, cy, sy)
  {
    TurnRowsByEntries(cr, sr, cp, sp, cy, sy);
  }

  function InOrder(axes: Axes, e: Angles): Angles {
    if axes == Rzyx then Angles(e.yaw, e.pitch, e.roll) else e
  }

  lemma QuatMatrixOfTurns(cr: real, sr: real, cp: real, sp: real, cy: real, sy: real,
                          cosR: real, sinR: real, cosP: real, sinP: real, cosY: real, sinY: real, q: Quat)
    requires cr * cr + sr * sr == 1.0 && cp * cp + sp * sp == 1.0 && cy * cy + sy * sy == 1.0
    requires cosR == cr * cr - sr * sr && sinR == 2.0 * sr * cr
    requires cosP == cp * cp - sp * sp && sinP == 2.0 * sp * cp
    requires cosY == cy * cy - sy * sy && sinY == 2.0 * sy * cy
    requires q == Turns(cr, sr, cp, sp, cy, sy)
    ensures QuatMatrix(q.x, q.y, q.z, q.w) == TurnRows(cosR, sinR, cosP, sinP, cosY, sinY)
  {
    var m := QuatMatrix(q.x, q.y, q.z, q.w);
    MatrixSeen(cr, sr, cp, sp, cy, sy, cosP, sinP, cosR, sinR, cosY, sinY, q, m);
    OtherEntriesOfMatrix(cr, sr, cp, sp, cy, sy, sinP, cosR, sinR, cosY, sinY, q, m);
    SameEntries(m, cosR, sinR, cosP, sinP, cosY, sinY);
  }

  lemma FixedMatrixIsTurns(trig: Trig, e: Angles, q: Quat)
    requires trig.Pythagorean() && HalfAngle(trig, e.roll) && HalfAngle(trig, e.pitch) && HalfAngle(trig, e.yaw)
    requires q == EulerQuat(trig, e.roll, e.pitch, e.yaw, Sxyz)
    ensures QuatMatrix(q.x, q.y, q.z, q.w) == TurnMatrix(trig, e)
  {
    QuatMatrixOfTurns(trig.cos(e.roll * 0.5), trig.sin(e.roll * 0.5), trig.cos(e.pitch * 0.5), trig.sin(e.pitch * 0.5),
                      trig.cos(e.yaw * 0.5), trig.sin(e.yaw * 0.5), trig.cos(e.roll), trig.sin(e.roll),
                      trig.cos(e.pitch), trig.sin(e.pitch), trig.cos(e.yaw), trig.sin(e.yaw), q);
  }

  /** The quaternion of three angles stands for their three turns, roll and yaw exchanged for rotating axes. */
  lemma EulerMatrixIsTurns(trig: Trig, e: Angles, axes: Axes)
    requires trig.Pythagorean() && HalfAngle(trig, e.roll) && HalfAngle(trig, e.pitch) && HalfAngle(trig, e.yaw)
    ensures var q := EulerQuat(trig, e.roll, e.pitch, e.yaw, axes);
            QuatMatrix(q.x, q.y, q.z, q.w) == TurnMatrix(trig, InOrder(axes, e))
  {
    var q := EulerQuat(trig, e.roll, e.pitch, e.yaw, axes);
    FixedMatrixIsTurns(trig, InOrder(axes, e), q);
  }

  // ---------- Reading a rotation matrix ----------

  /** The angles read where the code sees no pole, and where it does. */
  function RegularAngles(lib: Library, m: Rows, cy: real): Angles {
    Angles(lib.atan2(m.c.y, m.c.z), lib.atan2(-m.c.x, cy), lib.atan2(m.b.x, m.a.x))
  }

  function YawlessAngles(lib: Library, m: Rows, cy: real): Angles {
    Angles(lib.atan2(-m.b.z, m.b.y), lib.atan2(-m.c.x, cy), 0.0)
  }

  lemma SquareSplit(x: real, y: real, z: real, s: real)
    requires x * x + y * y + z * z == 1.0 && s * s == 1.0 - x * x
    ensures s * s == y * y + z * z
  {}

  lemma ProductPositive(a: real, b: real, s: real)
    requires a > 0.0 && b > 0.0 && s == a * b
    ensures s > 0.0
  {}

  lemma NotOnAxis(x: real, c: real, s: real)
    requires c > 0.0 && s == c * c && s == 1.0 - x * x
    ensures x != 1.0 && x != -1.0
  {
    ProductPositive(c, c, s);
  }

  lemma EntriesGiveAngles(lib: Library, a: real, b: real, x: real, y: real, z: real, v: real, c: real)
    requires lib.Sound() && v == a * a + b * b && v + x * x == 1.0 && x * x + y * y + z * z == 1.0
    requires c == lib.sqrt(v) && c > 0.0
    ensures lib.trig.cos(lib.atan2(-x, c)) == c && lib.trig.sin(lib.atan2(-x, c)) == -x && x != 1.0 && x != -1.0
    ensures c * lib.trig.sin(lib.atan2(y, z)) == y && c * lib.trig.cos(lib.atan2(y, z)) == z
    ensures c * lib.trig.sin(lib.atan2(b, a)) == b && c * lib.trig.cos(lib.atan2(b, a)) == a
  {
    PitchOfColumn(lib, a, b, x, v, c);
    SquareSplit(x, y, z, c);
    NotOnAxis(x, c, c * c);
    AngleOf(lib, y, z, c);
    AngleOf(lib, b, a, c);
  }

  lemma SeenByLength(trig: Trig, e: Angles, m: Rows, c: real)
    requires trig.cos(e.pitch) == c && trig.sin(e.pitch) == -m.c.x
    requires c * trig.sin(e.roll) == m.c.y && c * trig.cos(e.roll) == m.c.z
    requires c * trig.sin(e.yaw) == m.b.x && c * trig.cos(e.yaw) == m.a.x
    ensures Seen(trig, e, m)
  {}

  /** Away from the poles the angles read give back the first column and the last row. */
  lemma AnglesAreSeen(lib: Library, m: Rows, v: real, c: real, e: Angles)
    requires lib.Sound() && v == m.a.x * m.a.x + m.b.x * m.b.x && c == lib.sqrt(v) && c > 0.0
    requires v + m.c.x * m.c.x == 1.0 && m.c.x * m.c.x + m.c.y * m.c.y + m.c.z * m.c.z == 1.0
    requires e == RegularAngles(lib, m, c)
    ensures Seen(lib.trig, e, m) && m.c.x != 1.0 && m.c.x != -1.0
  {
    hide Seen, Library.Sound;
    EntriesGiveAngles(lib, m.a.x, m.b.x, m.c.x, m.c.y, m.c.z, v, c);
    SeenByLength(lib.trig, e, m, c);
  }

  /** With no first entry in the second row, the rest follows from that row and the first column. */
  lemma OnTheAxis(m: Rows)
    requires Rotation(m) && m.b.x == 0.0
    ensures m.b.y * m.b.y + m.b.z * m.b.z == 1.0
    ensures m.a.y == m.b.z * m.c.x && m.a.z == -(m.b.y * m.c.x)
    ensures m.c.y == -(m.a.x * m.b.z) && m.c.z == m.a.x * m.b.y
  {
    assert m.a == Cross(m.b, m.c) && m.c == Cross(m.a, m.b) && Dot(m.b, m.b) == 1.0;
  }

  /** With no yaw, roll and pitch from the second row and the last. */
  lemma YawlessTurns(trig: Trig, e: Angles, m: Rows)
    requires Rotation(m) && m.b.x == 0.0 && trig.cos(e.yaw) == 1.0 && trig.sin(e.yaw) == 0.0
    requires trig.cos(e.roll) == m.b.y && trig.sin(e.roll) == -m.b.z
    requires trig.cos(e.pitch) == m.a.x && trig.sin(e.pitch) == -m.c.x
    ensures TurnMatrix(trig, e) == m
  {
    OnTheAxis(m);
    TurnRowsByEntries(trig.cos(e.roll), trig.sin(e.roll), trig.cos(e.pitch), trig.sin(e.pitch), 1.0, 0.0);
  }

  lemma TurnsShowCosines(trig: Trig, e: Angles)
    ensures var m := TurnMatrix(trig, e);
            && m.a.x == trig.cos(e.yaw) * trig.cos(e.pitch) && m.b.x == trig.sin(e.yaw) * trig.cos(e.pitch)
            && m.c == Vec(-trig.sin(e.pitch),
                          trig.cos(e.pitch) * trig.sin(e.roll), trig.cos(e.pitch) * trig.cos(e.roll))
  {
    TurnRowsByEntries(trig.cos(e.roll), trig.sin(e.roll), trig.cos(e.pitch), trig.sin(e.pitch),
                      trig.cos(e.yaw), trig.sin(e.yaw));
  }

  lemma RollAtPole(lib: Library, m: Rows)
    requires lib.Sound() && Rotation(m) && m.b.x == 0.0
    ensures lib.trig.sin(lib.atan2(-m.b.z, m.b.y)) == -m.b.z && lib.trig.cos(lib.atan2(-m.b.z, m.b.y)) == m.b.y
  {
    OnTheAxis(m);
    UnitAngle(lib, -m.b.z, m.b.y);
  }

  lemma UnitAngle(lib: Library, y: real, x: real)
    requires lib.Sound() && x * x + y * y == 1.0
    ensures lib.trig.sin(lib.atan2(y, x)) == y && lib.trig.cos(lib.atan2(y, x)) == x
  {
    AngleOf(lib, y, x, 1.0);
  }

  /** The first two entries of the first column, squared. */
  function ColumnSquared(m: Rows): real {
    m.a.x * m.a.x + m.b.x * m.b.x
  }

  lemma UnitParts(m: Rows, v: real)
    requires Rotation(m) && v == ColumnSquared(m)
    ensures v + m.c.x * m.c.x == 1.0 && m.c.x * m.c.x + m.c.y * m.c.y + m.c.z * m.c.z == 1.0
  {
    FirstColumnIsUnit(m);
  }

  lemma RegularAnglesRecover(lib: Library, m: Rows, v: real, cy: real)
    requires lib.Sound() && Rotation(m) && v == ColumnSquared(m) && cy == lib.sqrt(v) && cy > 0.0
    ensures TurnMatrix(lib.trig, RegularAngles(lib, m, cy)) == m
  {
    hide Rotation, TurnMatrix;
    UnitParts(m, v);
    AnglesAreSeen(lib, m, v, cy, RegularAngles(lib, m, cy));
    AnglesDetermine(lib.trig, RegularAngles(lib, m, cy), m);
  }

  lemma YawlessRecovers(lib: Library, m: Rows, v: real, cy: real)
    requires lib.Sound() && Rotation(m) && v == ColumnSquared(m) && cy == lib.sqrt(v)
    ensures TurnMatrix(lib.trig, YawlessAngles(lib, m, cy)) == m <==> m.b.x == 0.0 && m.a.x >= 0.0
  {
    hide Rotation, TurnMatrix, Library.Sound;
    NoAngle(lib);
    var e := YawlessAngles(lib, m, cy);
    UnitParts(m, v);
    PitchOfColumn(lib, m.a.x, m.b.x, m.c.x, v, cy);
    TurnsShowCosines(lib.trig, e);
    if m.b.x == 0.0 && m.a.x >= 0.0 {
      RollAtPole(lib, m);
      YawlessTurns(lib.trig, e, m);
    }
  }

  /** What `quatToEuler` makes of its matrix, before the order of the axes is considered. */
  function ReadAngles(lib: Library, m: Rows): Angles {
    var cy := lib.sqrt(ColumnSquared(m));
    if cy > EPS then RegularAngles(lib, m, cy) else YawlessAngles(lib, m, cy)
  }

  /** The code takes the matrix to be at a pole, and it has a yaw. */
  predicate YawIsLost(lib: Library, m: Rows) {
    lib.sqrt(ColumnSquared(m)) <= EPS && !(m.b.x == 0.0 && m.a.x >= 0.0)
  }

  /** The angles read from a rotation stand for it exactly if no yaw is lost at a pole. */
  lemma ReadAnglesRecover(lib: Library, m: Rows)
    requires lib.Sound() && Rotation(m)
    ensures TurnMatrix(lib.trig, ReadAngles(lib, m)) == m <==> !YawIsLost(lib, m)
  {
    hide Rotation, TurnMatrix, ColumnSquared;
    var v := ColumnSquared(m);
    if lib.sqrt(v) > EPS {
      RegularAnglesRecover(lib, m, v, lib.sqrt(v));
    } else {
      YawlessRecovers(lib, m, v, lib.sqrt(v));
    }
  }

  // ---------- Matrix to Euler angles, in degrees ----------

  function Radians(e: Angles): Angles {
    Angles(e.roll / RADIAN, e.pitch / RADIAN, e.yaw / RADIAN)
  }

  function Degrees(e: Angles): Angles {
    Angles(e.roll * RADIAN, e.pitch * RADIAN, e.yaw * RADIAN)
  }

  lemma BackToRadians(e: Angles)
    ensures Radians(Degrees(e)) == e
  {}

  lemma ZeroColumn(a: real, b: real, x: real, v: real)
    requires (x == 1.0 || x == -1.0) && v + x * x == 1.0 && v == a * a + b * b
    ensures a == 0.0 && b == 0.0
  {
    assert x * x == 1.0;
    ZeroSquares(a, b);
  }

  lemma ZeroSquares(a: real, b: real)
    requires a * a + b * b == 0.0
    ensures a == 0.0 && b == 0.0
  {
    if a > 0.0 {
      ProductPositive(a, a, a * a);
    } else if a < 0.0 {
      ProductPositive(-a, -a, a * a);
    }
    if b > 0.0 {
      ProductPositive(b, b, b * b);
    } else if b < 0.0 {
      ProductPositive(-b, -b, b * b);
    }
  }

  lemma RoomForPitch(x: real, v: real, c: real)
    requires -1.0 < x < 1.0 && v + x * x == 1.0 && c >= 0.0 && c * c == v
    ensures c > 0.0
  {
    ProductPositive(1.0 - x, 1.0 + x, v);
  }

  function PitchIn(lib: Library, m: Rows): real {
    lib.atan2(-m.c.x, lib.sqrt(ColumnSquared(m)))
  }

  /** Strictly between the poles the pitch has a positive cosine, by which the code divides. */
  lemma PitchCosine(lib: Library, m: Rows, v: real)
    requires lib.Sound() && Rotation(m) && -1.0 < m.c.x < 1.0 && v == ColumnSquared(m)
    ensures lib.trig.cos(PitchIn(lib, m)) == lib.sqrt(v) > 0.0
  {
    hide Rotation;
    UnitParts(m, v);
    PitchOfColumn(lib, m.a.x, m.b.x, m.c.x, v, lib.sqrt(v));
    RoomForPitch(m.c.x, v, lib.sqrt(v));
  }

  /** The angles between the poles, by the cosine `c` of the pitch. */
  function BetweenPoles(lib: Library, m: Rows, c: real): Angles
    requires c != 0.0
  {
    Angles(lib.atan2(m.c.y / c, m.c.z / c), PitchIn(lib, m), lib.atan2(m.b.x / c, m.a.x / c))
  }

  /** The three cases of `matrixToEuler`: near either pole the pitch is a right angle and there is no yaw. */
  function MatrixEuler(lib: Library, m: Rows): Angles
    requires lib.Sound() && Rotation(m)
  {
    if m.c.x < -1.0 + POLE then Angles(lib.atan2(m.a.y, m.b.y) * RADIAN, RIGHT_ANGLE, 0.0)
    else if m.c.x > 1.0 - POLE then Angles(-lib.atan2(m.a.y, m.b.y) * RADIAN, -RIGHT_ANGLE, 0.0)
    else
      PitchCosine(lib, m, ColumnSquared(m));
      Degrees(BetweenPoles(lib, m, lib.trig.cos(PitchIn(lib, m))))
  }

  lemma ScaledEntriesGiveAngles(lib: Library, m: Rows, v: real, c: real, e: Angles)
    requires lib.Sound() && v == m.a.x * m.a.x + m.b.x * m.b.x && c == lib.sqrt(v) && c > 0.0
    requires v + m.c.x * m.c.x == 1.0 && m.c.x * m.c.x + m.c.y * m.c.y + m.c.z * m.c.z == 1.0
    requires e.roll == lib.atan2(m.c.y / c, m.c.z / c) && e.pitch == lib.atan2(-m.c.x, c)
    requires e.yaw == lib.atan2(m.b.x / c, m.a.x / c)
    ensures Seen(lib.trig, e, m)
  {
    hide Seen, Library.Sound;
    PitchOfColumn(lib, m.a.x, m.b.x, m.c.x, v, c);
    SquareSplit(m.c.x, m.c.y, m.c.z, c);
    ScaledAngle(lib, m.c.y, m.c.z, c, e.roll);
    ScaledAngle(lib, m.b.x, m.a.x, c, e.yaw);
    SeenByLength(lib.trig, e, m, c);
  }

  lemma BetweenPolesRecovers(lib: Library, m: Rows, v: real, c: real, e: Angles)
    requires lib.Sound() && Rotation(m) && -1.0 < m.c.x < 1.0 && v == ColumnSquared(m) && c == lib.sqrt(v) && c > 0.0
    requires e == BetweenPoles(lib, m, c)
    ensures TurnMatrix(lib.trig, e) == m
  {
    hide Rotation, TurnMatrix;
    UnitParts(m, v);
    ScaledEntriesGiveAngles(lib, m, v, c, e);
    AnglesDetermine(lib.trig, e, m);
  }

  lemma PoleColumn(m: Rows)
    requires Rotation(m) && (m.c.x == 1.0 || m.c.x == -1.0)
    ensures m.a.x == 0.0 && m.b.x == 0.0 && m.a.y == m.b.z * m.c.x && m.b.y * m.b.y + m.b.z * m.b.z == 1.0
    ensures m.b.y * m.b.y + m.a.y * m.a.y == 1.0
  {
    hide Rotation;
    UnitParts(m, ColumnSquared(m));
    ZeroColumn(m.a.x, m.b.x, m.c.x, ColumnSquared(m));
    OnTheAxis(m);
    assert m.a.y == m.b.z || m.a.y == -m.b.z;
  }

  /** The turn left at a pole: `s` is -1 at the pole where the pitch is +90 degrees, and 1 at the other. */
  lemma PoleRecovers(lib: Library, m: Rows, e: Angles, s: real)
    requires lib.Sound() && Rotation(m) && (s == 1.0 || s == -1.0) && e.yaw == 0.0
    requires e.roll == -s * lib.atan2(m.a.y, m.b.y) && e.pitch == -s * (RIGHT_ANGLE / RADIAN)
    ensures TurnMatrix(lib.trig, e) == m <==> m.c.x == s
  {
    hide Rotation, TurnMatrix;
    TurnsShowCosines(lib.trig, e);
    assert lib.trig.sin(e.pitch) == -s && lib.trig.cos(e.pitch) == 0.0;
    if m.c.x == s {
      PoleColumn(m);
      UnitAngle(lib, m.a.y, m.b.y);
      YawlessTurns(lib.trig, e, m);
    }
  }

  /** Taken to be at a pole without being there. */
  predicate PoleIsForced(m: Rows) {
    !(-1.0 + POLE <= m.c.x <= 1.0 - POLE) && m.c.x != 1.0 && m.c.x != -1.0
  }

  /** The angles of a rotation matrix stand for it exactly if it is not merely close to a pole. */
  lemma MatrixEulerRecovers(lib: Library, m: Rows)
    requires lib.Sound() && Rotation(m)
    ensures TurnMatrix(lib.trig, Radians(MatrixEuler(lib, m))) == m <==> !PoleIsForced(m)
  {
    hide Rotation, TurnMatrix, ColumnSquared, BetweenPoles, Library.Sound;
    var e := Radians(MatrixEuler(lib, m));
    if m.c.x < -1.0 + POLE {
      PoleRecovers(lib, m, e, -1.0);
    } else if m.c.x > 1.0 - POLE {
      PoleRecovers(lib, m, e, 1.0);
    } else {
      var v := ColumnSquared(m);
      var c := lib.sqrt(v);
      PitchCosine(lib, m, v);
      BackToRadians(BetweenPoles(lib, m, c));
      BetweenPolesRecovers(lib, m, v, c, e);
    }
  }

  method ReadBetweenPoles(lib: Library, m: Rows) returns (roll: real, pitch: real, yaw: real)
    requires lib.Sound() && Rotation(m) && -1.0 < m.c.x < 1.0
    ensures var c := lib.trig.cos(PitchIn(lib, m));
            c != 0.0 && Angles(roll, pitch, yaw) == Degrees(BetweenPoles(lib, m, c))
  {
    hide Rotation, Library.Sound;
    PitchCosine(lib, m, ColumnSquared(m));
    var p := lib.atan2(-m.c.x, lib.sqrt(ColumnSquared(m)));
    var c := lib.trig.cos(p);
    pitch := p * RADIAN;
    yaw := lib.atan2(m.b.x / c, m.a.x / c) * RADIAN;
    roll := lib.atan2(m.c.y / c, m.c.z / c) * RADIAN;
  }

  method ReadMatrix(lib: Library, m: Rows) returns (roll: real, pitch: real, yaw: real)
    requires lib.Sound() && Rotation(m)
    ensures Angles(roll, pitch, yaw) == MatrixEuler(lib, m)
  {
    hide Rotation, Library.Sound, BetweenPoles, Degrees;
    if m.c.x < -1.0 + POLE {
      pitch, yaw := RIGHT_ANGLE, 0.0;
      roll := lib.atan2(m.a.y, m.b.y) * RADIAN;
    } else if m.c.x > 1.0 - POLE {
      pitch, yaw := -RIGHT_ANGLE, 0.0;
      roll := -lib.atan2(m.a.y, m.b.y) * RADIAN;
    } else {
      roll, pitch, yaw := ReadBetweenPoles(lib, m);
    }
  }

  /** Position first, then roll, pitch and yaw in degrees. */
  method MatrixToEuler(lib: Library, t: Mat4) returns (pos: array<real>)
    requires lib.Sound() && Rigid(t)
    ensures fresh(pos) && pos.Length == 6 && Vec(pos[0], pos[1], pos[2]) == PositionOf(t)
    ensures Angles(pos[3], pos[4], pos[5]) == MatrixEuler(lib, RotationOf(t))
  {
    hide Rotation, Library.Sound, MatrixEuler;
    pos := new real[6](_ => 0.0);
    pos[0], pos[1], pos[2] := t[3], t[7], t[11];
    var roll, pitch, yaw := ReadMatrix(lib, RotationOf(t));
    pos[3], pos[4], pos[5] := roll, pitch, yaw;
  }

  // ---------- Quaternion to Euler angles ----------

  lemma NormIsNotNegative(q: Quat)
    ensures NormSquared(q) >= 0.0
  {
    assert q.x * q.x >= 0.0 && q.y * q.y >= 0.0 && q.z * q.z >= 0.0 && q.w * q.w >= 0.0;
  }

  /** Nothing for a quaternion too close to zero. */
  function Normalized(lib: Library, q: Quat): Option<Quat>
    requires lib.Sound()
  {
    NormIsNotNegative(q);
    NormalizeQuat(q, lib.sqrt(NormSquared(q)))
  }

  function MatrixOf(q: Quat): Rows {
    QuatMatrix(q.x, q.y, q.z, q.w)
  }

  function QuatOf(trig: Trig, e: Angles, axes: Axes): Quat {
    EulerQuat(trig, e.roll, e.pitch, e.yaw, axes)
  }

  function QuatEuler(lib: Library, q: Quat, axes: Axes): Option<Angles>
    requires lib.Sound()
  {
    var n := Normalized(lib, q);
    if n.None? then None else Some(InOrder(axes, ReadAngles(lib, MatrixOf(n.value))))
  }

  lemma MatrixOfAngles(lib: Library, e: Angles, axes: Axes)
    requires lib.Sound()
    ensures MatrixOf(QuatOf(lib.trig, e, axes)) == TurnMatrix(lib.trig, InOrder(axes, e))
  {
    hide TurnMatrix;
    EulerMatrixIsTurns(lib.trig, e, axes);
  }

  /** Reading the matrix of an Euler quaternion, the code sees the angles, in the order it gives them back in. */
  lemma ExtractionSeesTheAngles(lib: Library, e: Angles, axes: Axes)
    requires lib.Sound()
    ensures Seen(lib.trig, InOrder(axes, e), MatrixOf(QuatOf(lib.trig, e, axes)))
  {
    hide TurnMatrix, MatrixOf, QuatOf, Library.Sound;
    MatrixOfAngles(lib, e, axes);
    TurnsShowCosines(lib.trig, InOrder(axes, e));
  }

  lemma NormalizedIsRotation(lib: Library, q: Quat)
    requires lib.Sound() && Normalized(lib, q).Some?
    ensures Rotation(MatrixOf(Normalized(lib, q).value))
  {
    hide Rotation;
    NormIsNotNegative(q);
    NormalizedIsUnit(q, lib.sqrt(NormSquared(q)));
    var n := Normalized(lib, q).value;
    QuatMatrixIsRotation(n.x, n.y, n.z, n.w);
  }

  /** The angles of an accepted quaternion, turned back into one, give the same rotation exactly if no yaw is lost. */
  lemma QuatEulerRecovers(lib: Library, q: Quat, axes: Axes)
    requires lib.Sound() && QuatEuler(lib, q, axes).Some?
    ensures var m := MatrixOf(Normalized(lib, q).value);
            MatrixOf(QuatOf(lib.trig, QuatEuler(lib, q, axes).value, axes)) == m <==> !YawIsLost(lib, m)
  {
    hide Rotation, TurnMatrix, MatrixOf, QuatOf, Normalized, NormalizeQuat, ReadAngles, YawIsLost, Library.Sound;
    var m := MatrixOf(Normalized(lib, q).value);
    NormalizedIsRotation(lib, q);
    ReadAnglesRecover(lib, m);
    MatrixOfAngles(lib, QuatEuler(lib, q, axes).value, axes);
  }

  /** Angles between which no sine or cosine can tell. */
  ghost predicate SameAngles(trig: Trig, e: Angles, f: Angles) {
    && trig.cos(e.roll) == trig.cos(f.roll) && trig.sin(e.roll) == trig.sin(f.roll)
    && trig.cos(e.pitch) == trig.cos(f.pitch) && trig.sin(e.pitch) == trig.sin(f.pitch)
    && trig.cos(e.yaw) == trig.cos(f.yaw) && trig.sin(e.yaw) == trig.sin(f.yaw)
  }

  /** The pitch is in the half turn that is read, and a yaw is there only away from the poles. */
  predicate Readable(trig: Trig, e: Angles) {
    trig.cos(e.pitch) > EPS || (trig.cos(e.pitch) >= 0.0 && trig.cos(e.yaw) == 1.0)
  }

  lemma ScaledUnit(s: real, c: real, k: real, a: real, b: real, v: real)
    requires s * s + c * c == 1.0 && a == c * k && b == s * k && v == a * a + b * b
    ensures v == k * k
  {
    assert a * a + b * b == (s * s + c * c) * (k * k);
  }

  lemma UnitCircle(lib: Library, x: real)
    requires lib.Sound()
    ensures lib.trig.sin(x) * lib.trig.sin(x) + lib.trig.cos(x) * lib.trig.cos(x) == 1.0
  {
    assert lib.trig.Pythagorean();
  }

  /** The column of three turns is as long as the cosine of the pitch. */
  lemma ColumnOfTurns(lib: Library, e: Angles, v: real)
    requires lib.Sound() && v == ColumnSquared(TurnMatrix(lib.trig, e))
    ensures v == lib.trig.cos(e.pitch) * lib.trig.cos(e.pitch)
    ensures lib.trig.cos(e.pitch) >= 0.0 ==> lib.sqrt(v) == lib.trig.cos(e.pitch)
  {
    hide TurnMatrix, Library.Sound;
    var m, k := TurnMatrix(lib.trig, e), lib.trig.cos(e.pitch);
    TurnsShowCosines(lib.trig, e);
    UnitCircle(lib, e.yaw);
    ScaledUnit(lib.trig.sin(e.yaw), lib.trig.cos(e.yaw), k, m.a.x, m.b.x, v);
    if k >= 0.0 {
      RootOfSquare(lib, k, v);
    }
  }

  /** Scaling a point on the unit circle does not change its angle. */
  lemma SameDirection(lib: Library, s: real, c: real, k: real, y: real, x: real)
    requires lib.Sound() && s * s + c * c == 1.0 && k > 0.0 && y == k * s && x == k * c
    ensures lib.trig.sin(lib.atan2(y, x)) == s && lib.trig.cos(lib.atan2(y, x)) == c
  {
    assert x * x + y * y == (s * s + c * c) * (k * k);
    AngleOf(lib, y, x, k);
    CancelFactor(lib.trig.sin(lib.atan2(y, x)), s, k, y);
    CancelFactor(lib.trig.cos(lib.atan2(y, x)), c, k, x);
  }

  lemma PitchOfTurns(lib: Library, e: Angles, v: real)
    requires lib.Sound() && v == ColumnSquared(TurnMatrix(lib.trig, e))
    ensures var f := ReadAngles(lib, TurnMatrix(lib.trig, e));
            && lib.sqrt(v) >= 0.0 && lib.trig.cos(f.pitch) == lib.sqrt(v)
            && lib.trig.sin(f.pitch) == lib.trig.sin(e.pitch)
  {
    hide TurnMatrix, Rotation;
    var m := TurnMatrix(lib.trig, e);
    TurnMatrixIsRotation(lib.trig, e);
    TurnsShowCosines(lib.trig, e);
    UnitParts(m, v);
    PitchOfColumn(lib, m.a.x, m.b.x, m.c.x, v, lib.sqrt(v));
  }

  lemma RegularTurnsReadBack(lib: Library, e: Angles, k: real)
    requires lib.Sound() && k == lib.trig.cos(e.pitch) && k > EPS
    ensures var f := RegularAngles(lib, TurnMatrix(lib.trig, e), k);
            && lib.trig.cos(e.roll) == lib.trig.cos(f.roll) && lib.trig.sin(e.roll) == lib.trig.sin(f.roll)
            && lib.trig.cos(e.yaw) == lib.trig.cos(f.yaw) && lib.trig.sin(e.yaw) == lib.trig.sin(f.yaw)
  {
    hide TurnMatrix, Library.Sound;
    var m := TurnMatrix(lib.trig, e);
    TurnsShowCosines(lib.trig, e);
    UnitCircle(lib, e.roll);
    UnitCircle(lib, e.yaw);
    SameDirection(lib, lib.trig.sin(e.roll), lib.trig.cos(e.roll), k, m.c.y, m.c.z);
    SameDirection(lib, lib.trig.sin(e.yaw), lib.trig.cos(e.yaw), k, m.b.x, m.a.x);
  }

  lemma YawlessTurnsReadBack(lib: Library, e: Angles)
    requires lib.Sound() && lib.trig.cos(e.yaw) == 1.0
    ensures var f := YawlessAngles(lib, TurnMatrix(lib.trig, e), lib.trig.cos(e.pitch));
            && lib.trig.cos(e.roll) == lib.trig.cos(f.roll) && lib.trig.sin(e.roll) == lib.trig.sin(f.roll)
            && lib.trig.cos(e.yaw) == lib.trig.cos(f.yaw) && lib.trig.sin(e.yaw) == lib.trig.sin(f.yaw)
  {
    hide TurnMatrix, Library.Sound;
    UnitCircle(lib, e.roll);
    NoSine(lib, e.yaw);
    NoAngle(lib);
    SecondRowOfTurns(lib.trig, e);
    UnitAngle(lib, lib.trig.sin(e.roll), lib.trig.cos(e.roll));
  }

  lemma NoAngle(lib: Library)
    requires lib.Sound()
    ensures lib.trig.cos(0.0) == 1.0 && lib.trig.sin(0.0) == 0.0
  {}

  lemma NoSine(lib: Library, x: real)
    requires lib.Sound() && lib.trig.cos(x) == 1.0
    ensures lib.trig.sin(x) == 0.0
  {
    hide Library.Sound;
    UnitCircle(lib, x);
    ZeroSquares(lib.trig.sin(x), 0.0);
  }

  lemma SecondRowOfTurns(trig: Trig, e: Angles)
    requires trig.sin(e.yaw) == 0.0 && trig.cos(e.yaw) == 1.0
    ensures TurnMatrix(trig, e).b == Vec(0.0, trig.cos(e.roll), -trig.sin(e.roll))
  {
    TurnRowsByEntries(trig.cos(e.roll), trig.sin(e.roll), trig.cos(e.pitch), trig.sin(e.pitch), 1.0, 0.0);
  }

  /** Reading the matrix of three turns gives the same angles back exactly if they are readable. */
  lemma ReadTurns(lib: Library, e: Angles)
    requires lib.Sound()
    ensures SameAngles(lib.trig, e, ReadAngles(lib, TurnMatrix(lib.trig, e))) <==> Readable(lib.trig, e)
  {
    hide TurnMatrix, ColumnSquared;
    var v := ColumnSquared(TurnMatrix(lib.trig, e));
    PitchOfTurns(lib, e, v);
    if lib.trig.cos(e.pitch) >= 0.0 {
      ColumnOfTurns(lib, e, v);
      if lib.sqrt(v) > EPS {
        RegularTurnsReadBack(lib, e, lib.sqrt(v));
      } else if lib.trig.cos(e.yaw) == 1.0 {
        YawlessTurnsReadBack(lib, e);
      }
    }
  }

  lemma TurnsQuatIsUnit(lib: Library, e: Angles, axes: Axes)
    requires lib.Sound()
    ensures Normalized(lib, QuatOf(lib.trig, e, axes)) == Some(QuatOf(lib.trig, e, axes))
  {
    hide NormalizeQuat, NormSquared;
    var q := QuatOf(lib.trig, e, axes);
    NormIsNotNegative(q);
    EulerQuatIsUnit(lib.trig, e.roll, e.pitch, e.yaw, axes);
    UnitIsUnchanged(q, lib.sqrt(NormSquared(q)));
  }

  /**
   * The round trip of three angles through a quaternion: it is never refused, and comes back to the same angles, up
   * to full turns, exactly if the pitch is in the half turn that is read and away from its ends, or the turn that is
   * made last by fixed axes is none.
   */
  lemma EulerRoundTrip(lib: Library, e: Angles, axes: Axes)
    requires lib.Sound()
    ensures var back := QuatEuler(lib, QuatOf(lib.trig, e, axes), axes);
            back.Some? && (SameAngles(lib.trig, e, back.value) <==> Readable(lib.trig, InOrder(axes, e)))
  {
    hide TurnMatrix, ReadAngles, QuatOf, Library.Sound, Readable;
    TurnsQuatIsUnit(lib, e, axes);
    MatrixOfAngles(lib, e, axes);
    ReadTurns(lib, InOrder(axes, e));
  }

  // ---------- Forward kinematics ----------

  datatype Pose = Pose(position: Vec, angles: Angles)

  function PoseOf(lib: Library, t: Mat4): Pose
    requires lib.Sound() && Rigid(t)
  {
    Pose(PositionOf(t), MatrixEuler(lib, RotationOf(t)))
  }

  method ReadPose(lib: Library, t: Mat4) returns (pose: Pose)
    requires lib.Sound() && Rigid(t)
    ensures pose == PoseOf(lib, t)
  {
    hide Rigid, MatrixEuler, Library.Sound;
    var pos := MatrixToEuler(lib, t);
    pose := Pose(Vec(pos[0], pos[1], pos[2]), Angles(pos[3], pos[4], pos[5]));
  }

  /** The poses of the six links in the base frame. */
  method CalcFK(lib: Library, arm: Arm, joints: JointVec) returns (poses: seq<Pose>)
    requires lib.Sound()
    ensures |poses| == 6
    ensures forall i :: 0 <= i < 6 ==>
              var t := LinkInBase(lib.trig, arm, joints, i); Rigid(t) && poses[i] == PoseOf(lib, t)
  {
    hide Rigid, PoseOf, Library.Sound, Links, Chain;
    var ts := CumulativeTransforms(lib.trig, arm, joints);
    poses := [];
    for i := 0 to 6
      invariant |poses| == i
      invariant forall k :: 0 <= k < i ==>
                  var t := LinkInBase(lib.trig, arm, joints, k); Rigid(t) && poses[k] == PoseOf(lib, t)
    {
      LinkInBaseIsRigid(lib, arm, joints, i);
      var pose := ReadPose(lib, ts[i]);
      poses := poses + [pose];
    }
  }

  lemma LinkInBaseIsRigid(lib: Library, arm: Arm, joints: JointVec, i: nat)
    requires lib.Sound() && i < 6
    ensures Rigid(LinkInBase(lib.trig, arm, joints, i))
  {
    hide Rotation;
    PosesAreRigid(lib.trig, arm, joints, i);
  }

  /**
   * What is reported for a link determines where it is, for every joint vector: the reported angles make the link's
   * rotation again, by their turns and by their quaternion, exactly if the link is not merely close to a pole.
   */
  lemma PosesDetermineLinks(lib: Library, arm: Arm, joints: JointVec, i: nat)
    requires lib.Sound() && i < 6
    ensures var t := LinkInBase(lib.trig, arm, joints, i);
            && Rigid(t)
            && var pose := PoseOf(lib, t);
               && t == Transform(RotationOf(t), pose.position)
               && (TurnMatrix(lib.trig, Radians(pose.angles)) == RotationOf(t) <==> !PoleIsForced(RotationOf(t)))
               && MatrixOf(QuatOf(lib.trig, Radians(pose.angles), Sxyz)) == TurnMatrix(lib.trig, Radians(pose.angles))
  {
    hide Rotation, MatrixEuler, TurnMatrix, Library.Sound, QuatOf, MatrixOf;
    LinkInBaseIsRigid(lib, arm, joints, i);
    var t := LinkInBase(lib.trig, arm, joints, i);
    TransformIsDetermined(t);
    MatrixEulerRecovers(lib, RotationOf(t));
    MatrixOfAngles(lib, Radians(PoseOf(lib, t).angles), Sxyz);
  }
}
