/** Vectors and rotation matrices over exact reals. */
module Geometry {

  datatype Vec = Vec(x: real, y: real, z: real)

  function Dot(u: Vec, v: Vec): real {
    u.x * v.x + u.y * v.y + u.z * v.z
  }

  function Cross(u: Vec, v: Vec): Vec {
    Vec(u.y * v.z - u.z * v.y, u.z * v.x - u.x * v.z, u.x * v.y - u.y * v.x)
  }

  function Plus(u: Vec, v: Vec): Vec {
    Vec(u.x + v.x, u.y + v.y, u.z + v.z)
  }

  function Minus(u: Vec, v: Vec): Vec {
    Vec(u.x - v.x, u.y - v.y, u.z - v.z)
  }

  /** The axes pick out coordinates. */
  lemma DotAxis(u: Vec, v: Vec)
    ensures v == Vec(1.0, 0.0, 0.0) ==> Dot(u, v) == u.x
    ensures v == Vec(0.0, 1.0, 0.0) ==> Dot(u, v) == u.y
    ensures v == Vec(0.0, 0.0, 1.0) ==> Dot(u, v) == u.z
  {}

  /** A 3x3 matrix by rows. */
  datatype Rows = Rows(a: Vec, b: Vec, c: Vec)

  /** The row vector `u` times the matrix. */
  function Combine(u: Vec, m: Rows): Vec {
    Vec(u.x * m.a.x + u.y * m.b.x + u.z * m.c.x,
        u.x * m.a.y + u.y * m.b.y + u.z * m.c.y,
        u.x * m.a.z + u.y * m.b.z + u.z * m.c.z)
  }

  function Product(m: Rows, n: Rows): Rows {
    Rows(Combine(m.a, n), Combine(m.b, n), Combine(m.c, n))
  }

  /** The matrix times the column vector `v`. */
  function Apply(m: Rows, v: Vec): Vec {
    Vec(Dot(m.a, v), Dot(m.b, v), Dot(m.c, v))
  }

  function Transposed(m: Rows): Rows {
    Rows(Vec(m.a.x, m.b.x, m.c.x), Vec(m.a.y, m.b.y, m.c.y), Vec(m.a.z, m.b.z, m.c.z))
  }

  /** Rows of unit length, at right angles, and right-handed: a rotation, never a mirror image. */
  predicate Rotation(m: Rows) {
    && Dot(m.a, m.a) == 1.0 && Dot(m.b, m.b) == 1.0 && Dot(m.c, m.c) == 1.0
    && Dot(m.a, m.b) == 0.0 && Dot(m.b, m.c) == 0.0 && Dot(m.c, m.a) == 0.0
    && Cross(m.a, m.b) == m.c && Cross(m.b, m.c) == m.a && Cross(m.c, m.a) == m.b
  }

  // ---------- Inner products ----------

  lemma DotSymmetric(u: Vec, v: Vec)
    ensures Dot(u, v) == Dot(v, u)
  {}

  lemma Distribute(x: real, y: real, z: real, a: Vec, b: Vec, c: Vec, w: Vec)
    ensures (x * a.x + y * b.x + z * c.x) * w.x + (x * a.y + y * b.y + z * c.y) * w.y
            + (x * a.z + y * b.z + z * c.z) * w.z
            == x * (a.x * w.x + a.y * w.y + a.z * w.z) + y * (b.x * w.x + b.y * w.y + b.z * w.z)
               + z * (c.x * w.x + c.y * w.y + c.z * w.z)
  {}

  lemma DistributeAs(u: Vec, m: Rows, w: Vec, s: Vec, d: Vec)
    requires s.x == u.x * m.a.x + u.y * m.b.x + u.z * m.c.x
    requires s.y == u.x * m.a.y + u.y * m.b.y + u.z * m.c.y
    requires s.z == u.x * m.a.z + u.y * m.b.z + u.z * m.c.z
    requires d.x == m.a.x * w.x + m.a.y * w.y + m.a.z * w.z
    requires d.y == m.b.x * w.x + m.b.y * w.y + m.b.z * w.z
    requires d.z == m.c.x * w.x + m.c.y * w.y + m.c.z * w.z
    ensures s.x * w.x + s.y * w.y + s.z * w.z == u.x * d.x + u.y * d.y + u.z * d.z
  {
    Distribute(u.x, u.y, u.z, m.a, m.b, m.c, w);
  }

  /** (uM) . w == u . (Mw) */
  lemma DotCombine(u: Vec, m: Rows, w: Vec, d: Vec)
    requires d == Apply(m, w)
    ensures Dot(Combine(u, m), w) == Dot(u, d)
  {
    DistributeAs(u, m, w, Combine(u, m), d);
  }

  /** The rows, seen as columns, undo the combination: the transpose is the inverse. */
  lemma ApplyCombine(v: Vec, m: Rows)
    requires Rotation(m)
    ensures Apply(m, Combine(v, m)) == v
  {
    DotCombine(v, m, m.a, Vec(1.0, 0.0, 0.0));
    DotCombine(v, m, m.b, Vec(0.0, 1.0, 0.0));
    DotCombine(v, m, m.c, Vec(0.0, 0.0, 1.0));
    DotSymmetric(m.a, Combine(v, m));
    DotSymmetric(m.b, Combine(v, m));
    DotSymmetric(m.c, Combine(v, m));
  }

  /** Combining the rows of a rotation keeps inner products. */
  lemma CombineKeepsDot(u: Vec, v: Vec, m: Rows)
    requires Rotation(m)
    ensures Dot(Combine(u, m), Combine(v, m)) == Dot(u, v)
  {
    ApplyCombine(v, m);
    DotCombine(u, m, Combine(v, m), v);
  }

  // ---------- Products of three ----------

  function FirstColumn(m: Rows): Vec {
    Vec(m.a.x, m.b.x, m.c.x)
  }

  lemma CombineShows(u: Vec, m: Rows)
    ensures Combine(u, m).x == Dot(u, FirstColumn(m))
    ensures Combine(u, m).y == Dot(u, FirstColumn(Turned(m)))
    ensures Combine(u, m).z == Dot(u, FirstColumn(Turned(Turned(m))))
  {}

  /** The columns in cyclic order. */
  function Turned(m: Rows): Rows {
    Rows(Shift(m.a), Shift(m.b), Shift(m.c))
  }

  lemma CombineAssociatesInX(u: Vec, m: Rows, n: Rows)
    ensures Combine(Combine(u, m), n).x == Combine(u, Product(m, n)).x
  {
    var column := FirstColumn(n);
    CombineShows(Combine(u, m), n);
    DotCombine(u, m, column, Apply(m, column));
    CombineShows(m.a, n);
    CombineShows(m.b, n);
    CombineShows(m.c, n);
  }

  lemma TurnedCombine(u: Vec, m: Rows)
    ensures Combine(u, Turned(m)) == Shift(Combine(u, m))
  {}

  lemma TurnedProduct(m: Rows, n: Rows)
    ensures Product(m, Turned(n)) == Turned(Product(m, n))
  {
    TurnedCombine(m.a, n);
    TurnedCombine(m.b, n);
    TurnedCombine(m.c, n);
  }

  lemma CombineAssociates(u: Vec, m: Rows, n: Rows)
    ensures Combine(Combine(u, m), n) == Combine(u, Product(m, n))
  {
    hide Combine, Product;
    var n1, p, w := Turned(n), Product(m, n), Combine(u, m);
    CombineAssociatesInX(u, m, n);
    CombineAssociatesInX(u, m, n1);
    CombineAssociatesInX(u, m, Turned(n1));
    TurnedCombine(w, n);
    TurnedCombine(w, n1);
    TurnedProduct(m, n);
    TurnedProduct(m, n1);
    TurnedCombine(u, p);
    TurnedCombine(u, Turned(p));
  }

  lemma ProductAssociates(m: Rows, n: Rows, k: Rows)
    ensures Product(Product(m, n), k) == Product(m, Product(n, k))
  {
    CombineAssociates(m.a, n, k);
    CombineAssociates(m.b, n, k);
    CombineAssociates(m.c, n, k);
  }

  lemma ApplyProduct(m: Rows, n: Rows, v: Vec)
    ensures Apply(Product(m, n), v) == Apply(m, Apply(n, v))
  {
    DotCombine(m.a, n, v, Apply(n, v));
    DotCombine(m.b, n, v, Apply(n, v));
    DotCombine(m.c, n, v, Apply(n, v));
  }

  lemma ApplyPlus(m: Rows, u: Vec, v: Vec)
    ensures Apply(m, Plus(u, v)) == Plus(Apply(m, u), Apply(m, v))
  {}

  // ---------- Cross products ----------

  /** One component of (uM) x (vM) == (u x v) cof(M). */
  lemma Cofactors(x: real, y: real, z: real, p: real, q: real, r: real,
                  a2: real, b2: real, c2: real, a3: real, b3: real, c3: real)
    ensures (x * a2 + y * b2 + z * c2) * (p * a3 + q * b3 + r * c3)
            - (x * a3 + y * b3 + z * c3) * (p * a2 + q * b2 + r * c2)
            == (y * r - z * q) * (b2 * c3 - b3 * c2) + (z * p - x * r) * (c2 * a3 - c3 * a2)
               + (x * q - y * p) * (a2 * b3 - a3 * b2)
  {}

  lemma CofactorsAs(u: Vec, v: Vec, w: Vec, a2: real, b2: real, c2: real, a3: real, b3: real, c3: real,
                    u2: real, u3: real, v2: real, v3: real, d: real, e: real, f: real)
    requires u2 == u.x * a2 + u.y * b2 + u.z * c2 && u3 == u.x * a3 + u.y * b3 + u.z * c3
    requires v2 == v.x * a2 + v.y * b2 + v.z * c2 && v3 == v.x * a3 + v.y * b3 + v.z * c3
    requires w.x == u.y * v.z - u.z * v.y && w.y == u.z * v.x - u.x * v.z && w.z == u.x * v.y - u.y * v.x
    requires d == b2 * c3 - b3 * c2 && e == c2 * a3 - c3 * a2 && f == a2 * b3 - a3 * b2
    ensures u2 * v3 - u3 * v2 == w.x * d + w.y * e + w.z * f
  {
    Cofactors(u.x, u.y, u.z, v.x, v.y, v.z, a2, b2, c2, a3, b3, c3);
  }

  function Cofactor(m: Rows): Rows {
    Rows(Cross(m.b, m.c), Cross(m.c, m.a), Cross(m.a, m.b))
  }

  lemma CrossCombineX(u: Vec, v: Vec, m: Rows, n: Rows)
    requires n == Cofactor(m)
    ensures Cross(Combine(u, m), Combine(v, m)).x == Combine(Cross(u, v), n).x
  {
    var s, t := Combine(u, m), Combine(v, m);
    CofactorsAs(u, v, Cross(u, v), m.a.y, m.b.y, m.c.y, m.a.z, m.b.z, m.c.z, s.y, s.z, t.y, t.z,
                n.a.x, n.b.x, n.c.x);
  }

  lemma CrossCombineY(u: Vec, v: Vec, m: Rows, n: Rows)
    requires n == Cofactor(m)
    ensures Cross(Combine(u, m), Combine(v, m)).y == Combine(Cross(u, v), n).y
  {
    var s, t := Combine(u, m), Combine(v, m);
    CofactorsAs(u, v, Cross(u, v), m.a.z, m.b.z, m.c.z, m.a.x, m.b.x, m.c.x, s.z, s.x, t.z, t.x,
                n.a.y, n.b.y, n.c.y);
  }

  lemma CrossCombineZ(u: Vec, v: Vec, m: Rows, n: Rows)
    requires n == Cofactor(m)
    ensures Cross(Combine(u, m), Combine(v, m)).z == Combine(Cross(u, v), n).z
  {
    var s, t := Combine(u, m), Combine(v, m);
    CofactorsAs(u, v, Cross(u, v), m.a.x, m.b.x, m.c.x, m.a.y, m.b.y, m.c.y, s.x, s.y, t.x, t.y,
                n.a.z, n.b.z, n.c.z);
  }

  /** Combining the rows of a rotation keeps cross products, so it keeps handedness. */
  lemma CombineKeepsCross(u: Vec, v: Vec, m: Rows)
    requires Rotation(m)
    ensures Cross(Combine(u, m), Combine(v, m)) == Combine(Cross(u, v), m)
  {
    CrossCombineX(u, v, m, m);
    CrossCombineY(u, v, m, m);
    CrossCombineZ(u, v, m, m);
  }

  /** Rotations compose. */
  lemma ProductIsRotation(m: Rows, n: Rows)
    requires Rotation(m) && Rotation(n)
    ensures Rotation(Product(m, n))
  {
    CombineKeepsDot(m.a, m.a, n);
    CombineKeepsDot(m.b, m.b, n);
    CombineKeepsDot(m.c, m.c, n);
    CombineKeepsDot(m.a, m.b, n);
    CombineKeepsDot(m.b, m.c, n);
    CombineKeepsDot(m.c, m.a, n);
    CombineKeepsCross(m.a, m.b, n);
    CombineKeepsCross(m.b, m.c, n);
    CombineKeepsCross(m.c, m.a, n);
  }

  // ---------- Distances ----------

  /** One component of v det(M) == (Mv) cof(M). */
  lemma Cramer(v: Vec, a: Vec, b: Vec, c: Vec)
    ensures v.x * (a.x * (b.y * c.z - b.z * c.y) + a.y * (b.z * c.x - b.x * c.z) + a.z * (b.x * c.y - b.y * c.x))
            == (a.x * v.x + a.y * v.y + a.z * v.z) * (b.y * c.z - b.z * c.y)
               + (b.x * v.x + b.y * v.y + b.z * v.z) * (c.y * a.z - c.z * a.y)
               + (c.x * v.x + c.y * v.y + c.z * v.z) * (a.y * b.z - a.z * b.y)
  {}

  lemma CramerAs(v: Vec, a: Vec, b: Vec, c: Vec, d: Vec, p: real, q: real, r: real, det: real)
    requires d.x == a.x * v.x + a.y * v.y + a.z * v.z
    requires d.y == b.x * v.x + b.y * v.y + b.z * v.z
    requires d.z == c.x * v.x + c.y * v.y + c.z * v.z
    requires p == b.y * c.z - b.z * c.y && q == c.y * a.z - c.z * a.y && r == a.y * b.z - a.z * b.y
    requires det == a.x * p + a.y * (b.z * c.x - b.x * c.z) + a.z * (b.x * c.y - b.y * c.x) && det == 1.0
    ensures v.x == d.x * p + d.y * q + d.z * r
  {
    Cramer(v, a, b, c);
  }

  /** The cyclic shift of coordinates, which turns one component's identity into the next one's. */
  function Shift(v: Vec): Vec {
    Vec(v.y, v.z, v.x)
  }

  lemma RestoreX(v: Vec, a: Vec, b: Vec, c: Vec, d: Vec)
    requires Cross(a, b) == c && Cross(b, c) == a && Cross(c, a) == b && Dot(a, a) == 1.0
    requires d == Vec(Dot(a, v), Dot(b, v), Dot(c, v))
    ensures d.x * a.x + d.y * b.x + d.z * c.x == v.x
  {
    CramerAs(v, a, b, c, d, a.x, b.x, c.x, Dot(a, a));
  }

  lemma ShiftKeeps(u: Vec, v: Vec)
    ensures Cross(Shift(u), Shift(v)) == Shift(Cross(u, v)) && Dot(Shift(u), Shift(v)) == Dot(u, v)
  {}

  lemma RestoreShifted(v: Vec, a: Vec, b: Vec, c: Vec, d: Vec)
    requires Cross(a, b) == c && Cross(b, c) == a && Cross(c, a) == b && Dot(a, a) == 1.0
    requires d == Vec(Dot(a, v), Dot(b, v), Dot(c, v))
    ensures Cross(Shift(a), Shift(b)) == Shift(c) && Cross(Shift(b), Shift(c)) == Shift(a)
    ensures Cross(Shift(c), Shift(a)) == Shift(b) && Dot(Shift(a), Shift(a)) == 1.0
    ensures d == Vec(Dot(Shift(a), Shift(v)), Dot(Shift(b), Shift(v)), Dot(Shift(c), Shift(v)))
  {
    ShiftKeeps(a, b);
    ShiftKeeps(b, c);
    ShiftKeeps(c, a);
    ShiftKeeps(a, a);
    ShiftKeeps(a, v);
    ShiftKeeps(b, v);
    ShiftKeeps(c, v);
  }

  lemma Restore(v: Vec, a: Vec, b: Vec, c: Vec, d: Vec)
    requires Cross(a, b) == c && Cross(b, c) == a && Cross(c, a) == b && Dot(a, a) == 1.0
    requires d == Vec(Dot(a, v), Dot(b, v), Dot(c, v))
    ensures d.x * a.x + d.y * b.x + d.z * c.x == v.x
    ensures d.x * a.y + d.y * b.y + d.z * c.y == v.y
    ensures d.x * a.z + d.y * b.z + d.z * c.z == v.z
  {
    var v1, a1, b1, c1 := Shift(v), Shift(a), Shift(b), Shift(c);
    RestoreX(v, a, b, c, d);
    RestoreShifted(v, a, b, c, d);
    RestoreX(v1, a1, b1, c1, d);
    RestoreShifted(v1, a1, b1, c1, d);
    RestoreX(Shift(v1), Shift(a1), Shift(b1), Shift(c1), d);
  }

  /** A vector is the combination of the rows by its own coordinates along them. */
  lemma CombineApply(m: Rows, v: Vec)
    requires Rotation(m)
    ensures Combine(Apply(m, v), m) == v
  {
    var d := Apply(m, v);
    Restore(v, m.a, m.b, m.c, d);
    CombineIs(d, m, v);
  }

  lemma CombineIs(d: Vec, m: Rows, v: Vec)
    requires d.x * m.a.x + d.y * m.b.x + d.z * m.c.x == v.x
    requires d.x * m.a.y + d.y * m.b.y + d.z * m.c.y == v.y
    requires d.x * m.a.z + d.y * m.b.z + d.z * m.c.z == v.z
    ensures Combine(d, m) == v
  {}

  /** A rotation keeps inner products, so lengths and angles. */
  lemma RotationKeepsDot(m: Rows, u: Vec, v: Vec)
    requires Rotation(m)
    ensures Dot(Apply(m, u), Apply(m, v)) == Dot(u, v)
  {
    CombineApply(m, u);
    CombineApply(m, v);
    CombineKeepsDot(Apply(m, u), Apply(m, v), m);
  }

  // ---------- Rotations from two rows ----------

  /** One component of u x (v x u). */
  lemma BackX(u: Vec, v: Vec)
    ensures u.y * (v.x * u.y - v.y * u.x) - u.z * (v.z * u.x - v.x * u.z)
            == (u.x * u.x + u.y * u.y + u.z * u.z) * v.x - (u.x * v.x + u.y * v.y + u.z * v.z) * u.x
  {}

  lemma BackXAs(u: Vec, v: Vec, cy: real, cz: real, uu: real, uv: real)
    requires cy == v.z * u.x - v.x * u.z && cz == v.x * u.y - v.y * u.x
    requires uu == u.x * u.x + u.y * u.y + u.z * u.z && uv == u.x * v.x + u.y * v.y + u.z * v.z
    requires uu == 1.0 && uv == 0.0
    ensures u.y * cz - u.z * cy == v.x
  {
    BackX(u, v);
  }

  /** Crossing with a unit vector twice leads back. */
  lemma CrossBack(u: Vec, v: Vec)
    requires Dot(u, u) == 1.0 && Dot(u, v) == 0.0
    ensures Cross(u, Cross(v, u)) == v
  {
    var c := Cross(v, u);
    BackXAs(u, v, c.y, c.z, Dot(u, u), Dot(u, v));
    BackXAs(Shift(u), Shift(v), c.z, c.x, Dot(u, u), Dot(u, v));
    BackXAs(Shift(Shift(u)), Shift(Shift(v)), c.x, c.y, Dot(u, u), Dot(u, v));
  }

  lemma TripleProduct(u: Vec, v: Vec, w: Vec)
    ensures Dot(Cross(u, v), w) == Dot(u, Cross(v, w))
  {}

  lemma CrossIsNormal(u: Vec, v: Vec)
    ensures Dot(u, Cross(u, v)) == 0.0 && Dot(v, Cross(u, v)) == 0.0
  {}

  lemma CrossTurnsAround(u: Vec, c: Vec, d: Vec)
    requires d == Vec(-c.x, -c.y, -c.z)
    ensures Cross(u, d) == Cross(c, u)
  {}

  /** Two unit rows at right angles and their cross product make a rotation. */
  lemma TwoRowsMakeRotation(m: Rows)
    requires Dot(m.a, m.a) == 1.0 && Dot(m.b, m.b) == 1.0 && Dot(m.a, m.b) == 0.0
    requires m.c == Cross(m.a, m.b)
    ensures Rotation(m)
  {
    DotSymmetric(m.a, m.b);
    CrossBack(m.b, m.a);
    CrossBack(m.a, m.b);
    CrossTurnsAround(m.a, m.c, Cross(m.b, m.a));
    TripleProduct(m.a, m.b, m.c);
    CrossIsNormal(m.a, m.b);
    DotSymmetric(m.a, m.c);
  }
}
