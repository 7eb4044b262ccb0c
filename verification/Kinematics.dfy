/** Forward kinematics: products of link transforms over exact reals and abstract trigonometry. */
module Kinematics {
  import opened Geometry

  /** A row-major 4x4 homogeneous transform. */
  type Mat4 = s: seq<real> | |s| == 16
    witness [1.0, 0.0, 0.0, 0.0, 0.0, 1.0, 0.0, 0.0, 0.0, 0.0, 1.0, 0.0, 0.0, 0.0, 0.0, 1.0]

  type JointVec = s: seq<real> | |s| == 6 witness [0.0, 0.0, 0.0, 0.0, 0.0, 0.0]

  // ---------- Matrix products ----------

  /** The first `n` terms of entry (i, j) of the product. */
  function Terms(a: Mat4, b: Mat4, i: nat, j: nat, n: nat): real
    requires i < 4 && j < 4 && n <= 4
  {
    if n == 0 then 0.0 else Terms(a, b, i, j, n - 1) + a[4 * i + (n - 1)] * b[4 * (n - 1) + j]
  }

  function MatProduct(a: Mat4, b: Mat4): Mat4 {
    seq(16, e requires 0 <= e < 16 => Terms(a, b, e / 4, e % 4, 4))
  }

  method MatMultiply(a: Mat4, b: Mat4) returns (c: array<real>)
    ensures fresh(c) && c.Length == 16 && c[..] == MatProduct(a, b)
  {
    c := new real[16](_ => 0.0);
    for i := 0 to 4
      invariant forall e :: 0 <= e < 4 * i ==> c[e] == Terms(a, b, e / 4, e % 4, 4)
      invariant forall e :: 4 * i <= e < 16 ==> c[e] == 0.0
    {
      for j := 0 to 4
        invariant forall e :: 0 <= e < 4 * i + j ==> c[e] == Terms(a, b, e / 4, e % 4, 4)
        invariant forall e :: 4 * i + j <= e < 16 ==> c[e] == 0.0
      {
        for k := 0 to 4
          invariant c[4 * i + j] == Terms(a, b, i, j, k)
          invariant forall e :: 0 <= e < 4 * i + j ==> c[e] == Terms(a, b, e / 4, e % 4, 4)
          invariant forall e :: 4 * i + j < e < 16 ==> c[e] == 0.0
        {
          c[4 * i + j] := c[4 * i + j] + a[4 * i + k] * b[4 * k + j];
        }
        assert (4 * i + j) / 4 == i && (4 * i + j) % 4 == j;
      }
    }
  }

  // ---------- Rigid transforms ----------

  function RotationOf(t: Mat4): Rows {
    Rows(Vec(t[0], t[1], t[2]), Vec(t[4], t[5], t[6]), Vec(t[8], t[9], t[10]))
  }

  function PositionOf(t: Mat4): Vec {
    Vec(t[3], t[7], t[11])
  }

  predicate Homogeneous(t: Mat4) {
    t[12] == 0.0 && t[13] == 0.0 && t[14] == 0.0 && t[15] == 1.0
  }

  /** A proper rotation block, and last row (0, 0, 0, 1). */
  predicate Rigid(t: Mat4) {
    Rotation(RotationOf(t)) && Homogeneous(t)
  }

  function Transform(r: Rows, p: Vec): (t: Mat4)
    ensures RotationOf(t) == r && PositionOf(t) == p && Homogeneous(t)
  {
    [r.a.x, r.a.y, r.a.z, p.x,
     r.b.x, r.b.y, r.b.z, p.y,
     r.c.x, r.c.y, r.c.z, p.z,
     0.0, 0.0, 0.0, 1.0]
  }

  lemma TransformIsDetermined(t: Mat4)
    requires Homogeneous(t)
    ensures t == Transform(RotationOf(t), PositionOf(t))
  {}

  lemma FourTerms(a: Mat4, b: Mat4, i: nat, j: nat)
    requires i < 4 && j < 4
    ensures Terms(a, b, i, j, 4)
            == a[4 * i] * b[j] + a[4 * i + 1] * b[4 + j] + a[4 * i + 2] * b[8 + j] + a[4 * i + 3] * b[12 + j]
  {
    assert Terms(a, b, i, j, 1) == a[4 * i] * b[j];
    assert Terms(a, b, i, j, 2) == a[4 * i] * b[j] + a[4 * i + 1] * b[4 + j];
    assert Terms(a, b, i, j, 3) == a[4 * i] * b[j] + a[4 * i + 1] * b[4 + j] + a[4 * i + 2] * b[8 + j];
  }

  lemma EntryOfProduct(a: Mat4, b: Mat4, i: nat, j: nat)
    requires i < 4 && j < 4
    ensures MatProduct(a, b)[4 * i + j]
            == a[4 * i] * b[j] + a[4 * i + 1] * b[4 + j] + a[4 * i + 2] * b[8 + j] + a[4 * i + 3] * b[12 + j]
  {
    assert (4 * i + j) / 4 == i && (4 * i + j) % 4 == j;
    FourTerms(a, b, i, j);
  }

  lemma WithLastTerm(t: real, p: real, q: real, r: real, s: real, x: real, y: real, z: real, w: real,
                     u: Vec, v: Vec)
    requires t == p * x + q * y + r * z + s * w
    requires u == Vec(p, q, r) && v == Vec(x, y, z)
    ensures w == 0.0 ==> t == u.x * v.x + u.y * v.y + u.z * v.z
    ensures w == 1.0 ==> t == u.x * v.x + u.y * v.y + u.z * v.z + s
  {}

  /** An entry of the first three rows, by a row `u` of `a` and the start `v` of a column of `b`. */
  lemma EntryByVectors(a: Mat4, b: Mat4, i: nat, j: nat, u: Vec, v: Vec)
    requires i < 3 && j < 4 && Homogeneous(b)
    requires u == Vec(a[4 * i], a[4 * i + 1], a[4 * i + 2]) && v == Vec(b[j], b[4 + j], b[8 + j])
    ensures MatProduct(a, b)[4 * i + j]
            == u.x * v.x + u.y * v.y + u.z * v.z + if j < 3 then 0.0 else a[4 * i + 3]
  {
    EntryOfProduct(a, b, i, j);
    WithLastTerm(MatProduct(a, b)[4 * i + j], a[4 * i], a[4 * i + 1], a[4 * i + 2], a[4 * i + 3],
                 b[j], b[4 + j], b[8 + j], b[12 + j], u, v);
  }

  lemma RowOfProduct(a: Mat4, b: Mat4, i: nat, u: Vec, m: Rows, n: Rows)
    requires i < 3 && Homogeneous(b)
    requires u == Vec(a[4 * i], a[4 * i + 1], a[4 * i + 2]) && m == RotationOf(b)
    requires n == Transposed(m)
    ensures var p := MatProduct(a, b);
            && Vec(p[4 * i], p[4 * i + 1], p[4 * i + 2]) == Apply(n, u)
            && p[4 * i + 3] == Dot(u, PositionOf(b)) + a[4 * i + 3]
  {
    hide MatProduct, Homogeneous;
    EntryByVectors(a, b, i, 0, u, n.a);
    EntryByVectors(a, b, i, 1, u, n.b);
    EntryByVectors(a, b, i, 2, u, n.c);
    EntryByVectors(a, b, i, 3, u, PositionOf(b));
    DotSymmetric(n.a, u);
    DotSymmetric(n.b, u);
    DotSymmetric(n.c, u);
  }

  /** Combining rows is applying the transpose. */
  lemma CombineIsTransposeApply(u: Vec, m: Rows, n: Rows)
    requires n == Transposed(m)
    ensures Apply(n, u) == Combine(u, m)
  {}

  lemma LastRowEntry(a: Mat4, b: Mat4, j: nat)
    requires Homogeneous(a) && j < 4
    ensures MatProduct(a, b)[12 + j] == b[12 + j]
  {
    EntryOfProduct(a, b, 3, j);
    assert a[12] * b[j] == 0.0 && a[13] * b[4 + j] == 0.0 && a[14] * b[8 + j] == 0.0;
  }

  lemma LastRowOfProduct(a: Mat4, b: Mat4)
    requires Homogeneous(a) && Homogeneous(b)
    ensures Homogeneous(MatProduct(a, b))
  {
    LastRowEntry(a, b, 0);
    LastRowEntry(a, b, 1);
    LastRowEntry(a, b, 2);
    LastRowEntry(a, b, 3);
  }

  /** The product of transforms, by blocks: rotations multiply, and the second position is rotated and added. */
  lemma ProductByBlocks(a: Mat4, b: Mat4)
    requires Homogeneous(a) && Homogeneous(b)
    ensures MatProduct(a, b) == Transform(Product(RotationOf(a), RotationOf(b)),
                                          Plus(Apply(RotationOf(a), PositionOf(b)), PositionOf(a)))
  {
    var r, m := RotationOf(a), RotationOf(b);
    var n := Transposed(m);
    RowOfProduct(a, b, 0, r.a, m, n);
    RowOfProduct(a, b, 1, r.b, m, n);
    RowOfProduct(a, b, 2, r.c, m, n);
    CombineIsTransposeApply(r.a, m, n);
    CombineIsTransposeApply(r.b, m, n);
    CombineIsTransposeApply(r.c, m, n);
    LastRowOfProduct(a, b);
    TransformIsDetermined(MatProduct(a, b));
  }

  lemma MatProductAssociates(a: Mat4, b: Mat4, c: Mat4)
    requires Homogeneous(a) && Homogeneous(b) && Homogeneous(c)
    ensures MatProduct(MatProduct(a, b), c) == MatProduct(a, MatProduct(b, c))
  {
    hide MatProduct;
    ProductByBlocks(a, b);
    ProductByBlocks(b, c);
    ProductByBlocks(MatProduct(a, b), c);
    ProductByBlocks(a, MatProduct(b, c));
    BlocksAssociate(RotationOf(a), PositionOf(a), RotationOf(b), PositionOf(b), RotationOf(c), PositionOf(c));
  }

  lemma BlocksAssociate(r: Rows, p: Vec, s: Rows, q: Vec, t: Rows, u: Vec)
    ensures Product(Product(r, s), t) == Product(r, Product(s, t))
    ensures Plus(Apply(Product(r, s), u), Plus(Apply(r, q), p)) == Plus(Apply(r, Plus(Apply(s, u), q)), p)
  {
    hide Product, Apply;
    ProductAssociates(r, s, t);
    ApplyProduct(r, s, u);
    ApplyPlus(r, Apply(s, u), q);
  }

  lemma ProductIsRigid(a: Mat4, b: Mat4)
    requires Rigid(a) && Rigid(b)
    ensures Rigid(MatProduct(a, b))
  {
    ProductByBlocks(a, b);
    ProductIsRotation(RotationOf(a), RotationOf(b));
  }

  /** The cumulative product of a chain of links, base first. */
  function Chain(links: seq<Mat4>): Mat4
    requires |links| > 0
  {
    var n := |links| - 1;
    if n == 0 then links[0] else MatProduct(Chain(links[..n]), links[n])
  }

  /** Every chain of rigid links is rigid, however long. */
  lemma {:induction false} ChainIsRigid(links: seq<Mat4>)
    requires |links| > 0 && forall i :: 0 <= i < |links| ==> Rigid(links[i])
    ensures Rigid(Chain(links))
    decreases |links|
  {
    var n := |links| - 1;
    if n == 0 {
    } else {
      ChainIsRigid(links[..n]);
      ProductIsRigid(Chain(links[..n]), links[n]);
    }
  }

  /** Where a transform takes a point. */
  function MovePoint(t: Mat4, p: Vec): Vec {
    Plus(Apply(RotationOf(t), p), PositionOf(t))
  }

  function SquaredDistance(p: Vec, q: Vec): real {
    Dot(Minus(p, q), Minus(p, q))
  }

  lemma ApplyMinus(r: Rows, p: Vec, q: Vec)
    ensures Apply(r, Minus(p, q)) == Minus(Apply(r, p), Apply(r, q))
  {}

  /** A body moved by a rigid transform keeps its shape. */
  lemma RigidKeepsDistances(t: Mat4, p: Vec, q: Vec)
    requires Rigid(t)
    ensures SquaredDistance(MovePoint(t, p), MovePoint(t, q)) == SquaredDistance(p, q)
  {
    var r, d := RotationOf(t), Minus(p, q);
    ApplyMinus(r, p, q);
    RotationKeepsDot(r, d, d);
    assert Minus(MovePoint(t, p), MovePoint(t, q)) == Apply(r, d);
  }

  // ---------- Links ----------

  /** The trigonometric functions, of which only the stated identities are used. */
  datatype Trig = Trig(cos: real -> real, sin: real -> real) {
    ghost predicate Pythagorean() {
      forall x :: cos(x) * cos(x) + sin(x) * sin(x) == 1.0
    }
  }

  function AboutX(c: real, s: real): Rows {
    Rows(Vec(1.0, 0.0, 0.0), Vec(0.0, c, -s), Vec(0.0, s, c))
  }

  function AboutZ(c: real, s: real): Rows {
    Rows(Vec(c, -s, 0.0), Vec(s, c, 0.0), Vec(0.0, 0.0, 1.0))
  }

  lemma AxisRotations(c: real, s: real)
    requires c * c + s * s == 1.0
    ensures Rotation(AboutX(c, s)) && Rotation(AboutZ(c, s))
  {}

  /**
   * A link in the modified Denavit-Hartenberg convention: turn by alpha about x and move by a along it, then
   * turn by theta about z and move by d along it.
   */
  function Link(trig: Trig, alpha: real, a: real, theta: real, d: real): Mat4 {
    LinkOf(trig.cos(alpha), trig.sin(alpha), a, trig.cos(theta), trig.sin(theta), d)
  }

  function LinkOf(ca: real, sa: real, a: real, ct: real, st: real, d: real): Mat4 {
    MatProduct(Transform(AboutX(ca, sa), Vec(a, 0.0, 0.0)), Transform(AboutZ(ct, st), Vec(0.0, 0.0, d)))
  }

  lemma LinkByBlocks(ca: real, sa: real, a: real, ct: real, st: real, d: real)
    ensures LinkOf(ca, sa, a, ct, st, d)
            == Transform(Rows(Vec(ct, -st, 0.0), Vec(st * ca, ct * ca, -sa), Vec(st * sa, ct * sa, ca)),
                         Vec(a, -sa * d, ca * d))
  {
    var x, z := AboutX(ca, sa), AboutZ(ct, st);
    ProductByBlocks(Transform(x, Vec(a, 0.0, 0.0)), Transform(z, Vec(0.0, 0.0, d)));
    assert Product(x, z) == Rows(Vec(ct, -st, 0.0), Vec(st * ca, ct * ca, -sa), Vec(st * sa, ct * sa, ca));
    assert Plus(Apply(x, Vec(0.0, 0.0, d)), Vec(a, 0.0, 0.0)) == Vec(a, -sa * d, ca * d);
  }

  /** The driver's entry-by-entry matrix is that composition. */
  method LinkTransformation(trig: Trig, alpha: real, a: real, theta: real, d: real) returns (t: array<real>)
    ensures fresh(t) && t.Length == 16 && t[..] == Link(trig, alpha, a, theta, d)
  {
    var ca, sa := trig.cos(alpha), trig.sin(alpha);
    var ct, st := trig.cos(theta), trig.sin(theta);
    t := new real[16](_ => 0.0);
    FillLink(t, ca, sa, a, ct, st, d);
    LinkByBlocks(ca, sa, a, ct, st, d);
  }

  method FillLink(t: array<real>, ca: real, sa: real, a: real, ct: real, st: real, d: real)
    requires t.Length == 16
    modifies t
    ensures t[..] == Transform(Rows(Vec(ct, -st, 0.0), Vec(st * ca, ct * ca, -sa), Vec(st * sa, ct * sa, ca)),
                               Vec(a, -sa * d, ca * d))
  {
    t[0] := ct;
    t[1] := -st;
    t[2] := 0.0;
    t[3] := a;
    t[4] := st * ca;
    t[5] := ct * ca;
    t[6] := -sa;
    t[7] := -sa * d;
    t[8] := st * sa;
    t[9] := ct * sa;
    t[10] := ca;
    t[11] := ca * d;
    t[12] := 0.0;
    t[13] := 0.0;
    t[14] := 0.0;
    t[15] := 1.0;
  }

  lemma LinkOfIsRigid(ca: real, sa: real, a: real, ct: real, st: real, d: real)
    requires ca * ca + sa * sa == 1.0 && ct * ct + st * st == 1.0
    ensures Rigid(LinkOf(ca, sa, a, ct, st, d))
  {
    AxisRotations(ca, sa);
    AxisRotations(ct, st);
    ProductIsRigid(Transform(AboutX(ca, sa), Vec(a, 0.0, 0.0)), Transform(AboutZ(ct, st), Vec(0.0, 0.0, d)));
  }

  lemma LinkIsRigid(trig: Trig, alpha: real, a: real, theta: real, d: real)
    requires trig.Pythagorean()
    ensures Rigid(Link(trig, alpha, a, theta, d))
  {
    LinkOfIsRigid(trig.cos(alpha), trig.sin(alpha), a, trig.cos(theta), trig.sin(theta), d);
  }

  /** A positive angle about x turns y towards z and leaves x alone. */
  lemma AboutXTurns(c: real, s: real)
    ensures Apply(AboutX(c, s), Vec(1.0, 0.0, 0.0)) == Vec(1.0, 0.0, 0.0)
    ensures Apply(AboutX(c, s), Vec(0.0, 1.0, 0.0)) == Vec(0.0, c, s)
  {
    hide Apply;
    ColumnsOf(AboutX(c, s), Vec(1.0, 0.0, 0.0));
    ColumnsOf(AboutX(c, s), Vec(0.0, 1.0, 0.0));
  }

  lemma ColumnsOf(m: Rows, v: Vec)
    ensures v == Vec(1.0, 0.0, 0.0) ==> Apply(m, v) == Vec(m.a.x, m.b.x, m.c.x)
    ensures v == Vec(0.0, 1.0, 0.0) ==> Apply(m, v) == Vec(m.a.y, m.b.y, m.c.y)
    ensures v == Vec(0.0, 0.0, 1.0) ==> Apply(m, v) == Vec(m.a.z, m.b.z, m.c.z)
  {
    hide Dot;
    DotAxis(m.a, v);
    DotAxis(m.b, v);
    DotAxis(m.c, v);
  }

  /** A positive angle about z turns x towards y and leaves z alone. */
  lemma AboutZTurns(c: real, s: real)
    ensures Apply(AboutZ(c, s), Vec(0.0, 0.0, 1.0)) == Vec(0.0, 0.0, 1.0)
    ensures Apply(AboutZ(c, s), Vec(1.0, 0.0, 0.0)) == Vec(c, s, 0.0)
  {
    hide Apply;
    ColumnsOf(AboutZ(c, s), Vec(0.0, 0.0, 1.0));
    ColumnsOf(AboutZ(c, s), Vec(1.0, 0.0, 0.0));
  }

  /** The distance a link bridges depends on its offsets, not on its angles. */
  lemma LinkReach(trig: Trig, alpha: real, a: real, theta: real, d: real)
    requires trig.Pythagorean()
    ensures var p := PositionOf(Link(trig, alpha, a, theta, d)); Dot(p, p) == a * a + d * d
  {
    var ca, sa := trig.cos(alpha), trig.sin(alpha);
    LinkByBlocks(ca, sa, a, trig.cos(theta), trig.sin(theta), d);
    Reach(a, d, ca, sa);
  }

  lemma Reach(a: real, d: real, c: real, s: real)
    requires c * c + s * s == 1.0
    ensures a * a + (-s * d) * (-s * d) + (c * d) * (c * d) == a * a + d * d
  {
    assert (-s * d) * (-s * d) + (c * d) * (c * d) == (c * c + s * s) * (d * d);
  }

  // ---------- The arm ----------

  const PI := 3.14159265358979323846

  /** The arm's Denavit-Hartenberg parameters. */
  datatype Arm = Arm(a: JointVec, alpha: JointVec, theta: JointVec, d: JointVec)

  function ArmFor(dhIsOffset: int): Arm {
    Arm([0.0, 0.0, 285.03, -21.98, 0.0, 0.0],
        [0.0, -PI / 2.0, 0.0, PI / 2.0, -PI / 2.0, PI / 2.0],
        if dhIsOffset == 0x01 then [0.0, -PI * 172.22 / 180.0, -102.78 / 180.0 * PI, 0.0, 0.0, 0.0]
        else [0.0, -PI * 174.22 / 180.0, -100.78 / 180.0 * PI, 0.0, 0.0, 0.0],
        [123.0, 0.0, 0.0, 250.75, 0.0, 91.0])
  }

  function Links(trig: Trig, arm: Arm, joints: JointVec): (links: seq<Mat4>)
    ensures |links| == 6
  {
    seq(6, i requires 0 <= i < 6 => Link(trig, arm.alpha[i], arm.a[i], joints[i] + arm.theta[i], arm.d[i]))
  }

  /** The link transforms, one per joint. */
  method LinkTransformations(trig: Trig, arm: Arm, joints: JointVec) returns (ts: seq<Mat4>)
    ensures ts == Links(trig, arm, joints)
  {
    ts := [];
    for i := 0 to 6
      invariant |ts| == i && ts == Links(trig, arm, joints)[..i]
    {
      var t := LinkTransformation(trig, arm.alpha[i], arm.a[i], joints[i] + arm.theta[i], arm.d[i]);
      ts := ts + [t[..]];
    }
  }

  /** The cumulative products, each from the one before. */
  method Accumulate(ts: seq<Mat4>) returns (poses: seq<Mat4>)
    requires |ts| > 0
    ensures |poses| == |ts|
    ensures forall i :: 0 <= i < |ts| ==> poses[i] == Chain(ts[..i + 1])
  {
    poses := [ts[0]];
    for i := 1 to |ts|
      invariant |poses| == i
      invariant forall k :: 0 <= k < i ==> poses[k] == Chain(ts[..k + 1])
    {
      var r := MatMultiply(poses[i - 1], ts[i]);
      assert ts[..i + 1][..i] == ts[..i];
      poses := poses + [r[..]];
    }
  }

  /** The transforms of the six links in the base frame. */
  method CumulativeTransforms(trig: Trig, arm: Arm, joints: JointVec) returns (poses: seq<Mat4>)
    ensures |poses| == 6
    ensures forall i :: 0 <= i < 6 ==> poses[i] == Chain(Links(trig, arm, joints)[..i + 1])
  {
    var ts := LinkTransformations(trig, arm, joints);
    poses := Accumulate(ts);
  }

  lemma LinksAreRigid(trig: Trig, arm: Arm, joints: JointVec)
    requires trig.Pythagorean()
    ensures forall k :: 0 <= k < 6 ==> Rigid(Links(trig, arm, joints)[k])
  {
    forall k | 0 <= k < 6 ensures Rigid(Links(trig, arm, joints)[k]) {
      LinkIsRigid(trig, arm.alpha[k], arm.a[k], joints[k] + arm.theta[k], arm.d[k]);
    }
  }

  /** Every pose is a proper rigid transform, for every joint vector. */
  lemma PosesAreRigid(trig: Trig, arm: Arm, joints: JointVec, i: nat)
    requires trig.Pythagorean() && i < 6
    ensures Rigid(Chain(Links(trig, arm, joints)[..i + 1]))
  {
    LinksAreRigid(trig, arm, joints);
    ChainIsRigid(Links(trig, arm, joints)[..i + 1]);
  }

  /** The next origin is as far from this one as the link's own offset is long. */
  lemma NextOrigin(t: Mat4, link: Mat4)
    requires Rigid(t) && Homogeneous(link)
    ensures SquaredDistance(PositionOf(MatProduct(t, link)), PositionOf(t)) == Dot(PositionOf(link), PositionOf(link))
  {
    ProductByBlocks(t, link);
    RotationKeepsDot(RotationOf(t), PositionOf(link), PositionOf(link));
    assert Minus(PositionOf(MatProduct(t, link)), PositionOf(t)) == Apply(RotationOf(t), PositionOf(link));
  }

  lemma OriginsOfChain(links: seq<Mat4>, i: nat)
    requires forall k :: 0 <= k < |links| ==> Rigid(links[k])
    requires 1 <= i < |links|
    ensures SquaredDistance(PositionOf(Chain(links[..i + 1])), PositionOf(Chain(links[..i])))
            == Dot(PositionOf(links[i]), PositionOf(links[i]))
  {
    assert links[..i + 1][..i] == links[..i];
    ChainIsRigid(links[..i]);
    NextOrigin(Chain(links[..i]), links[i]);
  }

  lemma LinksReach(trig: Trig, arm: Arm, joints: JointVec, i: nat)
    requires trig.Pythagorean() && i < 6
    ensures var p := PositionOf(Links(trig, arm, joints)[i]); Dot(p, p) == arm.a[i] * arm.a[i] + arm.d[i] * arm.d[i]
  {
    LinkReach(trig, arm.alpha[i], arm.a[i], joints[i] + arm.theta[i], arm.d[i]);
  }

  /** However the joints are turned, consecutive joint origins stay as far apart as the parameters say. */
  lemma LinkLengthsAreConstant(trig: Trig, arm: Arm, joints: JointVec, i: nat)
    requires trig.Pythagorean() && 1 <= i < 6
    ensures var links := Links(trig, arm, joints);
            SquaredDistance(PositionOf(Chain(links[..i + 1])), PositionOf(Chain(links[..i])))
            == arm.a[i] * arm.a[i] + arm.d[i] * arm.d[i]
  {
    LinksAreRigid(trig, arm, joints);
    LinksReach(trig, arm, joints, i);
    OriginsOfChain(Links(trig, arm, joints), i);
  }

  // ---------- What each joint does ----------

  const UNTURNED := Rows(Vec(1.0, 0.0, 0.0), Vec(0.0, 1.0, 0.0), Vec(0.0, 0.0, 1.0))
  const ORIGIN := Vec(0.0, 0.0, 0.0)

  /** The transform of link `i` in the base frame. */
  function LinkInBase(trig: Trig, arm: Arm, joints: JointVec, i: nat): Mat4
    requires i < 6
  {
    Chain(Links(trig, arm, joints)[..i + 1])
  }

  /** Where link `i` hangs: the link before it, or the base. */
  function Support(trig: Trig, arm: Arm, joints: JointVec, i: nat): Mat4
    requires i < 6
  {
    if i == 0 then Transform(UNTURNED, ORIGIN) else LinkInBase(trig, arm, joints, i - 1)
  }

  /** From frame `t`, a turn about its x by the angle with that cosine and sine, `a` along it, then `d` along the new z. */
  function Shifted(t: Mat4, c: real, s: real, a: real, d: real): Mat4 {
    MatProduct(MatProduct(t, Transform(AboutX(c, s), Vec(a, 0.0, 0.0))), Transform(UNTURNED, Vec(0.0, 0.0, d)))
  }

  /** Frame `t` turned about its own z. */
  function Spun(t: Mat4, c: real, s: real): Mat4 {
    MatProduct(t, Transform(AboutZ(c, s), ORIGIN))
  }

  lemma UnturnedApply(v: Vec)
    ensures Apply(UNTURNED, v) == v
  {}

  lemma UnturnedProduct(r: Rows)
    ensures Product(UNTURNED, r) == r && Product(r, UNTURNED) == r
  {}

  lemma BaseIsNeutral(t: Mat4)
    requires Homogeneous(t)
    ensures MatProduct(Transform(UNTURNED, ORIGIN), t) == t
  {
    ProductByBlocks(Transform(UNTURNED, ORIGIN), t);
    UnturnedProduct(RotationOf(t));
    UnturnedApply(PositionOf(t));
    TransformIsDetermined(t);
  }

  lemma NoSpin(t: Mat4)
    requires Homogeneous(t)
    ensures Spun(t, 1.0, 0.0) == t
  {
    ProductByBlocks(t, Transform(AboutZ(1.0, 0.0), ORIGIN));
    assert AboutZ(1.0, 0.0) == UNTURNED;
    UnturnedProduct(RotationOf(t));
    assert Apply(RotationOf(t), ORIGIN) == ORIGIN;
    TransformIsDetermined(t);
  }

  /** Moving along z and then turning about it is one transform. */
  lemma MoveThenSpin(c: real, s: real, d: real)
    ensures MatProduct(Transform(UNTURNED, Vec(0.0, 0.0, d)), Transform(AboutZ(c, s), ORIGIN))
            == Transform(AboutZ(c, s), Vec(0.0, 0.0, d))
  {
    hide Product, Apply, MatProduct;
    ProductByBlocks(Transform(UNTURNED, Vec(0.0, 0.0, d)), Transform(AboutZ(c, s), ORIGIN));
    UnturnedProduct(AboutZ(c, s));
    UnturnedApply(ORIGIN);
  }

  lemma LinkIsHomogeneous(ca: real, sa: real, a: real, ct: real, st: real, d: real)
    ensures Homogeneous(LinkOf(ca, sa, a, ct, st, d))
  {
    LinkByBlocks(ca, sa, a, ct, st, d);
  }

  lemma ShiftedThenSpun(t: Mat4, ca: real, sa: real, a: real, ct: real, st: real, d: real)
    requires Homogeneous(t)
    ensures MatProduct(t, LinkOf(ca, sa, a, ct, st, d)) == Spun(Shifted(t, ca, sa, a, d), ct, st)
  {
    hide MatProduct;
    var x, z := Transform(AboutX(ca, sa), Vec(a, 0.0, 0.0)), Transform(UNTURNED, Vec(0.0, 0.0, d));
    var spin := Transform(AboutZ(ct, st), ORIGIN);
    MoveThenSpin(ct, st, d);
    MatProductAssociates(t, x, MatProduct(z, spin));
    LastRowOfProduct(t, x);
    MatProductAssociates(MatProduct(t, x), z, spin);
  }

  lemma {:induction false} ChainIsHomogeneous(trig: Trig, arm: Arm, joints: JointVec, i: nat)
    requires i < 6
    ensures Homogeneous(LinkInBase(trig, arm, joints, i))
  {
    var links := Links(trig, arm, joints);
    LinkIsHomogeneous(trig.cos(arm.alpha[i]), trig.sin(arm.alpha[i]), arm.a[i],
                      trig.cos(joints[i] + arm.theta[i]), trig.sin(joints[i] + arm.theta[i]), arm.d[i]);
    if i == 0 {
    } else {
      ChainIsHomogeneous(trig, arm, joints, i - 1);
      assert links[..i + 1][..i] == links[..i];
      LastRowOfProduct(LinkInBase(trig, arm, joints, i - 1), links[i]);
    }
  }

  lemma SupportIsHomogeneous(trig: Trig, arm: Arm, joints: JointVec, i: nat)
    requires i < 6
    ensures Homogeneous(Support(trig, arm, joints, i))
  {
    if i > 0 {
      ChainIsHomogeneous(trig, arm, joints, i - 1);
    }
  }

  /** Where every link is: shifted from its support by its parameters, and turned about its z by joint plus offset. */
  lemma LinkIsPlaced(trig: Trig, arm: Arm, joints: JointVec, i: nat)
    requires i < 6
    ensures LinkInBase(trig, arm, joints, i)
            == Spun(Shifted(Support(trig, arm, joints, i), trig.cos(arm.alpha[i]), trig.sin(arm.alpha[i]),
                            arm.a[i], arm.d[i]),
                    trig.cos(joints[i] + arm.theta[i]), trig.sin(joints[i] + arm.theta[i]))
  {
    hide MatProduct, LinkOf;
    var links, support := Links(trig, arm, joints), Support(trig, arm, joints, i);
    var ca, sa, ct, st := trig.cos(arm.alpha[i]), trig.sin(arm.alpha[i]),
                          trig.cos(joints[i] + arm.theta[i]), trig.sin(joints[i] + arm.theta[i]);
    SupportIsHomogeneous(trig, arm, joints, i);
    ShiftedThenSpun(support, ca, sa, arm.a[i], ct, st, arm.d[i]);
    if i == 0 {
      LinkIsHomogeneous(ca, sa, arm.a[i], ct, st, arm.d[i]);
      BaseIsNeutral(links[0]);
    } else {
      assert links[..i + 1][..i] == links[..i];
    }
  }

  /** With the joint at minus its offset, a link is only shifted from its support. */
  lemma LinkAtRest(trig: Trig, arm: Arm, joints: JointVec, i: nat)
    requires i < 6 && joints[i] == -arm.theta[i] && trig.cos(0.0) == 1.0 && trig.sin(0.0) == 0.0
    ensures LinkInBase(trig, arm, joints, i)
            == Shifted(Support(trig, arm, joints, i), trig.cos(arm.alpha[i]), trig.sin(arm.alpha[i]),
                       arm.a[i], arm.d[i])
  {
    hide MatProduct;
    var support := Support(trig, arm, joints, i);
    var x := Transform(AboutX(trig.cos(arm.alpha[i]), trig.sin(arm.alpha[i])), Vec(arm.a[i], 0.0, 0.0));
    LinkIsPlaced(trig, arm, joints, i);
    SupportIsHomogeneous(trig, arm, joints, i);
    LastRowOfProduct(support, x);
    LastRowOfProduct(MatProduct(support, x), Transform(UNTURNED, Vec(0.0, 0.0, arm.d[i])));
    NoSpin(Shifted(support, trig.cos(arm.alpha[i]), trig.sin(arm.alpha[i]), arm.a[i], arm.d[i]));
  }

  /** A joint moves no link before its own. */
  lemma EarlierLinksStay(trig: Trig, arm: Arm, joints: JointVec, i: nat, angle: real, k: nat)
    requires k < i < 6
    ensures LinkInBase(trig, arm, joints[i := angle], k) == LinkInBase(trig, arm, joints, k)
  {
    assert Links(trig, arm, joints[i := angle])[..k + 1] == Links(trig, arm, joints)[..k + 1];
  }

  /** From there, raising the joint by `t` turns its link about the link's own z by exactly `t`. */
  lemma JointTurnsItsLink(trig: Trig, arm: Arm, joints: JointVec, i: nat, t: real)
    requires i < 6 && joints[i] == -arm.theta[i] && trig.cos(0.0) == 1.0 && trig.sin(0.0) == 0.0
    ensures LinkInBase(trig, arm, joints[i := joints[i] + t], i)
            == Spun(LinkInBase(trig, arm, joints, i), trig.cos(t), trig.sin(t))
  {
    hide MatProduct, Spun, Shifted, LinkInBase;
    var raised := joints[i := joints[i] + t];
    LinkAtRest(trig, arm, joints, i);
    LinkIsPlaced(trig, arm, raised, i);
    assert raised[i] + arm.theta[i] == t;
    if i > 0 {
      EarlierLinksStay(trig, arm, joints, i, joints[i] + t, i - 1);
    }
    assert Support(trig, arm, raised, i) == Support(trig, arm, joints, i);
  }

  // ---------- The arm in a known position ----------

  /** The joint values that cancel the offsets: the upper arm level and everything after it upright. */
  function RestJoints(dhIsOffset: int): JointVec {
    if dhIsOffset == 0x01 then [0.0, PI * 172.22 / 180.0, PI * 102.78 / 180.0, 0.0, 0.0, 0.0]
    else [0.0, PI * 174.22 / 180.0, PI * 100.78 / 180.0, 0.0, 0.0, 0.0]
  }

  /** Right angles and none. */
  ghost predicate KnowsRightAngles(trig: Trig) {
    && trig.cos(0.0) == 1.0 && trig.sin(0.0) == 0.0
    && trig.cos(PI / 2.0) == 0.0 && trig.sin(PI / 2.0) == 1.0
    && trig.cos(-PI / 2.0) == 0.0 && trig.sin(-PI / 2.0) == -1.0
  }

  lemma ShiftedByBlocks(r: Rows, p: Vec, c: real, s: real, a: real, d: real)
    ensures Shifted(Transform(r, p), c, s, a, d)
            == Transform(Product(r, AboutX(c, s)),
                         Plus(Apply(Product(r, AboutX(c, s)), Vec(0.0, 0.0, d)), Plus(Apply(r, Vec(a, 0.0, 0.0)), p)))
  {
    hide MatProduct;
    ProductByBlocks(Transform(r, p), Transform(AboutX(c, s), Vec(a, 0.0, 0.0)));
    ProductByBlocks(MatProduct(Transform(r, p), Transform(AboutX(c, s), Vec(a, 0.0, 0.0))),
                    Transform(UNTURNED, Vec(0.0, 0.0, d)));
    UnturnedProduct(Product(r, AboutX(c, s)));
  }

  /** A quarter turn about x, forward and back. */
  const FORWARD := AboutX(0.0, 1.0)
  const BACK := AboutX(0.0, -1.0)

  lemma QuarterTurns()
    ensures AboutX(1.0, 0.0) == UNTURNED && Product(BACK, FORWARD) == UNTURNED
  {}

  /** The moves of a link that leaves x as it is, and does not move along a z that is turned. */
  lemma Moves(r: Rows, q: Rows, p: Vec, a: real, d: real)
    requires (r == UNTURNED || r == BACK) && (q == UNTURNED || (q == BACK && d == 0.0))
    ensures Plus(Apply(q, Vec(0.0, 0.0, d)), Plus(Apply(r, Vec(a, 0.0, 0.0)), p)) == Vec(p.x + a, p.y, p.z + d)
  {}

  lemma NextAtRest(trig: Trig, arm: Arm, joints: JointVec, i: nat, r: Rows, p: Vec, q: Rows)
    requires i < 6 && joints[i] == -arm.theta[i] && trig.cos(0.0) == 1.0 && trig.sin(0.0) == 0.0
    requires Support(trig, arm, joints, i) == Transform(r, p)
    requires q == Product(r, AboutX(trig.cos(arm.alpha[i]), trig.sin(arm.alpha[i])))
    requires (r == UNTURNED || r == BACK) && (q == UNTURNED || (q == BACK && arm.d[i] == 0.0))
    ensures LinkInBase(trig, arm, joints, i) == Transform(q, Vec(p.x + arm.a[i], p.y, p.z + arm.d[i]))
  {
    hide Product, Apply, Plus, LinkInBase, Support, Shifted, AboutX;
    LinkAtRest(trig, arm, joints, i);
    ShiftedByBlocks(r, p, trig.cos(arm.alpha[i]), trig.sin(arm.alpha[i]), arm.a[i], arm.d[i]);
    Moves(r, q, p, arm.a[i], arm.d[i]);
  }

  /** How each link is turned against the base at rest. */
  function RestRows(i: nat): Rows {
    if i == 1 || i == 2 || i == 4 then BACK else UNTURNED
  }

  lemma RestOffsets(dhIsOffset: int, i: nat)
    requires i < 6
    ensures RestJoints(dhIsOffset)[i] == -ArmFor(dhIsOffset).theta[i]
    ensures RestRows(i) == BACK ==> ArmFor(dhIsOffset).d[i] == 0.0
  {
    assert AboutX(0.0, -1.0).b.z == 1.0;
  }

  /** Every second link is turned a quarter turn one way or the other. */
  lemma RestAngles(dhIsOffset: int, i: nat)
    requires i < 6
    ensures ArmFor(dhIsOffset).alpha[i]
            == if i == 0 || i == 2 then 0.0 else if i == 1 || i == 4 then -PI / 2.0 else PI / 2.0
  {}

  lemma RestTurns(trig: Trig, dhIsOffset: int, i: nat)
    requires KnowsRightAngles(trig) && i < 6
    ensures var alpha := ArmFor(dhIsOffset).alpha[i];
            RestRows(i) == Product(if i == 0 then UNTURNED else RestRows(i - 1),
                                   AboutX(trig.cos(alpha), trig.sin(alpha)))
  {
    hide ArmFor, Product;
    RestAngles(dhIsOffset, i);
    QuarterTurns();
    UnturnedProduct(UNTURNED);
    UnturnedProduct(BACK);
    assert AboutX(1.0, 0.0) == UNTURNED;
  }

  /** Where each link is at rest, in millimetres. */
  function RestPosition(i: nat): Vec
    requires i < 6
  {
    [Vec(0.0, 0.0, 123.0), Vec(0.0, 0.0, 123.0), Vec(285.03, 0.0, 123.0), Vec(263.05, 0.0, 373.75),
     Vec(263.05, 0.0, 373.75), Vec(263.05, 0.0, 464.75)][i]
  }

  lemma RestMoves(dhIsOffset: int, i: nat)
    requires i < 6
    ensures var arm := ArmFor(dhIsOffset);
            var p := if i == 0 then ORIGIN else RestPosition(i - 1);
            RestPosition(i) == Vec(p.x + arm.a[i], p.y, p.z + arm.d[i])
  {}

  /** With the offsets cancelled, all six links of either arm are there. */
  lemma {:induction false} ArmAtRest(trig: Trig, dhIsOffset: int, i: nat)
    requires KnowsRightAngles(trig) && i < 6
    ensures LinkInBase(trig, ArmFor(dhIsOffset), RestJoints(dhIsOffset), i) == Transform(RestRows(i), RestPosition(i))
    decreases i
  {
    hide LinkInBase, Product, RestPosition, ArmFor, RestJoints;
    RestOffsets(dhIsOffset, i);
    RestTurns(trig, dhIsOffset, i);
    RestMoves(dhIsOffset, i);
    if i == 0 {
      NextAtRest(trig, ArmFor(dhIsOffset), RestJoints(dhIsOffset), 0, UNTURNED, ORIGIN, RestRows(0));
    } else {
      ArmAtRest(trig, dhIsOffset, i - 1);
      NextAtRest(trig, ArmFor(dhIsOffset), RestJoints(dhIsOffset), i, RestRows(i - 1), RestPosition(i - 1),
                 RestRows(i));
    }
  }
}
