/** Fixed-size vectors and 3x3 matrices over `real`, standing in for the Eigen
    types the scan matcher uses (Vector2f, Vector3f, Matrix3f). Floating point
    is idealised as exact real arithmetic. */
module LinAlg {

  datatype Vec2 = Vec2(x: real, y: real)

  datatype Vec3 = Vec3(x: real, y: real, z: real)

  const Zero3: Vec3 := Vec3(0.0, 0.0, 0.0)

  function Add3(a: Vec3, b: Vec3): Vec3 {
    Vec3(a.x + b.x, a.y + b.y, a.z + b.z)
  }

  function Sub3(a: Vec3, b: Vec3): Vec3 {
    Vec3(a.x - b.x, a.y - b.y, a.z - b.z)
  }

  function Scale3(k: real, v: Vec3): Vec3 {
    Vec3(k * v.x, k * v.y, k * v.z)
  }

  function Dot3(a: Vec3, b: Vec3): real {
    a.x * b.x + a.y * b.y + a.z * b.z
  }

  /** The square, as the utility `sqr` the source calls. */
  function Sqr(v: real): real {
    v * v
  }

  /** A 3x3 matrix, entry `arc` in row r and column c. */
  datatype Mat3 = Mat3(a00: real, a01: real, a02: real,
                       a10: real, a11: real, a12: real,
                       a20: real, a21: real, a22: real)
  {
    predicate Symmetric() {
      a01 == a10 && a02 == a20 && a12 == a21
    }
  }

  const ZeroMat3: Mat3 := Mat3(0.0, 0.0, 0.0, 0.0, 0.0, 0.0, 0.0, 0.0, 0.0)

  function AddM(a: Mat3, b: Mat3): Mat3 {
    Mat3(a.a00 + b.a00, a.a01 + b.a01, a.a02 + b.a02,
         a.a10 + b.a10, a.a11 + b.a11, a.a12 + b.a12,
         a.a20 + b.a20, a.a21 + b.a21, a.a22 + b.a22)
  }

  function ScaleM(k: real, a: Mat3): Mat3 {
    Mat3(k * a.a00, k * a.a01, k * a.a02,
         k * a.a10, k * a.a11, k * a.a12,
         k * a.a20, k * a.a21, k * a.a22)
  }

  /** The outer product u v^T. */
  function Outer(u: Vec3, v: Vec3): Mat3 {
    Mat3(u.x * v.x, u.x * v.y, u.x * v.z,
         u.y * v.x, u.y * v.y, u.y * v.z,
         u.z * v.x, u.z * v.y, u.z * v.z)
  }

  function MulV(a: Mat3, v: Vec3): Vec3 {
    Vec3(a.a00 * v.x + a.a01 * v.y + a.a02 * v.z,
         a.a10 * v.x + a.a11 * v.y + a.a12 * v.z,
         a.a20 * v.x + a.a21 * v.y + a.a22 * v.z)
  }

  /** The quadratic form v^T A v. */
  function QuadForm(a: Mat3, v: Vec3): real {
    Dot3(v, MulV(a, v))
  }

  /** v^T (p u^T) v == (p . v)(u . v), on the coordinates; `w` is (p u^T) v,
      `q` the form, `e` is p . v and `d` is u . v. */
  lemma OuterQuadIdentity(p0: real, p1: real, p2: real, u0: real, u1: real, u2: real,
                          v0: real, v1: real, v2: real,
                          w0: real, w1: real, w2: real, q: real, e: real, d: real)
    requires w0 == (p0 * u0) * v0 + (p0 * u1) * v1 + (p0 * u2) * v2
    requires w1 == (p1 * u0) * v0 + (p1 * u1) * v1 + (p1 * u2) * v2
    requires w2 == (p2 * u0) * v0 + (p2 * u1) * v1 + (p2 * u2) * v2
    requires q == v0 * w0 + v1 * w1 + v2 * w2
    requires e == p0 * v0 + p1 * v1 + p2 * v2
    requires d == u0 * v0 + u1 * v1 + u2 * v2
    ensures q == e * d
  {
    assert w0 == p0 * d && w1 == p1 * d && w2 == p2 * d;
  }

  /** The quadratic form of an outer product u u^T is the squared projection on u. */
  lemma QuadFormOfOuter(u: Vec3, v: Vec3)
    ensures QuadForm(Outer(u, u), v) == Sqr(Dot3(u, v))
  {
    QuadFormOfOuterPair(u, u, v);
  }

  /** v^T (p u^T) v == (p . v)(u . v). */
  lemma QuadFormOfOuterPair(p: Vec3, u: Vec3, v: Vec3)
    ensures QuadForm(Outer(p, u), v) == Dot3(p, v) * Dot3(u, v)
  {
    var w := MulV(Outer(p, u), v);
    OuterQuadIdentity(p.x, p.y, p.z, u.x, u.y, u.z, v.x, v.y, v.z, w.x, w.y, w.z,
                      QuadForm(Outer(p, u), v), Dot3(p, v), Dot3(u, v));
  }

  /** The quadratic form is additive in the matrix. */
  lemma QuadFormAdd(a: Mat3, b: Mat3, v: Vec3)
    ensures QuadForm(AddM(a, b), v) == QuadForm(a, v) + QuadForm(b, v)
  {
    MulVAdd(a, b, v);
    Dot3Add(v, MulV(a, v), MulV(b, v));
  }

  lemma MulVAdd(a: Mat3, b: Mat3, v: Vec3)
    ensures MulV(AddM(a, b), v) == Add3(MulV(a, v), MulV(b, v))
  {
    MulVAddX(a, b, v);
    MulVAddY(a, b, v);
    MulVAddZ(a, b, v);
  }

  lemma MulVAddX(a: Mat3, b: Mat3, v: Vec3)
    ensures MulV(AddM(a, b), v).x == MulV(a, v).x + MulV(b, v).x
  {
    RowAdd(a.a00, a.a01, a.a02, b.a00, b.a01, b.a02, v.x, v.y, v.z);
  }

  lemma MulVAddY(a: Mat3, b: Mat3, v: Vec3)
    ensures MulV(AddM(a, b), v).y == MulV(a, v).y + MulV(b, v).y
  {
    RowAdd(a.a10, a.a11, a.a12, b.a10, b.a11, b.a12, v.x, v.y, v.z);
  }

  lemma MulVAddZ(a: Mat3, b: Mat3, v: Vec3)
    ensures MulV(AddM(a, b), v).z == MulV(a, v).z + MulV(b, v).z
  {
    RowAdd(a.a20, a.a21, a.a22, b.a20, b.a21, b.a22, v.x, v.y, v.z);
  }

  /** A row of a sum of matrices times v is the sum of the rows times v. */
  lemma RowAdd(a0: real, a1: real, a2: real, b0: real, b1: real, b2: real, v0: real, v1: real, v2: real)
    ensures (a0 + b0) * v0 + (a1 + b1) * v1 + (a2 + b2) * v2
         == (a0 * v0 + a1 * v1 + a2 * v2) + (b0 * v0 + b1 * v1 + b2 * v2)
  {
  }

  lemma Dot3Add(v: Vec3, p: Vec3, q: Vec3)
    ensures Dot3(v, Add3(p, q)) == Dot3(v, p) + Dot3(v, q)
  {
    DotDistributes(v.x, v.y, v.z, p.x, p.y, p.z, q.x, q.y, q.z);
  }

  lemma DotDistributes(v0: real, v1: real, v2: real, p0: real, p1: real, p2: real,
                       q0: real, q1: real, q2: real)
    ensures v0 * (p0 + q0) + v1 * (p1 + q1) + v2 * (p2 + q2)
         == (v0 * p0 + v1 * p1 + v2 * p2) + (v0 * q0 + v1 * q1 + v2 * q2)
  {
  }

  /** A non-negatively weighted outer product k u u^T has a non-negative
      quadratic form. */
  lemma ScaledOuterNonnegative(k: real, u: Vec3, v: Vec3)
    requires 0.0 <= k
    ensures QuadForm(ScaleM(k, Outer(u, u)), v) >= 0.0
  {
    var o := Outer(u, u);
    var a, w := MulV(o, v), MulV(ScaleM(k, o), v);
    MulVScaleX(k, o, v);
    MulVScaleY(k, o, v);
    MulVScaleZ(k, o, v);
    QuadFormOfOuter(u, v);
    SqrNonnegative(Dot3(u, v));
    ScaledFormSign(k, v.x, v.y, v.z, a.x, a.y, a.z, w.x, w.y, w.z, QuadForm(o, v), QuadForm(ScaleM(k, o), v));
  }

  lemma MulVScaleX(k: real, a: Mat3, v: Vec3)
    ensures MulV(ScaleM(k, a), v).x == k * MulV(a, v).x
  {
    ScaledRow(k, a.a00, a.a01, a.a02, v.x, v.y, v.z, MulV(ScaleM(k, a), v).x, MulV(a, v).x);
  }

  lemma MulVScaleY(k: real, a: Mat3, v: Vec3)
    ensures MulV(ScaleM(k, a), v).y == k * MulV(a, v).y
  {
    ScaledRow(k, a.a10, a.a11, a.a12, v.x, v.y, v.z, MulV(ScaleM(k, a), v).y, MulV(a, v).y);
  }

  lemma MulVScaleZ(k: real, a: Mat3, v: Vec3)
    ensures MulV(ScaleM(k, a), v).z == k * MulV(a, v).z
  {
    ScaledRow(k, a.a20, a.a21, a.a22, v.x, v.y, v.z, MulV(ScaleM(k, a), v).z, MulV(a, v).z);
  }

  /** (k a) . v == k (a . v), on the coordinates; `s` is the left side and `t` is a . v. */
  lemma ScaledRow(k: real, a0: real, a1: real, a2: real, v0: real, v1: real, v2: real, s: real, t: real)
    requires s == (k * a0) * v0 + (k * a1) * v1 + (k * a2) * v2
    requires t == a0 * v0 + a1 * v1 + a2 * v2
    ensures s == k * t
  {
  }

  lemma SqrNonnegative(d: real)
    ensures Sqr(d) >= 0.0
  {
  }

  /** v . (k a) >= 0 when k >= 0 and v . a >= 0; `w` is k a, `p` is v . a and `q` is v . w. */
  lemma ScaledFormSign(k: real, v0: real, v1: real, v2: real, a0: real, a1: real, a2: real,
                       w0: real, w1: real, w2: real, p: real, q: real)
    requires 0.0 <= k && 0.0 <= p
    requires w0 == k * a0 && w1 == k * a1 && w2 == k * a2
    requires p == v0 * a0 + v1 * a1 + v2 * a2
    requires q == v0 * w0 + v1 * w1 + v2 * w2
    ensures q >= 0.0
  {
    assert q == k * p;
  }

  /** A product of non-negative reals is non-negative. */
  lemma MulNonneg(a: real, b: real)
    requires 0.0 <= a && 0.0 <= b
    ensures 0.0 <= a * b
  {
  }
}
