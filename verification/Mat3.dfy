/** 3-vectors and 3x3 matrices with the algebra the camera modules need. */
module Mat3 {
  datatype Vec = Vec(x: real, y: real, z: real)

  datatype Mat = Mat(r0: Vec, r1: Vec, r2: Vec)

  const IDENTITY := Mat(Vec(1.0, 0.0, 0.0), Vec(0.0, 1.0, 0.0), Vec(0.0, 0.0, 1.0))

  function Inner(a: Vec, b: Vec): real { a.x * b.x + a.y * b.y + a.z * b.z }

  function Plus(a: Vec, b: Vec): Vec { Vec(a.x + b.x, a.y + b.y, a.z + b.z) }

  function Minus(a: Vec, b: Vec): Vec { Vec(a.x - b.x, a.y - b.y, a.z - b.z) }

  function Scale(k: real, a: Vec): Vec { Vec(k * a.x, k * a.y, k * a.z) }

  /** The unit vector along an axis. */
  function Unit(axis: nat): Vec
    requires axis < 3
  {
    Vec(if axis == 0 then 1.0 else 0.0, if axis == 1 then 1.0 else 0.0, if axis == 2 then 1.0 else 0.0)
  }

  function Transpose(m: Mat): Mat {
    Mat(Vec(m.r0.x, m.r1.x, m.r2.x), Vec(m.r0.y, m.r1.y, m.r2.y), Vec(m.r0.z, m.r1.z, m.r2.z))
  }

  /** Matrix times column vector. */
  function Apply(m: Mat, v: Vec): Vec { Vec(Inner(m.r0, v), Inner(m.r1, v), Inner(m.r2, v)) }

  /** Row vector times matrix. */
  function RowTimes(v: Vec, m: Mat): Vec {
    Vec(v.x * m.r0.x + v.y * m.r1.x + v.z * m.r2.x,
        v.x * m.r0.y + v.y * m.r1.y + v.z * m.r2.y,
        v.x * m.r0.z + v.y * m.r1.z + v.z * m.r2.z)
  }

  function Mul(a: Mat, b: Mat): Mat { Mat(RowTimes(a.r0, b), RowTimes(a.r1, b), RowTimes(a.r2, b)) }

  function Trace(m: Mat): real { m.r0.x + m.r1.y + m.r2.z }

  /** The sum of the squares of all entries. */
  function Frobenius(m: Mat): real { Inner(m.r0, m.r0) + Inner(m.r1, m.r1) + Inner(m.r2, m.r2) }

  ghost predicate Orthonormal(m: Mat) {
    Mul(Transpose(m), m) == IDENTITY && Mul(m, Transpose(m)) == IDENTITY
  }

  ghost predicate Symmetric(m: Mat) { Transpose(m) == m }

  lemma ThreeProducts(a: real, b: real, c: real, a': real, b': real, c': real, w: real)
    ensures (a * a' + b * b' + c * c') * w == a * (a' * w) + b * (b' * w) + c * (c' * w)
  {
  }

  lemma ThreeSums(a: real, p: real, q: real, r: real)
    ensures a * (p + q + r) == a * p + a * q + a * r
  {
  }

  /** (v b) w = v (b w). */
  lemma RowColumnAssociates(v: Vec, b: Mat, w: Vec)
    ensures Inner(RowTimes(v, b), w) == Inner(v, Apply(b, w))
  {
    ThreeProducts(v.x, v.y, v.z, b.r0.x, b.r1.x, b.r2.x, w.x);
    ThreeProducts(v.x, v.y, v.z, b.r0.y, b.r1.y, b.r2.y, w.y);
    ThreeProducts(v.x, v.y, v.z, b.r0.z, b.r1.z, b.r2.z, w.z);
    ThreeSums(v.x, b.r0.x * w.x, b.r0.y * w.y, b.r0.z * w.z);
    ThreeSums(v.y, b.r1.x * w.x, b.r1.y * w.y, b.r1.z * w.z);
    ThreeSums(v.z, b.r2.x * w.x, b.r2.y * w.y, b.r2.z * w.z);
  }

  lemma RowTimesAssociates(v: Vec, b: Mat, c: Mat)
    ensures RowTimes(RowTimes(v, b), c) == RowTimes(v, Mul(b, c))
  {
    var ct := Transpose(c);
    RowColumnAssociates(v, b, ct.r0);
    RowColumnAssociates(v, b, ct.r1);
    RowColumnAssociates(v, b, ct.r2);
  }

  lemma MulAssociates(a: Mat, b: Mat, c: Mat)
    ensures Mul(Mul(a, b), c) == Mul(a, Mul(b, c))
  {
    hide RowTimes;
    RowTimesAssociates(a.r0, b, c);
    RowTimesAssociates(a.r1, b, c);
    RowTimesAssociates(a.r2, b, c);
  }

  lemma MulTransposes(a: Mat, b: Mat)
    ensures Transpose(Mul(a, b)) == Mul(Transpose(b), Transpose(a))
  {
  }

  lemma MulIdentity(a: Mat)
    ensures Mul(a, IDENTITY) == a && Mul(IDENTITY, a) == a
  {
  }

  lemma ApplyAssociates(a: Mat, b: Mat, v: Vec)
    ensures Apply(a, Apply(b, v)) == Apply(Mul(a, b), v)
  {
  }

  lemma ApplyLinear(m: Mat, a: Vec, b: Vec)
    ensures Apply(m, Plus(a, b)) == Plus(Apply(m, a), Apply(m, b))
    ensures Apply(m, Minus(a, b)) == Minus(Apply(m, a), Apply(m, b))
  {
  }

  lemma ScaledApply(m: Mat, h: real, x: Vec)
    ensures Apply(m, Scale(h, x)) == Scale(h, Apply(m, x))
  {
    assert Inner(m.r0, Scale(h, x)) == h * Inner(m.r0, x);
    assert Inner(m.r1, Scale(h, x)) == h * Inner(m.r1, x);
    assert Inner(m.r2, Scale(h, x)) == h * Inner(m.r2, x);
  }

  lemma ApplyIdentity(v: Vec)
    ensures Apply(IDENTITY, v) == v
  {
  }

  lemma TraceCommutes(a: Mat, b: Mat)
    ensures Trace(Mul(a, b)) == Trace(Mul(b, a))
  {
  }

  lemma FrobeniusIsTrace(m: Mat)
    ensures Frobenius(m) == Trace(Mul(Transpose(m), m))
  {
  }

  /** A product of orthonormal matrices is orthonormal. */
  lemma OrthonormalProduct(a: Mat, b: Mat)
    requires Orthonormal(a) && Orthonormal(b)
    ensures Orthonormal(Mul(a, b))
  {
    hide Mul;
    hide Transpose;
    var at, bt := Transpose(a), Transpose(b);
    MulTransposes(a, b);
    SandwichCancels(bt, at, a, b);
    SandwichCancels(a, b, bt, at);
  }

  /** a b c d = a d when b c is the identity. */
  lemma SandwichCancels(a: Mat, b: Mat, c: Mat, d: Mat)
    requires Mul(b, c) == IDENTITY
    ensures Mul(Mul(a, b), Mul(c, d)) == Mul(a, d)
  {
    hide Mul;
    MulAssociates(a, b, Mul(c, d));
    MulAssociates(b, c, d);
    MulIdentity(d);
  }

  lemma TransposeInvolutive(m: Mat)
    ensures Transpose(Transpose(m)) == m
  {
  }
}
