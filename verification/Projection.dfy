/** The pinhole projection of src/stroy/camera/projection.py on exact reals.
    Sine and cosine are an arbitrary function whose pairs lie on the unit circle. */
module Projection {
  import opened Wrappers
  import opened Mat3

  datatype Angle = Angle(cos: real, sin: real)

  type UnitAngle = a: Angle | a.cos * a.cos + a.sin * a.sin == 1.0 witness Angle(1.0, 0.0)

  /** Maps an angle to its cosine and sine. */
  type Trig = real -> UnitAngle

  datatype Transform = Transform(translation: Vec, rotation: Vec)

  datatype IntrinsicsData = Intrinsics(fx: real, fy: real, cx: real, cy: real)

  /** Validated intrinsics: both focal lengths are positive. */
  type Intrinsics = i: IntrinsicsData | i.fx > 0.0 && i.fy > 0.0 witness Intrinsics(1.0, 1.0, 0.0, 0.0)

  datatype Pixel = Pixel(u: real, v: real)

  datatype Observation = Observation(world: Vec, image: Pixel)

  datatype Projected = Projected(u: real, v: real, depth: real)

  // ---------------------------------------------------------------------
  // Rotation
  // ---------------------------------------------------------------------

  function AboutX(a: UnitAngle): Mat {
    Mat(Vec(1.0, 0.0, 0.0), Vec(0.0, a.cos, -a.sin), Vec(0.0, a.sin, a.cos))
  }

  function AboutY(a: UnitAngle): Mat {
    Mat(Vec(a.cos, 0.0, a.sin), Vec(0.0, 1.0, 0.0), Vec(-a.sin, 0.0, a.cos))
  }

  function AboutZ(a: UnitAngle): Mat {
    Mat(Vec(a.cos, -a.sin, 0.0), Vec(a.sin, a.cos, 0.0), Vec(0.0, 0.0, 1.0))
  }

  /** _rotation_matrix_xyz: Z (Y X). */
  function Rotation(trig: Trig, rotation: Vec): Mat {
    Mul(AboutZ(trig(rotation.z)), Mul(AboutY(trig(rotation.y)), AboutX(trig(rotation.x))))
  }

  lemma AxisRotationsOrthonormal(a: UnitAngle)
    ensures Orthonormal(AboutX(a)) && Orthonormal(AboutY(a)) && Orthonormal(AboutZ(a))
  {
    hide Orthonormal;
    AboutXOrthonormal(a);
    AboutYOrthonormal(a);
    AboutZOrthonormal(a);
  }

  lemma AboutXOrthonormal(a: UnitAngle)
    ensures Orthonormal(AboutX(a))
  {
  }

  lemma AboutYOrthonormal(a: UnitAngle)
    ensures Orthonormal(AboutY(a))
  {
  }

  lemma AboutZOrthonormal(a: UnitAngle)
    ensures Orthonormal(AboutZ(a))
  {
  }

  lemma RotationOrthonormal(trig: Trig, rotation: Vec)
    ensures Orthonormal(Rotation(trig, rotation))
  {
    hide Orthonormal;
    var x, y, z := trig(rotation.x), trig(rotation.y), trig(rotation.z);
    AxisRotationsOrthonormal(x);
    AxisRotationsOrthonormal(y);
    AxisRotationsOrthonormal(z);
    OrthonormalProduct(AboutY(y), AboutX(x));
    OrthonormalProduct(AboutZ(z), Mul(AboutY(y), AboutX(x)));
  }

  /** The triple product of the rows. */
  function Determinant(m: Mat): real {
    Triple(m.r0.x, m.r0.y, m.r0.z, m.r1.x, m.r1.y, m.r1.z, m.r2.x, m.r2.y, m.r2.z)
  }

  function Triple(a: real, b: real, c: real, d: real, e: real, f: real, g: real, h: real, i: real): real {
    a * Minor(e, f, h, i) + b * Minor(f, d, i, g) + c * Minor(d, e, g, h)
  }

  function Minor(a: real, b: real, c: real, d: real): real { a * d - b * c }

  function TurnFirst(a: UnitAngle, u: real, v: real): real { a.cos * u - a.sin * v }

  function TurnSecond(a: UnitAngle, u: real, v: real): real { a.sin * u + a.cos * v }

  /** (t, t') is (p, q) turned by the angle. */
  ghost predicate IsTurned(a: UnitAngle, p: real, q: real, t: real, t': real) {
    t == TurnFirst(a, p, q) && t' == TurnSecond(a, p, q)
  }

  /** Turning two rows by a unit angle keeps their 2x2 minors. */
  lemma TurnedMinor(a: UnitAngle, p: real, q: real, t: real, t': real, u: real, v: real, w: real, w': real)
    requires IsTurned(a, p, q, t, t') && IsTurned(a, u, v, w, w')
    ensures Minor(t, w, t', w') == Minor(p, u, q, v)
  {
    hide Minor;
    TurnedProducts(a.cos, a.sin, p, q, u, v, t, t', w, w');
    MinorIs(t, w, t', w');
    MinorIs(p, u, q, v);
  }

  lemma MinorIs(a: real, b: real, c: real, d: real)
    ensures Minor(a, b, c, d) == a * d - b * c
  {
  }

  lemma TurnedProducts(c: real, s: real, p: real, q: real, u: real, v: real, t: real, t': real, w: real, w': real)
    requires c * c + s * s == 1.0
    requires t == c * p - s * q && t' == s * p + c * q && w == c * u - s * v && w' == s * u + c * v
    ensures t * w' - w * t' == p * v - u * q
  {
    SameProduct(t, w', c * p - s * q, s * u + c * v);
    SameProduct(w, t', c * u - s * v, s * p + c * q);
    TurnedIdentity(c, s, p, q, u, v);
    SameProduct(c * c + s * s, p * v - u * q, 1.0, p * v - u * q);
  }

  lemma TurnedIdentity(c: real, s: real, p: real, q: real, u: real, v: real)
    ensures (c * p - s * q) * (s * u + c * v) - (c * u - s * v) * (s * p + c * q) == (c * c + s * s) * (p * v - u * q)
  {
  }

  lemma SameProduct(a: real, b: real, a': real, b': real)
    requires a == a' && b == b'
    ensures a * b == a' * b'
  {
  }

  /** The rotation is proper: it does not mirror. */
  lemma RotationProper(trig: Trig, rotation: Vec)
    ensures Determinant(Rotation(trig, rotation)) == 1.0
  {
    var x, y, z := trig(rotation.x), trig(rotation.y), trig(rotation.z);
    var yx := Mul(AboutY(y), AboutX(x));
    assert Determinant(AboutX(x)) == 1.0;
    TurnedAboutY(y, AboutX(x));
    TurnedAboutZ(z, yx);
  }

  lemma TripleCycles(a: real, b: real, c: real, d: real, e: real, f: real, g: real, h: real, i: real)
    ensures Triple(a, b, c, d, e, f, g, h, i) == Triple(g, h, i, a, b, c, d, e, f)
    ensures Triple(a, b, c, d, e, f, g, h, i) == Triple(d, e, f, g, h, i, a, b, c)
  {
  }

  lemma AboutZTurns(a: UnitAngle, m: Mat)
    ensures var t := Mul(AboutZ(a), m);
            && IsTurned(a, m.r0.x, m.r1.x, t.r0.x, t.r1.x) && IsTurned(a, m.r0.y, m.r1.y, t.r0.y, t.r1.y)
            && IsTurned(a, m.r0.z, m.r1.z, t.r0.z, t.r1.z) && t.r2 == m.r2
  {
  }

  lemma TurnedAboutZ(a: UnitAngle, m: Mat)
    ensures Determinant(Mul(AboutZ(a), m)) == Determinant(m)
  {
    hide Mul;
    hide IsTurned;
    var t := Mul(AboutZ(a), m);
    var p, q, t0, t1 := m.r0, m.r1, t.r0, t.r1;
    AboutZTurns(a, m);
    TripleCycles(t.r0.x, t.r0.y, t.r0.z, t.r1.x, t.r1.y, t.r1.z, t.r2.x, t.r2.y, t.r2.z);
    TripleCycles(m.r0.x, m.r0.y, m.r0.z, m.r1.x, m.r1.y, m.r1.z, m.r2.x, m.r2.y, m.r2.z);
    hide Minor;
    TurnedMinor(a, p.y, q.y, t0.y, t1.y, p.z, q.z, t0.z, t1.z);
    TurnedMinor(a, p.z, q.z, t0.z, t1.z, p.x, q.x, t0.x, t1.x);
    TurnedMinor(a, p.x, q.x, t0.x, t1.x, p.y, q.y, t0.y, t1.y);
  }

  lemma AboutYTurns(a: UnitAngle, m: Mat)
    ensures var t := Mul(AboutY(a), m);
            && IsTurned(a, m.r2.x, m.r0.x, t.r2.x, t.r0.x) && IsTurned(a, m.r2.y, m.r0.y, t.r2.y, t.r0.y)
            && IsTurned(a, m.r2.z, m.r0.z, t.r2.z, t.r0.z) && t.r1 == m.r1
  {
  }

  lemma TurnedAboutY(a: UnitAngle, m: Mat)
    ensures Determinant(Mul(AboutY(a), m)) == Determinant(m)
  {
    hide Mul;
    hide IsTurned;
    var t := Mul(AboutY(a), m);
    var p, q, t0, t1 := m.r2, m.r0, t.r2, t.r0;
    AboutYTurns(a, m);
    TripleCycles(t.r0.x, t.r0.y, t.r0.z, t.r1.x, t.r1.y, t.r1.z, t.r2.x, t.r2.y, t.r2.z);
    TripleCycles(m.r0.x, m.r0.y, m.r0.z, m.r1.x, m.r1.y, m.r1.z, m.r2.x, m.r2.y, m.r2.z);
    hide Minor;
    TurnedMinor(a, p.y, q.y, t0.y, t1.y, p.z, q.z, t0.z, t1.z);
    TurnedMinor(a, p.z, q.z, t0.z, t1.z, p.x, q.x, t0.x, t1.x);
    TurnedMinor(a, p.x, q.x, t0.x, t1.x, p.y, q.y, t0.y, t1.y);
  }

  // ---------------------------------------------------------------------
  // Posing and projecting
  // ---------------------------------------------------------------------

  /** transform_local_point: camera coordinates to world coordinates. */
  function TransformLocalPoint(trig: Trig, pose: Transform, local: Vec): Vec {
    Plus(pose.translation, Apply(Rotation(trig, pose.rotation), local))
  }

  /** World coordinates to camera coordinates. */
  function CameraPoint(trig: Trig, pose: Transform, world: Vec): Vec {
    Apply(Transpose(Rotation(trig, pose.rotation)), Minus(world, pose.translation))
  }

  /** The pinhole image of a point in camera coordinates; None when it is not in front. */
  function Pinhole(intrinsics: Intrinsics, local: Vec): Option<Projected> {
    var depth := -local.z;
    if depth <= 0.0 then None
    else Some(Projected(intrinsics.fx * (local.x / depth) + intrinsics.cx,
                        intrinsics.cy - intrinsics.fy * (local.y / depth), depth))
  }

  /** project_world_point; None stands for "point is behind camera". */
  function ProjectWorldPoint(trig: Trig, intrinsics: Intrinsics, pose: Transform, world: Vec): Option<Projected> {
    Pinhole(intrinsics, CameraPoint(trig, pose, world))
  }

  /** The point turned about one axis, counter-clockwise seen from its positive end. */
  function TurnAboutX(a: Angle, p: Vec): Vec { Vec(p.x, a.cos * p.y - a.sin * p.z, a.sin * p.y + a.cos * p.z) }

  function TurnAboutY(a: Angle, p: Vec): Vec { Vec(a.sin * p.z + a.cos * p.x, p.y, a.cos * p.z - a.sin * p.x) }

  function TurnAboutZ(a: Angle, p: Vec): Vec { Vec(a.cos * p.x - a.sin * p.y, a.sin * p.x + a.cos * p.y, p.z) }

  /** Posing turns the point by the first angle about x, by the second about y, by the third about
      z, in this order, and then moves it. */
  lemma PosingTurnsThenMoves(trig: Trig, pose: Transform, p: Vec)
    ensures TransformLocalPoint(trig, pose, p)
         == Plus(pose.translation,
                 TurnAboutZ(trig(pose.rotation.z), TurnAboutY(trig(pose.rotation.y), TurnAboutX(trig(pose.rotation.x), p))))
  {
    var x, y, z := trig(pose.rotation.x), trig(pose.rotation.y), trig(pose.rotation.z);
    AxisTurnX(x, p);
    AxisTurnY(y, TurnAboutX(x, p));
    AxisTurnZ(z, TurnAboutY(y, TurnAboutX(x, p)));
    hide Apply, Mul, AboutX, AboutY, AboutZ, TurnAboutX, TurnAboutY, TurnAboutZ;
    ApplyAssociates(AboutY(y), AboutX(x), p);
    ApplyAssociates(AboutZ(z), Mul(AboutY(y), AboutX(x)), p);
  }

  lemma AxisTurnX(a: UnitAngle, p: Vec)
    ensures Apply(AboutX(a), p) == TurnAboutX(a, p)
  {
  }

  lemma AxisTurnY(a: UnitAngle, p: Vec)
    ensures Apply(AboutY(a), p) == TurnAboutY(a, p)
  {
  }

  lemma AxisTurnZ(a: UnitAngle, p: Vec)
    ensures Apply(AboutZ(a), p) == TurnAboutZ(a, p)
  {
  }

  /** The entries from which the three angles can be read back, as the Euler decomposition does. */
  lemma RotationEntries(trig: Trig, rotation: Vec)
    ensures var x, y, z := trig(rotation.x), trig(rotation.y), trig(rotation.z);
            var r := Rotation(trig, rotation);
            && r.r0 == Vec(z.cos * y.cos, z.cos * (y.sin * x.sin) - z.sin * x.cos, z.cos * (y.sin * x.cos) + z.sin * x.sin)
            && r.r1 == Vec(z.sin * y.cos, z.sin * (y.sin * x.sin) + z.cos * x.cos, z.sin * (y.sin * x.cos) - z.cos * x.sin)
            && r.r2 == Vec(-y.sin, y.cos * x.sin, y.cos * x.cos)
  {
    var x, y, z := trig(rotation.x), trig(rotation.y), trig(rotation.z);
    YXRows(y, x);
    ZRows(z, Mul(AboutY(y), AboutX(x)));
    NegatedProduct(z.sin, x.sin);
    NegatedProduct(z.cos, x.sin);
    hide Mul, AboutX, AboutY, AboutZ;
  }

  lemma NegatedProduct(a: real, b: real)
    ensures a * -b == -(a * b) && a * 0.0 == 0.0
  {
  }

  lemma YXRows(y: UnitAngle, x: UnitAngle)
    ensures var m := Mul(AboutY(y), AboutX(x));
            && m.r0 == Vec(y.cos, y.sin * x.sin, y.sin * x.cos)
            && m.r1 == Vec(0.0, x.cos, -x.sin)
            && m.r2 == Vec(-y.sin, y.cos * x.sin, y.cos * x.cos)
  {
  }

  lemma ZRows(z: UnitAngle, m: Mat)
    ensures var r := Mul(AboutZ(z), m);
            && r.r0 == Minus(Scale(z.cos, m.r0), Scale(z.sin, m.r1))
            && r.r1 == Plus(Scale(z.sin, m.r0), Scale(z.cos, m.r1))
            && r.r2 == m.r2
  {
    RowOfTwo(z.cos, -z.sin, m);
    RowOfTwo(z.sin, z.cos, m);
    Negation(z.sin, m.r1);
    hide RowTimes;
    ThirdRow(m);
  }

  lemma RowOfTwo(a: real, b: real, m: Mat)
    ensures RowTimes(Vec(a, b, 0.0), m) == Plus(Scale(a, m.r0), Scale(b, m.r1))
  {
  }

  lemma ThirdRow(m: Mat)
    ensures RowTimes(Vec(0.0, 0.0, 1.0), m) == m.r2
  {
  }

  lemma Negation(k: real, v: Vec)
    ensures forall a: Vec :: Plus(a, Scale(-k, v)) == Minus(a, Scale(k, v))
  {
  }

  /** Posing and un-posing are mutually inverse. */
  lemma PosingInverts(trig: Trig, pose: Transform, p: Vec)
    ensures CameraPoint(trig, pose, TransformLocalPoint(trig, pose, p)) == p
    ensures TransformLocalPoint(trig, pose, CameraPoint(trig, pose, p)) == p
  {
    var r := Rotation(trig, pose.rotation);
    RotationOrthonormal(trig, pose.rotation);
    hide Rotation;
    hide Apply;
    hide Mul;
    hide Transpose;
    assert Minus(Plus(pose.translation, Apply(r, p)), pose.translation) == Apply(r, p);
    ApplyAssociates(Transpose(r), r, p);
    ApplyIdentity(p);
    var d := Minus(p, pose.translation);
    ApplyAssociates(r, Transpose(r), d);
    ApplyIdentity(d);
    assert Plus(pose.translation, d) == p;
  }

  /** Projecting a posed point gives the plain pinhole image of the local point. */
  lemma ProjectPosed(trig: Trig, intrinsics: Intrinsics, pose: Transform, local: Vec)
    ensures ProjectWorldPoint(trig, intrinsics, pose, TransformLocalPoint(trig, pose, local)) == Pinhole(intrinsics, local)
  {
    PosingInverts(trig, pose, local);
  }

  /** The camera-space point seen at pixel (u, v) and the given depth. */
  function Unproject(intrinsics: Intrinsics, seen: Projected): Vec {
    Vec(seen.depth * (seen.u - intrinsics.cx) / intrinsics.fx, seen.depth * (intrinsics.cy - seen.v) / intrinsics.fy, -seen.depth)
  }

  lemma RatioRoundTrip(f: real, d: real, a: real)
    requires f > 0.0 && d > 0.0
    ensures f * ((d * a / f) / d) == a
    ensures d * (f * (a / d)) / f == a
  {
    assert (d * a / f) * f == d * a;
    var q := (d * a / f) / d;
    assert q * d == d * a / f;
    assert (f * q) * d == a * d;
    assert ((f * q) - a) * d == 0.0;
    var r := a / d;
    assert r * d == a;
    assert d * (f * r) == a * f;
    assert (a * f) / f == a;
  }

  /** Pixel plus depth determine the world point and the other way round:
      projection is a bijection from the half-space in front of the camera. */
  lemma ProjectionBijective(trig: Trig, intrinsics: Intrinsics, pose: Transform, seen: Projected, world: Vec)
    requires seen.depth > 0.0
    ensures ProjectWorldPoint(trig, intrinsics, pose, world) == Some(seen)
       <==> world == TransformLocalPoint(trig, pose, Unproject(intrinsics, seen))
  {
    hide Rotation;
    PosingInverts(trig, pose, world);
    PosingInverts(trig, pose, Unproject(intrinsics, seen));
    hide TransformLocalPoint;
    hide CameraPoint;
    var local := CameraPoint(trig, pose, world);
    PinholeInverse(intrinsics, seen, local);
  }

  lemma PinholeInverse(intrinsics: Intrinsics, seen: Projected, local: Vec)
    requires seen.depth > 0.0
    ensures Pinhole(intrinsics, local) == Some(seen) <==> local == Unproject(intrinsics, seen)
  {
    var d := seen.depth;
    RatioRoundTrip(intrinsics.fx, d, seen.u - intrinsics.cx);
    RatioRoundTrip(intrinsics.fy, d, intrinsics.cy - seen.v);
    if -local.z == d {
      RatioRoundTrip(intrinsics.fx, d, local.x);
      RatioRoundTrip(intrinsics.fy, d, local.y);
    }
  }

  // ---------------------------------------------------------------------
  // camera_residual_px
  // ---------------------------------------------------------------------

  /** Squared reprojection error of one observation; zero when it is behind. */
  function SquaredError(trig: Trig, intrinsics: Intrinsics, pose: Transform, o: Observation): (e: real)
    ensures e >= 0.0
  {
    match ProjectWorldPoint(trig, intrinsics, pose, o.world)
    case None => 0.0
    case Some(p) =>
      var du, dv := p.u - o.image.u, p.v - o.image.v;
      du * du + dv * dv
  }

  function TotalError(trig: Trig, intrinsics: Intrinsics, pose: Transform, observations: seq<Observation>, n: nat): (e: real)
    requires n <= |observations|
    ensures e >= 0.0
  {
    if n == 0 then 0.0
    else
      TotalError(trig, intrinsics, pose, observations, n - 1) + SquaredError(trig, intrinsics, pose, observations[n - 1])
  }

  predicate InFront(trig: Trig, intrinsics: Intrinsics, pose: Transform, o: Observation) {
    ProjectWorldPoint(trig, intrinsics, pose, o.world).Some?
  }

  function VisibleCount(trig: Trig, intrinsics: Intrinsics, pose: Transform, observations: seq<Observation>, n: nat): (c: nat)
    requires n <= |observations|
    ensures c <= n
    ensures c == n <==> forall i | 0 <= i < n :: InFront(trig, intrinsics, pose, observations[i])
  {
    if n == 0 then 0
    else
      VisibleCount(trig, intrinsics, pose, observations, n - 1)
      + (if InFront(trig, intrinsics, pose, observations[n - 1]) then 1 else 0)
  }

  /** `sqrt` is the nonnegative square root. */
  ghost predicate IsSqrt(sqrt: real -> real) {
    forall v: real | v >= 0.0 :: sqrt(v) >= 0.0 && sqrt(v) * sqrt(v) == v
  }

  lemma NonnegativeRatio(a: real, b: real)
    requires a >= 0.0 && b > 0.0
    ensures a / b >= 0.0
  {
  }

  /** Root of the mean squared error over the observations in front; None when there is none. */
  method CameraResidual(
      trig: Trig, sqrt: real -> real, intrinsics: Intrinsics, pose: Transform, observations: seq<Observation>)
    returns (residual: Option<real>)
    requires IsSqrt(sqrt)
    ensures var visible := VisibleCount(trig, intrinsics, pose, observations, |observations|);
            if visible == 0 then residual.None?
            else
              && residual.Some? && residual.value >= 0.0
              && residual.value * residual.value
                 == TotalError(trig, intrinsics, pose, observations, |observations|) / (visible as real)
  {
    hide ProjectWorldPoint;
    if observations == [] {
      return None;
    }
    var squaredError, valid := 0.0, 0;
    for index := 0 to |observations|
      invariant squaredError == TotalError(trig, intrinsics, pose, observations, index)
      invariant valid == VisibleCount(trig, intrinsics, pose, observations, index)
    {
      var observation := observations[index];
      match ProjectWorldPoint(trig, intrinsics, pose, observation.world) {
        case None =>
          continue;
        case Some(p) =>
          var du, dv := p.u - observation.image.u, p.v - observation.image.v;
          squaredError := squaredError + (du * du + dv * dv);
          valid := valid + 1;
      }
    }
    if valid == 0 {
      return None;
    }
    var mean := squaredError / (valid as real);
    assert mean >= 0.0 by { NonnegativeRatio(squaredError, valid as real); }
    residual := Some(sqrt(mean));
  }
}
