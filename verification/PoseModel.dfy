/** The pose parameters, residuals and Jacobian of src/stroy/camera/solve.py. */
module PoseModel {
  import opened Wrappers
  import opened Reals
  import opened Vectors
  import opened Mat3
  import opened Projection
  import opened NormalEquations

  /** Six parameters: translation, then XYZ angles in radians. */
  type Params = p: seq<real> | |p| == 6 witness [0.0, 0.0, 0.0, 0.0, 0.0, 0.0]

  datatype Problem = Problem(trig: Trig, intrinsics: Intrinsics, observations: seq<Observation>)

  function PoseOf(p: Params): Transform {
    Transform(Vec(p[0], p[1], p[2]), Vec(p[3], p[4], p[5]))
  }

  function ParamsOf(t: Transform): Params {
    [t.translation.x, t.translation.y, t.translation.z, t.rotation.x, t.rotation.y, t.rotation.z]
  }

  // ---------------------------------------------------------------------
  // Residuals
  // ---------------------------------------------------------------------

  predicate Sees(problem: Problem, p: Params, o: Observation) {
    InFront(problem.trig, problem.intrinsics, PoseOf(p), o)
  }

  ghost predicate SeesFirst(problem: Problem, p: Params, n: nat)
    requires n <= |problem.observations|
  {
    forall i | 0 <= i < n :: Sees(problem, p, problem.observations[i])
  }

  ghost predicate SeesAll(problem: Problem, p: Params) {
    SeesFirst(problem, p, |problem.observations|)
  }

  function ImageOf(problem: Problem, p: Params, o: Observation): Projected
    requires Sees(problem, p, o)
  {
    ProjectWorldPoint(problem.trig, problem.intrinsics, PoseOf(p), o.world).value
  }

  /** u and v residuals of the first `n` observations, alternating. */
  ghost function ResidualsOf(problem: Problem, p: Params, n: nat): (r: seq<real>)
    requires n <= |problem.observations| && SeesFirst(problem, p, n)
    ensures |r| == 2 * n
  {
    if n == 0 then []
    else
      var o := problem.observations[n - 1];
      var image := ImageOf(problem, p, o);
      ResidualsOf(problem, p, n - 1) + [image.u - o.image.u, image.v - o.image.v]
  }

  /** Every residual, for a pose that has all observations in front. */
  ghost function AllResiduals(problem: Problem, p: Params): (r: seq<real>)
    requires SeesAll(problem, p)
    ensures |r| == 2 * |problem.observations|
  {
    ResidualsOf(problem, p, |problem.observations|)
  }

  /** _residuals; None as soon as one observation is behind the camera. */
  method Residuals(problem: Problem, p: Params) returns (r: Option<seq<real>>)
    ensures r.Some? <==> SeesAll(problem, p)
    ensures r.Some? ==> r.value == AllResiduals(problem, p)
  {
    var residuals: seq<real> := [];
    for index := 0 to |problem.observations|
      invariant SeesFirst(problem, p, index)
      invariant residuals == ResidualsOf(problem, p, index)
    {
      var o := problem.observations[index];
      if !Sees(problem, p, o) {
        return None;
      }
      var image := ImageOf(problem, p, o);
      residuals := residuals + [image.u - o.image.u, image.v - o.image.v];
    }
    r := Some(residuals);
  }

  /** Sum of squares of the first `n` residuals. */
  function SumOfSquares(r: seq<real>, n: nat): (s: real)
    requires n <= |r|
    ensures s >= 0.0
  {
    if n == 0 then 0.0 else SumOfSquares(r, n - 1) + r[n - 1] * r[n - 1]
  }

  ghost function Cost(problem: Problem, p: Params): (c: real)
    requires SeesAll(problem, p)
    ensures c >= 0.0
  {
    SumOfSquares(AllResiduals(problem, p), 2 * |problem.observations|)
  }

  lemma {:induction false} SumOfSquaresAgrees(r: seq<real>, r': seq<real>, n: nat)
    requires n <= |r| && n <= |r'| && r[..n] == r'[..n]
    ensures SumOfSquares(r, n) == SumOfSquares(r', n)
  {
    if n > 0 {
      assert r[n - 1] == r[..n][n - 1] == r'[..n][n - 1] == r'[n - 1];
      assert r[..n - 1] == r[..n][..n - 1] == r'[..n - 1];
      SumOfSquaresAgrees(r, r', n - 1);
    }
  }

  lemma VisibleError(problem: Problem, p: Params, o: Observation)
    requires Sees(problem, p, o)
    ensures var du, dv := ImageOf(problem, p, o).u - o.image.u, ImageOf(problem, p, o).v - o.image.v;
            SquaredError(problem.trig, problem.intrinsics, PoseOf(p), o) == du * du + dv * dv
  {
  }

  /** The solver's cost is the validator's total squared error. */
  lemma {:induction false} CostIsTotalError(problem: Problem, p: Params, n: nat)
    requires n <= |problem.observations| && SeesFirst(problem, p, n)
    ensures SumOfSquares(ResidualsOf(problem, p, n), 2 * n)
         == TotalError(problem.trig, problem.intrinsics, PoseOf(p), problem.observations, n)
  {
    hide Sees;
    hide ImageOf;
    hide SquaredError;
    if n > 0 {
      CostIsTotalError(problem, p, n - 1);
      var o := problem.observations[n - 1];
      VisibleError(problem, p, o);
      var r, r' := ResidualsOf(problem, p, n), ResidualsOf(problem, p, n - 1);
      var du, dv := ImageOf(problem, p, o).u - o.image.u, ImageOf(problem, p, o).v - o.image.v;
      assert r == r' + [du, dv];
      SumOfSquaresAppended(r', du, dv);
    }
  }

  lemma SumOfSquaresAppended(r: seq<real>, a: real, b: real)
    ensures SumOfSquares(r + [a, b], |r| + 2) == SumOfSquares(r, |r|) + (a * a + b * b)
  {
    var s := r + [a, b];
    SumOfSquaresAgrees(s, r, |r|);
    assert SumOfSquares(s, |r| + 2) == SumOfSquares(s, |r| + 1) + b * b;
    assert SumOfSquares(s, |r| + 1) == SumOfSquares(s, |r|) + a * a;
  }

  // ---------------------------------------------------------------------
  // Jacobian
  // ---------------------------------------------------------------------

  // The program's finite-difference step, 1e-6.
  const FD_STEP: real := 1.0 / 1000000.0

  /** Entrywise (a - b) / (2 step). */
  function CentralDifference(a: Mat, b: Mat): Mat {
    Mat(Scale(1.0 / (2.0 * FD_STEP), Minus(a.r0, b.r0)),
        Scale(1.0 / (2.0 * FD_STEP), Minus(a.r1, b.r1)),
        Scale(1.0 / (2.0 * FD_STEP), Minus(a.r2, b.r2)))
  }

  /** d(camera_from_world)/d(axis). */
  function RotationJacobian(trig: Trig, rotation: Vec, axis: nat): Mat
    requires axis < 3
  {
    var plus := Plus(rotation, Scale(FD_STEP, Unit(axis)));
    var minus := Minus(rotation, Scale(FD_STEP, Unit(axis)));
    Transpose(CentralDifference(Rotation(trig, plus), Rotation(trig, minus)))
  }

  /** d(camera point)/d(parameter) at one world point. */
  function CameraDerivative(trig: Trig, pose: Transform, world: Vec, parameter: nat): Vec
    requires parameter < 6
  {
    if parameter < 3 then Minus(Vec(0.0, 0.0, 0.0), Apply(Transpose(Rotation(trig, pose.rotation)), Unit(parameter)))
    else Apply(RotationJacobian(trig, pose.rotation, parameter - 3), Minus(world, pose.translation))
  }

  /** d(u) when the camera point `c` moves along `dc`. */
  function PartialU(i: Intrinsics, c: Vec, dc: Vec): real
    requires c.z < 0.0
  {
    var depth := -c.z;
    i.fx * (dc.x * depth + c.x * dc.z) * (1.0 / (depth * depth))
  }

  function PartialV(i: Intrinsics, c: Vec, dc: Vec): real
    requires c.z < 0.0
  {
    var depth := -c.z;
    -i.fy * (dc.y * depth + c.y * dc.z) * (1.0 / (depth * depth))
  }

  function TermOf(problem: Problem, p: Params, o: Observation): Term
    requires Sees(problem, p, o)
  {
    var pose := PoseOf(p);
    var c := CameraPoint(problem.trig, pose, o.world);
    Term(seq(6, k requires 0 <= k < 6 => PartialU(problem.intrinsics, c, CameraDerivative(problem.trig, pose, o.world, k))),
         seq(6, k requires 0 <= k < 6 => PartialV(problem.intrinsics, c, CameraDerivative(problem.trig, pose, o.world, k))))
  }

  /** What a derivative entry means, without a quotient: step * slope * depth^2 = f (dx depth + x dz)
      for the change (dx, dz) of the camera point over that step. */
  ghost predicate IsSlope(slope: real, step: real, f: real, x: real, depth: real, dx: real, dz: real) {
    step * slope * (depth * depth) == f * (dx * depth + x * dz)
  }

  ghost predicate IsCentralSlopes(i: Intrinsics, c: Vec, ahead: Vec, behind: Vec, du: real, dv: real) {
    && IsSlope(du, 0.000002, i.fx, c.x, -c.z, ahead.x - behind.x, ahead.z - behind.z)
    && IsSlope(dv, 0.000002, -i.fy, c.y, -c.z, ahead.y - behind.y, ahead.z - behind.z)
  }

  /** The rotation entries of a term: the quotient rule applied to the central difference of the
      camera point under a turn by plus and minus the step. */
  lemma RotationEntriesAreCentralSlopes(problem: Problem, p: Params, o: Observation, axis: nat)
    requires axis < 3 && Sees(problem, p, o)
    ensures var pose := PoseOf(p);
            var turn := Scale(0.000001, Unit(axis));
            IsCentralSlopes(problem.intrinsics, CameraPoint(problem.trig, pose, o.world),
                            CameraPoint(problem.trig, pose.(rotation := Plus(pose.rotation, turn)), o.world),
                            CameraPoint(problem.trig, pose.(rotation := Minus(pose.rotation, turn)), o.world),
                            TermOf(problem, p, o).du[3 + axis], TermOf(problem, p, o).dv[3 + axis])
  {
    var trig, i, pose := problem.trig, problem.intrinsics, PoseOf(p);
    var turn := Scale(FD_STEP, Unit(axis));
    var c, dc := CameraPoint(trig, pose, o.world), CameraDerivative(trig, pose, o.world, 3 + axis);
    var ahead := CameraPoint(trig, pose.(rotation := Plus(pose.rotation, turn)), o.world);
    var behind := CameraPoint(trig, pose.(rotation := Minus(pose.rotation, turn)), o.world);
    var du, dv := TermOf(problem, p, o).du[3 + axis], TermOf(problem, p, o).dv[3 + axis];
    assert du == PartialU(i, c, dc) && dv == PartialV(i, c, dc);
    assert c.z < 0.0;
    RotationColumnsAreCentralDifferences(trig, pose, o.world, axis);
    hide *;
    ScaledDifference(dc, ahead, behind);
    SlopesOf(i, c, dc, ahead, behind, du, dv);
  }

  lemma ScaledDifference(dc: Vec, ahead: Vec, behind: Vec)
    requires Scale(2.0 * FD_STEP, dc) == Minus(ahead, behind)
    ensures 2.0 * FD_STEP * dc.x == ahead.x - behind.x
    ensures 2.0 * FD_STEP * dc.y == ahead.y - behind.y
    ensures 2.0 * FD_STEP * dc.z == ahead.z - behind.z
  {
  }

  lemma SlopesOf(i: Intrinsics, c: Vec, dc: Vec, ahead: Vec, behind: Vec, du: real, dv: real)
    requires c.z < 0.0 && du == PartialU(i, c, dc) && dv == PartialV(i, c, dc)
    requires 2.0 * FD_STEP * dc.x == ahead.x - behind.x
    requires 2.0 * FD_STEP * dc.y == ahead.y - behind.y
    requires 2.0 * FD_STEP * dc.z == ahead.z - behind.z
    ensures IsCentralSlopes(i, c, ahead, behind, du, dv)
  {
    hide IsSlope;
    assert 2.0 * FD_STEP == 0.000002;
    SlopeOf(i.fx, c.x, -c.z, dc.x, dc.z, 2.0 * FD_STEP, ahead.x - behind.x, ahead.z - behind.z, du);
    SlopeOf(-i.fy, c.y, -c.z, dc.y, dc.z, 2.0 * FD_STEP, ahead.y - behind.y, ahead.z - behind.z, dv);
  }

  lemma SlopeOf(f: real, x: real, d: real, dx: real, dz: real, step: real, ex: real, ez: real, slope: real)
    requires d > 0.0 && step * dx == ex && step * dz == ez
    requires slope == f * (dx * d + x * dz) * (1.0 / (d * d))
    ensures IsSlope(slope, step, f, x, d, ex, ez)
  {
    var dd, inv, a := d * d, 1.0 / (d * d), f * (dx * d + x * dz);
    PositiveProduct(d, d);
    DivTimes(1.0, dd);
    MulEqual(slope, a * inv, dd);
    MulEqual(inv * dd, 1.0, a);
    assert a * inv * dd == (inv * dd) * a;
    MulEqual(slope * dd, a, step);
    assert step * slope * dd == step * (slope * dd);
    assert step * a == f * ((step * dx) * d + x * (step * dz));
  }

  ghost function AllTerms(problem: Problem, p: Params): (t: seq<Term>)
    requires SeesAll(problem, p)
    ensures HasWidth(t, 6) && |t| == |problem.observations|
  {
    seq(|problem.observations|, i requires 0 <= i < |problem.observations| => TermOf(problem, p, problem.observations[i]))
  }

  /** _jacobian_terms; None as soon as one depth is not positive. */
  method JacobianTerms(problem: Problem, p: Params) returns (r: Option<seq<Term>>)
    ensures r.Some? <==> SeesAll(problem, p)
    ensures r.Some? ==> r.value == AllTerms(problem, p)
  {
    hide TermOf;
    var terms: seq<Term> := [];
    var pose := PoseOf(p);
    for index := 0 to |problem.observations|
      invariant |terms| == index && SeesFirst(problem, p, index)
      invariant forall i | 0 <= i < index :: terms[i] == TermOf(problem, p, problem.observations[i])
    {
      var o := problem.observations[index];
      var c := CameraPoint(problem.trig, pose, o.world);
      var depth := -c.z;
      if depth <= 0.0 {
        return None;
      }
      terms := terms + [TermOf(problem, p, o)];
    }
    r := Some(terms);
  }

  /** Moving the camera translates the camera point along the translation columns. */
  lemma TranslationMovesCameraPoint(trig: Trig, pose: Transform, world: Vec, axis: nat, h: real)
    requires axis < 3
    ensures var moved := pose.(translation := Plus(pose.translation, Scale(h, Unit(axis))));
            CameraPoint(trig, moved, world)
            == Plus(CameraPoint(trig, pose, world), Scale(h, CameraDerivative(trig, pose, world, axis)))
  {
    hide Rotation, Apply;
    var r := Transpose(Rotation(trig, pose.rotation));
    var d, e := Minus(world, pose.translation), Unit(axis);
    assert Minus(world, Plus(pose.translation, Scale(h, e))) == Minus(d, Scale(h, e));
    ApplyLinear(r, d, Scale(h, e));
    ScaledApply(r, h, e);
  }

  /** Secant form of the quotient rule: x / d moves to (x + h dx) / (d - h dz). */
  lemma SecantQuotient(x: real, d: real, dx: real, dz: real, h: real, x': real, d': real)
    requires d > 0.0 && d' > 0.0 && x' == x + h * dx && d' == d - h * dz
    ensures (x' / d' - x / d) * d' == h * ((dx * d + x * dz) * (1.0 / (d * d))) * d
  {
    var q, q', inv := x / d, x' / d', 1.0 / (d * d);
    DivTimes(x, d);
    DivTimes(x', d');
    PositiveProduct(d, d);
    DivTimes(1.0, d * d);
    MulEqual(q * d, x, d');
    assert ((q' - q) * d') * d == x' * d - x * d';
    assert x' * d - x * d' == h * (dx * d + x * dz);
    MulEqual(inv * (d * d), 1.0, h * (dx * d + x * dz));
    assert (h * ((dx * d + x * dz) * inv) * d) * d == h * (dx * d + x * dz) * (inv * (d * d));
    Cancel((q' - q) * d', h * ((dx * d + x * dz) * inv) * d, d);
  }

  /** A coordinate moves by h times the slope, up to the ratio of the depths. */
  ghost predicate IsAxisSecant(change: real, d': real, h: real, slope: real, d: real) {
    change * d' == h * slope * d
  }

  /** Both coordinates of the pixel do. */
  ghost predicate IsSecant(still: Projected, moved: Projected, h: real, du: real, dv: real) {
    && IsAxisSecant(moved.u - still.u, moved.depth, h, du, still.depth)
    && IsAxisSecant(moved.v - still.v, moved.depth, h, dv, still.depth)
  }

  /** The translation columns are exact: along any translation axis and for any
      step h, [u(h) - u(0)] depth(h) = h * du * depth(0), and likewise for v. */
  lemma TranslationColumnsExact(problem: Problem, p: Params, o: Observation, axis: nat, h: real)
    requires axis < 3 && Sees(problem, p, o)
    requires Sees(problem, p[axis := p[axis] + h], o)
    ensures IsSecant(ImageOf(problem, p, o), ImageOf(problem, p[axis := p[axis] + h], o), h,
                     TermOf(problem, p, o).du[axis], TermOf(problem, p, o).dv[axis])
  {
    var trig, i, pose := problem.trig, problem.intrinsics, PoseOf(p);
    var p': Params := p[axis := p[axis] + h];
    assert PoseOf(p') == pose.(translation := Plus(pose.translation, Scale(h, Unit(axis))));
    TranslationMovesCameraPoint(trig, pose, o.world, axis, h);
    var c, dc := CameraPoint(trig, pose, o.world), CameraDerivative(trig, pose, o.world, axis);
    var c' := CameraPoint(trig, PoseOf(p'), o.world);
    assert ImageOf(problem, p, o) == Pinhole(i, c).value && ImageOf(problem, p', o) == Pinhole(i, c').value;
    assert TermOf(problem, p, o).du[axis] == PartialU(i, c, dc) && TermOf(problem, p, o).dv[axis] == PartialV(i, c, dc);
    assert c.z < 0.0 && c'.z < 0.0;
    var moved, still := ImageOf(problem, p', o), ImageOf(problem, p, o);
    var du, dv := TermOf(problem, p, o).du[axis], TermOf(problem, p, o).dv[axis];
    hide *;
    MovedPixel(i, c, dc, c', h, still, moved, du, dv);
  }

  lemma {:induction false} ResidualEntries(problem: Problem, p: Params, n: nat, i: nat)
    requires i < n <= |problem.observations| && SeesFirst(problem, p, n)
    ensures var o := problem.observations[i];
            var r := ResidualsOf(problem, p, n);
            r[2 * i] == ImageOf(problem, p, o).u - o.image.u && r[2 * i + 1] == ImageOf(problem, p, o).v - o.image.v
  {
    hide ImageOf, Sees;
    if i < n - 1 {
      ResidualEntries(problem, p, n - 1, i);
    }
  }

  /** The residuals move with the terms, entry by entry: when the camera moves by h along an axis,
      residuals 2i and 2i + 1 follow entry `axis` of the u and v rows of term i. */
  lemma ResidualsFollowTerms(problem: Problem, p: Params, axis: nat, h: real, i: nat)
    requires axis < 3 && i < |problem.observations|
    requires SeesAll(problem, p) && SeesAll(problem, p[axis := p[axis] + h])
    ensures var p': Params := p[axis := p[axis] + h];
            var o, term := problem.observations[i], AllTerms(problem, p)[i];
            var r, r' := AllResiduals(problem, p), AllResiduals(problem, p');
            var still, moved := ImageOf(problem, p, o), ImageOf(problem, p', o);
            && IsAxisSecant(r'[2 * i] - r[2 * i], moved.depth, h, term.du[axis], still.depth)
            && IsAxisSecant(r'[2 * i + 1] - r[2 * i + 1], moved.depth, h, term.dv[axis], still.depth)
  {
    var p': Params := p[axis := p[axis] + h];
    var o := problem.observations[i];
    assert Sees(problem, p, o) && Sees(problem, p', o);
    TranslationColumnsExact(problem, p, o, axis, h);
    ResidualEntries(problem, p, |problem.observations|, i);
    ResidualEntries(problem, p', |problem.observations|, i);
    hide IsAxisSecant, ImageOf, TermOf, Sees, ResidualsOf;
  }

  lemma MovedPixel(i: Intrinsics, c: Vec, dc: Vec, c': Vec, h: real, still: Projected, moved: Projected, du: real, dv: real)
    requires c.z < 0.0 && c'.z < 0.0 && c' == Plus(c, Scale(h, dc))
    requires still == Pinhole(i, c).value && moved == Pinhole(i, c').value
    requires du == PartialU(i, c, dc) && dv == PartialV(i, c, dc)
    ensures IsSecant(still, moved, h, du, dv)
  {
    hide PartialU, PartialV, Pinhole, IsAxisSecant, Plus, Scale;
    MovedU(i, c, dc, c', h, still, moved, du);
    MovedV(i, c, dc, c', h, still, moved, dv);
  }

  lemma MovedU(i: Intrinsics, c: Vec, dc: Vec, c': Vec, h: real, still: Projected, moved: Projected, du: real)
    requires c.z < 0.0 && c'.z < 0.0 && c' == Plus(c, Scale(h, dc))
    requires still == Pinhole(i, c).value && moved == Pinhole(i, c').value && du == PartialU(i, c, dc)
    ensures IsAxisSecant(moved.u - still.u, moved.depth, h, du, still.depth)
  {
    hide IsAxisSecant;
    AxisSecant(i.fx, c.x, still.depth, dc.x, dc.z, h, c'.x, moved.depth, moved.u - still.u, du);
  }

  lemma MovedV(i: Intrinsics, c: Vec, dc: Vec, c': Vec, h: real, still: Projected, moved: Projected, dv: real)
    requires c.z < 0.0 && c'.z < 0.0 && c' == Plus(c, Scale(h, dc))
    requires still == Pinhole(i, c).value && moved == Pinhole(i, c').value && dv == PartialV(i, c, dc)
    ensures IsAxisSecant(moved.v - still.v, moved.depth, h, dv, still.depth)
  {
    hide IsAxisSecant;
    AxisSecant(-i.fy, c.y, still.depth, dc.y, dc.z, h, c'.y, moved.depth, moved.v - still.v, dv);
  }

  lemma AxisSecant(f: real, x: real, d: real, dx: real, dz: real, h: real, x': real, d': real, change: real, slope: real)
    requires d > 0.0 && d' > 0.0 && x' == x + h * dx && d' == d - h * dz
    requires change == f * (x' / d') - f * (x / d)
    requires slope == f * (dx * d + x * dz) * (1.0 / (d * d))
    ensures IsAxisSecant(change, d', h, slope, d)
  {
    SecantQuotient(x, d, dx, dz, h, x', d');
    var q, q', s := x / d, x' / d', (dx * d + x * dz) * (1.0 / (d * d));
    SlopeFactor(f, dx * d + x * dz, 1.0 / (d * d));
    FocalSecant(f, q, q', d, d', h, s);
    MulEqual(change, f * q' - f * q, d');
    MulEqual(slope, f * s, h * d);
    assert h * slope * d == slope * (h * d) && h * (f * s) * d == (f * s) * (h * d);
  }

  lemma SlopeFactor(f: real, a: real, inv: real)
    ensures f * a * inv == f * (a * inv)
  {
  }

  lemma FocalSecant(f: real, q: real, q': real, d: real, d': real, h: real, s: real)
    requires (q' - q) * d' == h * s * d
    ensures (f * q' - f * q) * d' == h * (f * s) * d
  {
    MulEqual((q' - q) * d', h * s * d, f);
  }

  /** The rotation columns are central differences of the camera point. */
  lemma RotationColumnsAreCentralDifferences(trig: Trig, pose: Transform, world: Vec, axis: nat)
    requires axis < 3
    ensures var turn := Scale(FD_STEP, Unit(axis));
            Scale(2.0 * FD_STEP, CameraDerivative(trig, pose, world, 3 + axis))
            == Minus(CameraPoint(trig, pose.(rotation := Plus(pose.rotation, turn)), world),
                     CameraPoint(trig, pose.(rotation := Minus(pose.rotation, turn)), world))
  {
    var turn := Scale(FD_STEP, Unit(axis));
    var a, b := Rotation(trig, Plus(pose.rotation, turn)), Rotation(trig, Minus(pose.rotation, turn));
    DifferenceApplied(a, b, Minus(world, pose.translation));
  }

  lemma DifferenceApplied(a: Mat, b: Mat, x: Vec)
    ensures Scale(2.0 * FD_STEP, Apply(Transpose(CentralDifference(a, b)), x))
         == Minus(Apply(Transpose(a), x), Apply(Transpose(b), x))
  {
  }
}
