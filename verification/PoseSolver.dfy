/** The Levenberg-Marquardt loop and the choice among starting candidates
    (src/stroy/camera/solve.py). */
module PoseSolver {
  import opened Wrappers
  import opened Reals
  import opened Vectors
  import opened Projection
  import opened LinearSolve
  import opened NormalEquations
  import opened PoseModel

  // The program's 1e-7 px.
  const RMS_TOL: real := 1.0 / 10000000.0
  const MAX_ITERATIONS := 200
  const MAX_TRIALS := 24
  const MIN_OBSERVATIONS := 3
  const DAMPING_FLOOR: real := 1.0 / 1000000000000.0

  /** None, ValueError and the fitted triple of _levenberg_marquardt. */
  datatype Outcome = Behind | Singular | Fitted(params: Params, rms: real, iterations: nat)

  // ---------------------------------------------------------------------
  // What one accepted move is
  // ---------------------------------------------------------------------

  function Difference(b: Params, a: Params): (d: Params)
    ensures forall i | 0 <= i < 6 :: d[i] == b[i] - a[i]
  {
    seq(6, i requires 0 <= i < 6 => b[i] - a[i])
  }

  /** `matrix` and `gradient` are J^T J and J^T r at `a`. */
  ghost predicate AreNormalEquations(problem: Problem, a: Params, matrix: Matrix, gradient: seq<real>) {
    && SeesAll(problem, a)
    && IsGram(matrix, AllTerms(problem, a), 6, 2 * |problem.observations|)
    && IsMoment(gradient, AllTerms(problem, a), AllResiduals(problem, a), 6, 2 * |problem.observations|)
  }

  /** b - a solves the damped normal equations at `a` and goes downhill there. */
  ghost predicate IsDampedStep(
      problem: Problem, a: Params, b: Params, damping: real, matrix: Matrix, damped: Matrix, gradient: seq<real>)
  {
    && AreNormalEquations(problem, a, matrix, gradient)
    && damping > 0.0 && IsDamped(damped, matrix, damping)
    && Maps(damped, Difference(b, a), Negated(gradient))
    && Dot(gradient, Difference(b, a), 6) < 0.0
  }

  /** An accepted move: a damped Gauss-Newton step, downhill, with a lower cost. */
  ghost predicate IsDescent(problem: Problem, a: Params, b: Params) {
    && SeesAll(problem, a) && SeesAll(problem, b)
    && Cost(problem, b) < Cost(problem, a)
    && exists damping: real, matrix: Matrix, damped: Matrix, gradient: seq<real> ::
         IsDampedStep(problem, a, b, damping, matrix, damped, gradient)
  }

  /** A solved step whose cost is lower is a descent; in particular its gradient is not zero. */
  lemma LowerCostDescends(
      problem: Problem, a: Params, b: Params, damping: real, matrix: Matrix, damped: Matrix, gradient: seq<real>, step: Params)
    requires AreNormalEquations(problem, a, matrix, gradient)
    requires damping > 0.0 && IsDamped(damped, matrix, damping)
    requires Maps(damped, step, Negated(gradient))
    requires forall i | 0 <= i < 6 :: b[i] == a[i] + step[i]
    requires SeesAll(problem, b) && Cost(problem, b) < Cost(problem, a)
    ensures IsDescent(problem, a, b)
  {
    assert |gradient| == 6;
    hide Cost;
    hide AllTerms;
    hide AllResiduals;
    hide Dot;
    hide IsGram;
    hide IsMoment;
    hide IsDamped;
    assert Difference(b, a) == step;
    StepDescends(matrix, damped, damping, AllTerms(problem, a), gradient, step);
    if IsZero(gradient) {
      SamePose(a, b, step);
    }
    assert IsDampedStep(problem, a, b, damping, matrix, damped, gradient);
  }

  lemma SamePose(a: Params, b: Params, step: Params)
    requires IsZero(step) && forall i | 0 <= i < 6 :: b[i] == a[i] + step[i]
    ensures b == a
  {
  }

  // ---------------------------------------------------------------------
  // The loop
  // ---------------------------------------------------------------------

  function Stepped(a: Params, step: Params): (b: Params)
    ensures forall i | 0 <= i < 6 :: b[i] == a[i] + step[i]
  {
    seq(6, i requires 0 <= i < 6 => a[i] + step[i])
  }

  /** The damping after `k` failures. */
  function Escalated(damping: real, k: nat): (d: real)
    requires damping > 0.0
    ensures d > 0.0
  {
    if k == 0 then damping else Escalated(damping, k - 1) * 10.0
  }

  /** With this damping the equations are refused, or their step leaves an observation
      behind the camera or does not lower the cost. */
  ghost predicate TrialFails(problem: Problem, p: Params, matrix: Matrix, gradient: seq<real>, damping: real)
    requires AreNormalEquations(problem, p, matrix, gradient)
  {
    exists damped: Matrix ::
      && IsDamped(damped, matrix, damping)
      && (NearlySingular(damped, PIVOT_TOL)
          || exists step: Params :: Maps(damped, step, Negated(gradient)) && IsNoBetter(problem, p, Stepped(p, step)))
  }

  ghost predicate IsNoBetter(problem: Problem, p: Params, q: Params)
    requires SeesAll(problem, p)
  {
    !SeesAll(problem, q) || Cost(problem, q) >= Cost(problem, p)
  }

  ghost predicate FirstTrialsFail(problem: Problem, p: Params, matrix: Matrix, gradient: seq<real>, damping: real, n: nat) {
    && AreNormalEquations(problem, p, matrix, gradient) && damping > 0.0
    && forall k: nat | k < n :: TrialFails(problem, p, matrix, gradient, Escalated(damping, k))
  }

  /** Twenty-four dampings, each ten times the one before, all failed at `p`. */
  ghost predicate Stalled(problem: Problem, p: Params) {
    exists matrix: Matrix, gradient: seq<real>, damping: real ::
      FirstTrialsFail(problem, p, matrix, gradient, damping, MAX_TRIALS)
  }

  /** One damped trial: the damped equations, their step and the cost there. */
  method Trial(problem: Problem, start: Params, cost: real, matrix: Matrix, gradient: seq<real>, damping: real)
    returns (trial: Option<Params>, residuals: seq<real>, trialCost: real)
    requires AreNormalEquations(problem, start, matrix, gradient)
    requires cost == Cost(problem, start) && damping > 0.0
    ensures trial.None? ==> TrialFails(problem, start, matrix, gradient, damping)
    ensures trial.Some? ==> IsDescent(problem, start, trial.value)
    ensures trial.Some? ==> residuals == AllResiduals(problem, trial.value) && trialCost == Cost(problem, trial.value)
  {
    hide Cost;
    hide AllTerms;
    hide AllResiduals;
    hide IsDescent;
    hide NearlySingular;
    residuals, trialCost := [], cost;
    assert |gradient| == 6;
    var damped := Damp(matrix, damping);
    var step := SolveLinear(damped, Negated(gradient));
    if step.None? {
      return None, residuals, trialCost;
    }
    var candidate := Stepped(start, step.value);
    var trialResiduals := Residuals(problem, candidate);
    if trialResiduals.None? {
      assert IsNoBetter(problem, start, candidate);
      return None, residuals, trialCost;
    }
    residuals := trialResiduals.value;
    trialCost := CostOfResiduals(problem, candidate, residuals);
    if trialCost < cost {
      LowerCostDescends(problem, start, candidate, damping, matrix, damped, gradient, step.value);
      return Some(candidate), residuals, trialCost;
    }
    assert IsNoBetter(problem, start, candidate);
    trial := None;
  }

  function TenTo(k: nat): real { if k == 0 then 1.0 else TenTo(k - 1) * 10.0 }

  /** After k failures the damping is ten to the k times what it was. */
  lemma {:induction false} EscalatedIsTenfold(damping: real, k: nat)
    requires damping > 0.0
    ensures Escalated(damping, k) == damping * TenTo(k)
  {
    if k > 0 {
      EscalatedIsTenfold(damping, k - 1);
      assert damping * TenTo(k - 1) * 10.0 == damping * (TenTo(k - 1) * 10.0);
    }
  }

  /** After a success it is three tenths of what it was, but never below the floor. */
  lemma RelaxedMeans(damping: real)
    ensures Relaxed(damping) == if damping * 0.3 >= 0.000000000001 then damping * 0.3 else 0.000000000001
  {
  }

  /** Up to 24 damped trials from `start`; damping grows tenfold after each failure. */
  method TryStep(problem: Problem, start: Params, cost: real, matrix: Matrix, gradient: seq<real>, damping0: real)
    returns (improved: bool, current: Params, residuals: seq<real>, trialCost: real, damping: real)
    requires AreNormalEquations(problem, start, matrix, gradient)
    requires cost == Cost(problem, start) && damping0 > 0.0
    ensures damping > 0.0
    ensures !improved ==> Stalled(problem, start)
    ensures improved ==> IsDescent(problem, start, current)
    ensures improved ==> residuals == AllResiduals(problem, current) && trialCost == Cost(problem, current)
    ensures improved ==> exists k: nat | k < MAX_TRIALS ::
              && FirstTrialsFail(problem, start, matrix, gradient, damping0, k)
              && damping == Relaxed(Escalated(damping0, k))
  {
    hide Cost;
    hide AllResiduals;
    hide IsDescent;
    hide TrialFails;
    hide AreNormalEquations;
    hide Relaxed;
    damping := damping0;
    improved, current, residuals, trialCost := false, start, [], cost;
    for k := 0 to MAX_TRIALS
      invariant damping == Escalated(damping0, k) && !improved
      invariant FirstTrialsFail(problem, start, matrix, gradient, damping0, k)
    {
      var trial;
      trial, residuals, trialCost := Trial(problem, start, cost, matrix, gradient, damping);
      if trial.Some? {
        return true, trial.value, residuals, trialCost, Relaxed(damping);
      }
      damping := damping * 10.0;
    }
  }

  /** The damping kept after a success: 0.3 of it, at least the floor. */
  function Relaxed(damping: real): (d: real)
    ensures d > 0.0
  {
    var shrunk := damping * 0.3;
    if shrunk >= DAMPING_FLOOR then shrunk else DAMPING_FLOOR
  }

  method CostOfResiduals(problem: Problem, p: Params, residuals: seq<real>) returns (cost: real)
    requires SeesAll(problem, p) && residuals == AllResiduals(problem, p)
    ensures cost == Cost(problem, p)
  {
    cost := SumOfSquares(residuals, |residuals|);
  }

  /** The poses visited: each is an accepted move away from the one before. */
  ghost predicate IsDescentPath(problem: Problem, start: Params, path: seq<Params>) {
    && |path| > 0 && path[0] == start && SeesAll(problem, start)
    && forall i | 0 < i < |path| :: IsDescent(problem, path[i - 1], path[i])
  }

  /** Along the path the cost strictly falls, so the last pose is the best one. */
  lemma {:induction false} PathCostsFall(problem: Problem, start: Params, path: seq<Params>, i: nat, j: nat)
    requires IsDescentPath(problem, start, path) && i <= j < |path|
    ensures SeesAll(problem, path[i]) && SeesAll(problem, path[j])
    ensures Cost(problem, path[j]) <= Cost(problem, path[i])
    ensures i < j ==> Cost(problem, path[j]) < Cost(problem, path[i])
    decreases j
  {
    hide Cost;
    if i < j {
      assert IsDescent(problem, path[j - 1], path[j]);
      PathCostsFall(problem, start, path, i, j - 1);
    } else if 0 < j {
      assert IsDescent(problem, path[j - 1], path[j]);
    }
  }

  /** The normal matrix at `p` is zero or squashes a direction below the relative tolerance. */
  ghost predicate DegenerateAt(problem: Problem, p: Params) {
    exists matrix: Matrix, gradient: seq<real>, scale: real ::
      && AreNormalEquations(problem, p, matrix, gradient)
      && IsScale(matrix, scale)
      && (scale == 0.0 || NearlySingular(matrix, RANK_TOL * scale))
  }

  /** The normal matrix at `p` annihilates only zero. */
  ghost predicate RegularAt(problem: Problem, p: Params) {
    exists matrix: Matrix, gradient: seq<real> :: IsRegular(problem, p, matrix, gradient)
  }

  ghost predicate IsRegular(problem: Problem, p: Params, matrix: Matrix, gradient: seq<real>) {
    && AreNormalEquations(problem, p, matrix, gradient)
    && forall y: seq<real> | |y| == |matrix| && Annihilates(matrix, y) :: IsZero(y)
  }

  /** Every pose the iteration moved away from had a regular normal matrix. */
  ghost predicate LeftWhereRegular(problem: Problem, path: seq<Params>) {
    forall i | 0 <= i < |path| - 1 :: RegularAt(problem, path[i])
  }

  lemma RegularHere(problem: Problem, p: Params, matrix: Matrix, gradient: seq<real>)
    requires AreNormalEquations(problem, p, matrix, gradient)
    requires forall y: seq<real> | |y| == |matrix| && Annihilates(matrix, y) :: IsZero(y)
    ensures RegularAt(problem, p)
  {
    assert IsRegular(problem, p, matrix, gradient);
  }

  lemma NothingLeft(problem: Problem, start: Params)
    ensures LeftWhereRegular(problem, [start])
  {
  }

  lemma ExtendRegular(problem: Problem, path: seq<Params>, next: Params)
    requires |path| > 0 && LeftWhereRegular(problem, path) && RegularAt(problem, path[|path| - 1])
    ensures LeftWhereRegular(problem, path + [next])
  {
    hide RegularAt;
  }

  ghost predicate IsRms(problem: Problem, p: Params, rms: real)
    requires |problem.observations| > 0
  {
    && SeesAll(problem, p) && rms >= 0.0
    && rms * rms == Cost(problem, p) / (2 * |problem.observations|) as real
  }

  /** How an outcome is explained by the path that led to it. */
  ghost predicate Explains(problem: Problem, start: Params, outcome: Outcome, path: seq<Params>)
    requires |problem.observations| > 0
  {
    match outcome
    case Behind => !SeesAll(problem, start)
    case Singular => IsDescentPath(problem, start, path) && DegenerateAt(problem, path[|path| - 1])
    case Fitted(params, rms, iterations) =>
      && IsDescentPath(problem, start, path) && params == path[|path| - 1]
      && LeftWhereRegular(problem, path)
      && IsRms(problem, params, rms)
      && iterations <= MAX_ITERATIONS
      && (|| (|path| == iterations && (rms <= RMS_TOL || Stalled(problem, params)))
          || (|path| == iterations + 1 && iterations == MAX_ITERATIONS))
  }

  lemma ExtendPath(problem: Problem, start: Params, path: seq<Params>, next: Params)
    requires IsDescentPath(problem, start, path)
    requires IsDescent(problem, path[|path| - 1], next)
    ensures IsDescentPath(problem, start, path + [next])
  {
    hide IsDescent;
    var longer := path + [next];
    forall i | 0 < i < |longer| ensures IsDescent(problem, longer[i - 1], longer[i]) {
      if i < |path| {
        assert IsDescent(problem, path[i - 1], path[i]);
      }
    }
  }

  method LevenbergMarquardt(problem: Problem, sqrt: real -> real, start: Params)
    returns (outcome: Outcome, ghost path: seq<Params>)
    requires |problem.observations| > 0 && IsSqrt(sqrt)
    ensures Explains(problem, start, outcome, path)
    ensures outcome.Behind? <==> !SeesAll(problem, start)
    ensures outcome.Fitted? ==> IsFitFrom(problem, start, outcome.params, outcome.rms)
    ensures outcome.Fitted? ==> outcome.iterations <= MAX_ITERATIONS
    ensures KeepsFit(problem, start, outcome)
    ensures outcome.Fitted? && outcome.rms > RMS_TOL && outcome.iterations < MAX_ITERATIONS ==> Stalled(problem, outcome.params)
  {
    hide Cost;
    hide AllTerms;
    hide AllResiduals;
    hide IsDescent;
    hide Stalled, RegularAt, LeftWhereRegular;
    var current := start;
    path := [start];
    NothingLeft(problem, start);
    var first := Residuals(problem, current);
    if first.None? {
      return Behind, path;
    }
    var residuals := first.value;
    var cost := CostOfResiduals(problem, current, residuals);
    var count := (2 * |problem.observations|) as real;
    var costTolerance := count * RMS_TOL * RMS_TOL;
    var damping := 0.001;
    var iterations := 0;
    ghost var stalled := false;
    while iterations < MAX_ITERATIONS
      invariant iterations <= MAX_ITERATIONS && |path| == iterations + 1
      invariant IsDescentPath(problem, start, path) && current == path[|path| - 1]
      invariant SeesAll(problem, current) && LeftWhereRegular(problem, path)
      invariant residuals == AllResiduals(problem, current) && cost == Cost(problem, current)
      invariant damping > 0.0 && !stalled
      invariant Fits(problem, start) ==> current == start
    {
      iterations := iterations + 1;
      if cost <= costTolerance {
        break;
      }
      var terms := JacobianTerms(problem, current);
      if terms.None? {
        // Unreachable: the residuals exist, so every depth is positive.
        assert false;
        return Behind, path;
      }
      var matrix, gradient := Assemble(terms.value, residuals, 6);
      assert AreNormalEquations(problem, current, matrix, gradient);
      var singular := IsSingular(matrix);
      if singular {
        assert DegenerateAt(problem, current);
        return Singular, path;
      }
      RegularHere(problem, current, matrix, gradient);
      var improved, next, nextResiduals, nextCost;
      improved, next, nextResiduals, nextCost, damping := TryStep(problem, current, cost, matrix, gradient, damping);
      if !improved {
        stalled := true;
        break;
      }
      assert SeesAll(problem, next) by { DescentSees(problem, current, next); }
      ExtendPath(problem, start, path, next);
      ExtendRegular(problem, path, next);
      path := path + [next];
      current, residuals, cost := next, nextResiduals, nextCost;
    }
    assert |path| == iterations ==> cost <= costTolerance || stalled;
    var mean := cost / count;
    NonnegativeRatio(cost, count);
    var rms := sqrt(mean);
    ToleranceTestsCoincide(cost, count, rms);
    outcome := Fitted(current, rms, iterations);
    PathImproves(problem, start, path, rms);
  }

  /** The pose is within tolerance as it is. */
  ghost predicate Fits(problem: Problem, p: Params) {
    SeesAll(problem, p) && Cost(problem, p) <= (2 * |problem.observations|) as real * RMS_TOL * RMS_TOL
  }

  /** A fit seen in full, with its residual, and strictly better than the start unless it is the start. */
  ghost predicate IsFitFrom(problem: Problem, start: Params, p: Params, rms: real)
    requires |problem.observations| > 0
  {
    SeesAll(problem, start) && IsRms(problem, p, rms) && (p == start || Cost(problem, p) < Cost(problem, start))
  }

  lemma PathImproves(problem: Problem, start: Params, path: seq<Params>, rms: real)
    requires |problem.observations| > 0 && IsDescentPath(problem, start, path)
    requires IsRms(problem, path[|path| - 1], rms)
    ensures IsFitFrom(problem, start, path[|path| - 1], rms)
  {
    hide Cost;
    PathCostsFall(problem, start, path, 0, |path| - 1);
  }

  lemma DescentSees(problem: Problem, a: Params, b: Params)
    requires IsDescent(problem, a, b)
    ensures SeesAll(problem, b)
  {
  }

  /** The loop's cost test and the caller's residual test are the same test. */
  lemma ToleranceTestsCoincide(cost: real, count: real, rms: real)
    requires count > 0.0 && rms >= 0.0 && rms * rms == cost / count
    ensures rms <= RMS_TOL <==> cost <= count * RMS_TOL * RMS_TOL
  {
    DivTimes(cost, count);
    ScaleLe(rms * rms, RMS_TOL * RMS_TOL, count);
    assert (RMS_TOL * RMS_TOL) * count == count * RMS_TOL * RMS_TOL;
    if rms <= RMS_TOL {
      SquareMonotone(rms, RMS_TOL);
    } else {
      SquareStrict(RMS_TOL, rms);
    }
  }

  lemma SquareMonotone(a: real, b: real)
    requires 0.0 <= a <= b
    ensures a * a <= b * b
  {
  }

  lemma SquareStrict(a: real, b: real)
    requires 0.0 < a < b
    ensures a * a < b * b
  {
    PositiveProduct(b - a, b + a);
  }

  // ---------------------------------------------------------------------
  // solve_camera_pose
  // ---------------------------------------------------------------------

  datatype SolveError = TooFewObservations | NoUsableCandidate | DidNotConverge

  datatype SolveResult = SolveResult(transform: Transform, residual: real, iterations: nat)

  /** The outcomes of all candidates, in order, each explained by its path. */
  ghost predicate AreOutcomes(
      problem: Problem, candidates: seq<Params>, outcomes: seq<Outcome>, paths: seq<seq<Params>>)
    requires |problem.observations| > 0
  {
    && |outcomes| == |candidates| == |paths|
    && forall i | 0 <= i < |candidates| :: Explains(problem, candidates[i], outcomes[i], paths[i])
  }

  /** A candidate that fits as it is comes back as it is. */
  ghost predicate KeepsFit(problem: Problem, start: Params, outcome: Outcome) {
    Fits(problem, start) ==> outcome.Fitted? && outcome.params == start && outcome.rms <= RMS_TOL
  }

  lemma FittingStartWins(problem: Problem, start: Params, outcome: Outcome)
    requires KeepsFit(problem, start, outcome)
    ensures Fits(problem, start) ==> outcome.Fitted? && outcome.params == start && outcome.rms <= RMS_TOL
  {
  }

  /** The supplied pose goes into the candidates without loss, before all others. */
  lemma SuppliedPoseComesFirst(heuristic: seq<Params>, t: Transform)
    ensures var candidates := Candidates(heuristic, Some(t));
            && PoseOf(candidates[0]) == t && candidates[1..] == heuristic && candidates[0] == ParamsOf(t)
    ensures Candidates(heuristic, None) == heuristic
    ensures forall p: Params :: ParamsOf(PoseOf(p)) == p
  {
    forall p: Params ensures ParamsOf(PoseOf(p)) == p {
    }
  }

  /** Candidate `i` is the first of those with the least residual. */
  ghost predicate IsBest(outcomes: seq<Outcome>, i: nat) {
    && i < |outcomes| && outcomes[i].Fitted?
    && (forall j | 0 <= j < |outcomes| && outcomes[j].Fitted? :: outcomes[i].rms <= outcomes[j].rms)
    && (forall j | 0 <= j < i && outcomes[j].Fitted? :: outcomes[i].rms < outcomes[j].rms)
  }

  /** Fit every candidate and keep the best; the supplied pose, if any, is tried first. */
  method SolveCameraPose(problem: Problem, sqrt: real -> real, heuristic: seq<Params>, initial: Option<Transform>)
    returns (result: Result<SolveResult, SolveError>, ghost outcomes: seq<Outcome>, ghost paths: seq<seq<Params>>)
    requires IsSqrt(sqrt)
    ensures |problem.observations| < MIN_OBSERVATIONS <==> result == Err(TooFewObservations)
    ensures |problem.observations| >= MIN_OBSERVATIONS ==>
              AreOutcomes(problem, Candidates(heuristic, initial), outcomes, paths)
    ensures result.Ok? <==>
              && |problem.observations| >= MIN_OBSERVATIONS
              && exists j :: 0 <= j < |outcomes| && outcomes[j].Fitted? && outcomes[j].rms <= RMS_TOL
    ensures |problem.observations| >= MIN_OBSERVATIONS && initial.Some? && Fits(problem, ParamsOf(initial.value)) ==>
              && result.Ok? && outcomes[0].Fitted? && outcomes[0].params == ParamsOf(initial.value)
    ensures result.Ok? ==> exists i: nat ::
              && IsBest(outcomes, i) && outcomes[i].rms <= RMS_TOL
              && result.value == SolveResult(PoseOf(outcomes[i].params), outcomes[i].rms, outcomes[i].iterations)
    ensures result == Err(NoUsableCandidate) ==> forall i | 0 <= i < |outcomes| :: !outcomes[i].Fitted?
    ensures result == Err(DidNotConverge) ==> exists i: nat :: IsBest(outcomes, i) && outcomes[i].rms > RMS_TOL
  {
    hide Explains, KeepsFit, Fits;
    outcomes, paths := [], [];
    if |problem.observations| < MIN_OBSERVATIONS {
      return Err(TooFewObservations), outcomes, paths;
    }
    var candidates := Candidates(heuristic, initial);
    var best: Option<Outcome> := None;
    ghost var bestIndex: nat := 0;
    for index := 0 to |candidates|
      invariant AreOutcomes(problem, candidates[..index], outcomes, paths)
      invariant forall j | 0 <= j < index :: KeepsFit(problem, candidates[j], outcomes[j])
      invariant best.None? ==> forall j | 0 <= j < index :: !outcomes[j].Fitted?
      invariant best.Some? ==> IsBest(outcomes, bestIndex) && best.value == outcomes[bestIndex]
    {
      var solved; ghost var path;
      solved, path := LevenbergMarquardt(problem, sqrt, candidates[index]);
      outcomes, paths := outcomes + [solved], paths + [path];
      if !solved.Fitted? {
        continue;
      }
      if best.None? || solved.rms < best.value.rms {
        best, bestIndex := Some(solved), index;
      }
    }
    assert candidates[..|candidates|] == candidates;
    if initial.Some? {
      FittingStartWins(problem, candidates[0], outcomes[0]);
    }
    if best.None? {
      return Err(NoUsableCandidate), outcomes, paths;
    }
    SucceedsIffSomeConverges(outcomes, bestIndex);
    var Fitted(params, rms, iterations) := best.value;
    if rms > RMS_TOL {
      return Err(DidNotConverge), outcomes, paths;
    }
    result := Ok(SolveResult(PoseOf(params), rms, iterations));
  }

  function Candidates(heuristic: seq<Params>, initial: Option<Transform>): seq<Params> {
    match initial
    case None => heuristic
    case Some(t) => [ParamsOf(t)] + heuristic
  }

  /** It succeeds exactly when some candidate reaches the tolerance. */
  lemma SucceedsIffSomeConverges(outcomes: seq<Outcome>, i: nat)
    requires IsBest(outcomes, i)
    ensures outcomes[i].rms <= RMS_TOL <==> exists j :: 0 <= j < |outcomes| && outcomes[j].Fitted? && outcomes[j].rms <= RMS_TOL
  {
  }

  /** The validator agrees: its squared residual is twice the solver's. */
  lemma ValidatorAgrees(problem: Problem, p: Params, rms: real)
    requires |problem.observations| > 0 && IsRms(problem, p, rms)
    ensures var n := |problem.observations|;
            && VisibleCount(problem.trig, problem.intrinsics, PoseOf(p), problem.observations, n) == n
            && TotalError(problem.trig, problem.intrinsics, PoseOf(p), problem.observations, n) / (n as real)
               == 2.0 * (rms * rms)
  {
    var n := |problem.observations|;
    CostIsTotalError(problem, p, n);
    var cost := Cost(problem, p);
    var square := rms * rms;
    assert (2 * n) as real == 2.0 * (n as real);
    DivTimes(cost, (2 * n) as real);
    assert square * (2.0 * (n as real)) == (2.0 * square) * (n as real);
    DivUnique(cost, n as real, 2.0 * square);
  }

  /** `result` is a solved pose that the validator sees in full, with twice the squared residual. */
  ghost predicate IsValidated(problem: Problem, result: SolveResult) {
    var n := |problem.observations|;
    && n > 0 && 0.0 <= result.residual <= RMS_TOL
    && VisibleCount(problem.trig, problem.intrinsics, result.transform, problem.observations, n) == n
    && TotalError(problem.trig, problem.intrinsics, result.transform, problem.observations, n) / (n as real)
       == 2.0 * (result.residual * result.residual)
  }

  lemma SolvedIsValidated(
      problem: Problem, candidates: seq<Params>, outcomes: seq<Outcome>, paths: seq<seq<Params>>, i: nat, result: SolveResult)
    requires |problem.observations| > 0 && AreOutcomes(problem, candidates, outcomes, paths)
    requires IsBest(outcomes, i) && outcomes[i].rms <= RMS_TOL
    requires result == SolveResult(PoseOf(outcomes[i].params), outcomes[i].rms, outcomes[i].iterations)
    ensures IsValidated(problem, result)
  {
    hide Cost;
    hide IsDescentPath;
    hide TotalError;
    hide VisibleCount;
    assert Explains(problem, candidates[i], outcomes[i], paths[i]);
    ValidatorAgrees(problem, outcomes[i].params, outcomes[i].rms);
  }

  /** The camera service: solve, store the pose, validate it. A solved pose always validates,
      and the stored residual is the root of twice the solver's squared residual. */
  method SolveAndValidate(problem: Problem, sqrt: real -> real, heuristic: seq<Params>, initial: Option<Transform>)
    returns (result: Result<SolveResult, SolveError>, stored: Option<real>)
    requires IsSqrt(sqrt)
    ensures result.Ok? ==>
              && 0.0 <= result.value.residual <= RMS_TOL
              && stored.Some? && stored.value >= 0.0
              && stored.value * stored.value == 2.0 * (result.value.residual * result.value.residual)
  {
    hide Explains, Fits, KeepsFit, Candidates, ParamsOf, PoseOf;
    hide AreOutcomes;
    hide TotalError;
    hide VisibleCount;
    hide IsSqrt;
    ghost var outcomes, paths;
    result, outcomes, paths := SolveCameraPose(problem, sqrt, heuristic, initial);
    stored := None;
    if result.Ok? {
      var solved := result.value;
      ghost var i: nat :| IsBest(outcomes, i) && outcomes[i].rms <= RMS_TOL
                          && solved == SolveResult(PoseOf(outcomes[i].params), outcomes[i].rms, outcomes[i].iterations);
      SolvedIsValidated(problem, Candidates(heuristic, initial), outcomes, paths, i, solved);
      stored := CameraResidual(problem.trig, sqrt, problem.intrinsics, solved.transform, problem.observations);
    }
  }
}
