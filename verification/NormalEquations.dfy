/** The Gauss-Newton normal equations, their damping, and why a solved step
    goes downhill (src/stroy/camera/solve.py), for any number of parameters. */
module NormalEquations {
  import opened Reals
  import opened Vectors

  /** One observation's two Jacobian rows: d(u)/dp and d(v)/dp. */
  datatype Term = Term(du: seq<real>, dv: seq<real>)

  ghost predicate HasWidth(terms: seq<Term>, n: nat) {
    forall i | 0 <= i < |terms| :: |terms[i].du| == n && |terms[i].dv| == n
  }

  /** Row `k` of the Jacobian: the u and v rows of each term alternate. */
  function JacobianRow(terms: seq<Term>, k: nat): seq<real>
    requires k < 2 * |terms|
  {
    if k % 2 == 0 then terms[k / 2].du else terms[k / 2].dv
  }

  /** Entry (a, b) of J^T J over the first `k` rows. */
  ghost function Gram(terms: seq<Term>, n: nat, a: nat, b: nat, k: nat): real
    requires HasWidth(terms, n) && a < n && b < n && k <= 2 * |terms|
  {
    if k == 0 then 0.0
    else
      var row := JacobianRow(terms, k - 1);
      Gram(terms, n, a, b, k - 1) + Times(row[a], row[b])
  }

  /** Entry `a` of J^T r over the first `k` rows. */
  ghost function Moment(terms: seq<Term>, residuals: seq<real>, n: nat, a: nat, k: nat): real
    requires HasWidth(terms, n) && a < n && k <= 2 * |terms| && k <= |residuals|
  {
    if k == 0 then 0.0
    else Moment(terms, residuals, n, a, k - 1) + Times(JacobianRow(terms, k - 1)[a], residuals[k - 1])
  }

  /** |J x|^2 over the first `k` rows. */
  ghost function SquaredImage(terms: seq<Term>, x: seq<real>, k: nat): real
    requires HasWidth(terms, |x|) && k <= 2 * |terms|
  {
    if k == 0 then 0.0
    else
      var image := Dot(JacobianRow(terms, k - 1), x, |x|);
      SquaredImage(terms, x, k - 1) + Times(image, image)
  }

  ghost predicate IsGram(matrix: Matrix, terms: seq<Term>, n: nat, k: nat)
    requires HasWidth(terms, n) && k <= 2 * |terms|
  {
    && HasShape(matrix, n, n)
    && forall a, b | 0 <= a < n && 0 <= b < n :: matrix[a][b] == Gram(terms, n, a, b, k)
  }

  ghost predicate IsMoment(gradient: seq<real>, terms: seq<Term>, residuals: seq<real>, n: nat, k: nat)
    requires HasWidth(terms, n) && k <= 2 * |terms| && k <= |residuals|
  {
    && |gradient| == n
    && forall a | 0 <= a < n :: gradient[a] == Moment(terms, residuals, n, a, k)
  }

  lemma {:induction false} GramSymmetric(terms: seq<Term>, n: nat, a: nat, b: nat, k: nat)
    requires HasWidth(terms, n) && a < n && b < n && k <= 2 * |terms|
    ensures Gram(terms, n, a, b, k) == Gram(terms, n, b, a, k)
  {
    if k > 0 {
      GramSymmetric(terms, n, a, b, k - 1);
      var row := JacobianRow(terms, k - 1);
      TimesAssociates(row[a], row[b], 0.0);
    }
  }

  /** What one term adds to entry (a, b) of the matrix. */
  function Increment(term: Term, a: nat, b: nat): real
    requires a < |term.du| && a < |term.dv| && b < |term.du| && b < |term.dv|
  {
    Times(term.du[a], term.du[b]) + Times(term.dv[a], term.dv[b])
  }

  lemma OneTerm(terms: seq<Term>, n: nat, a: nat, b: nat, i: nat)
    requires HasWidth(terms, n) && a < n && b < n && i < |terms|
    ensures Gram(terms, n, a, b, 2 * i + 2) == Gram(terms, n, a, b, 2 * i) + Increment(terms[i], a, b)
  {
    hide Times;
    assert JacobianRow(terms, 2 * i) == terms[i].du;
    assert JacobianRow(terms, 2 * i + 1) == terms[i].dv;
    var k := 2 * i + 1;
    assert Gram(terms, n, a, b, k) == Gram(terms, n, a, b, k - 1) + Times(terms[i].du[a], terms[i].du[b]);
    assert Gram(terms, n, a, b, k + 1) == Gram(terms, n, a, b, k) + Times(terms[i].dv[a], terms[i].dv[b]);
  }

  lemma OneMoment(terms: seq<Term>, residuals: seq<real>, n: nat, a: nat, i: nat)
    requires HasWidth(terms, n) && a < n && i < |terms| && 2 * |terms| <= |residuals|
    ensures Moment(terms, residuals, n, a, 2 * i + 2)
         == Moment(terms, residuals, n, a, 2 * i)
            + (Times(terms[i].du[a], residuals[2 * i]) + Times(terms[i].dv[a], residuals[2 * i + 1]))
  {
    hide Times;
    assert JacobianRow(terms, 2 * i) == terms[i].du;
    assert JacobianRow(terms, 2 * i + 1) == terms[i].dv;
    var k := 2 * i + 1;
    assert Moment(terms, residuals, n, a, k) == Moment(terms, residuals, n, a, k - 1) + Times(terms[i].du[a], residuals[k - 1]);
    assert Moment(terms, residuals, n, a, k + 1) == Moment(terms, residuals, n, a, k) + Times(terms[i].dv[a], residuals[k]);
  }

  function ZeroMatrix(n: nat): (m: Matrix)
    ensures |m| == n && forall r | 0 <= r < n :: |m[r]| == n && forall c | 0 <= c < n :: m[r][c] == 0.0
  {
    seq(n, r => seq(n, c => 0.0))
  }

  /** Accumulate one term into row `a`, columns a, ..., n - 1. */
  method AccumulateRow(row: seq<real>, term: Term, a: nat, n: nat) returns (r: seq<real>)
    requires |row| == n && |term.du| == n && |term.dv| == n && a < n
    ensures |r| == n
    ensures forall b | 0 <= b < a :: r[b] == row[b]
    ensures forall b | a <= b < n :: r[b] == row[b] + Increment(term, a, b)
  {
    r := row;
    for b := a to n
      invariant |r| == n
      invariant forall c | 0 <= c < a || b <= c < n :: r[c] == row[c]
      invariant forall c | a <= c < b :: r[c] == row[c] + Increment(term, a, c)
    {
      r := r[b := r[b] + (term.du[a] * term.du[b] + term.dv[a] * term.dv[b])];
    }
  }

  /** The upper triangle of J^T J over the first `k` rows. */
  ghost predicate IsUpperGram(matrix: Matrix, terms: seq<Term>, n: nat, k: nat)
    requires HasWidth(terms, n) && k <= 2 * |terms|
  {
    && HasShape(matrix, n, n)
    && forall a | 0 <= a < n :: IsUpperRow(matrix[a], terms, n, a, k)
  }

  ghost predicate IsUpperRow(row: seq<real>, terms: seq<Term>, n: nat, a: nat, k: nat)
    requires HasWidth(terms, n) && k <= 2 * |terms| && a < n
  {
    |row| == n && forall b | a <= b < n :: row[b] == Gram(terms, n, a, b, k)
  }

  /** Accumulate term `index` into every row of the upper triangle and into the gradient. */
  method AccumulateTerm(
      terms: seq<Term>, residuals: seq<real>, n: nat, index: nat, matrix0: Matrix, gradient0: seq<real>)
    returns (matrix: Matrix, gradient: seq<real>)
    requires HasWidth(terms, n) && 2 * |terms| <= |residuals| && index < |terms|
    requires IsUpperGram(matrix0, terms, n, 2 * index)
    requires IsMoment(gradient0, terms, residuals, n, 2 * index)
    ensures IsUpperGram(matrix, terms, n, 2 * index + 2)
    ensures IsMoment(gradient, terms, residuals, n, 2 * index + 2)
  {
    hide Times;
    hide Increment;
    matrix, gradient := matrix0, gradient0;
    var term, ru, rv := terms[index], residuals[2 * index], residuals[2 * index + 1];
    for a := 0 to n
      invariant HasShape(matrix, n, n) && |gradient| == n
      invariant forall c | a <= c < n :: matrix[c] == matrix0[c] && gradient[c] == gradient0[c]
      invariant forall c | 0 <= c < a :: IsUpperRow(matrix[c], terms, n, c, 2 * index + 2)
      invariant forall c | 0 <= c < a :: gradient[c] == Moment(terms, residuals, n, c, 2 * index + 2)
    {
      gradient := gradient[a := gradient[a] + (Times(term.du[a], ru) + Times(term.dv[a], rv))];
      var row := AccumulateRow(matrix[a], term, a, n);
      assert IsUpperRow(matrix0[a], terms, n, a, 2 * index);
      forall b | a <= b < n ensures row[b] == Gram(terms, n, a, b, 2 * index + 2) {
        OneTerm(terms, n, a, b, index);
      }
      OneMoment(terms, residuals, n, a, index);
      matrix := matrix[a := row];
    }
  }

  /** J^T J (the upper triangle is accumulated, then mirrored) and J^T r. */
  method Assemble(terms: seq<Term>, residuals: seq<real>, n: nat) returns (matrix: Matrix, gradient: seq<real>)
    requires HasWidth(terms, n) && 2 * |terms| <= |residuals|
    ensures IsGram(matrix, terms, n, 2 * |terms|)
    ensures IsMoment(gradient, terms, residuals, n, 2 * |terms|)
  {
    matrix := ZeroMatrix(n);
    gradient := seq(n, a => 0.0);
    for index := 0 to |terms|
      invariant IsUpperGram(matrix, terms, n, 2 * index)
      invariant IsMoment(gradient, terms, residuals, n, 2 * index)
    {
      matrix, gradient := AccumulateTerm(terms, residuals, n, index, matrix, gradient);
    }
    ghost var upper := matrix;
    matrix := Mirror(matrix, n);
    forall a, b | 0 <= a < n && 0 <= b < n ensures matrix[a][b] == Gram(terms, n, a, b, 2 * |terms|) {
      GramSymmetric(terms, n, a, b, 2 * |terms|);
      assert IsUpperRow(upper[a], terms, n, a, 2 * |terms|);
      assert IsUpperRow(upper[b], terms, n, b, 2 * |terms|);
    }
  }

  /** Copy the strict upper triangle below the diagonal. */
  method Mirror(upper: Matrix, n: nat) returns (matrix: Matrix)
    requires HasShape(upper, n, n)
    ensures HasShape(matrix, n, n)
    ensures forall a, b | 0 <= a < n && 0 <= b < n :: matrix[a][b] == if a <= b then upper[a][b] else upper[b][a]
  {
    matrix := upper;
    for a := 0 to n
      invariant IsMirroredTo(matrix, upper, n, a, a + 1)
    {
      for b := a + 1 to n
        invariant IsMirroredTo(matrix, upper, n, a, b)
      {
        matrix := matrix[b := matrix[b][a := matrix[a][b]]];
      }
    }
  }

  /** Columns before `a`, and column `a` down to row `b`, mirror the upper triangle. */
  ghost predicate IsMirroredTo(matrix: Matrix, upper: Matrix, n: nat, a: nat, b: nat)
    requires HasShape(upper, n, n)
  {
    && HasShape(matrix, n, n)
    && forall i, j | 0 <= i < n && 0 <= j < n ::
         matrix[i][j] == if j < i && (j < a || (j == a && i < b)) then upper[j][i] else upper[i][j]
  }

  // ---------------------------------------------------------------------
  // Quadratic forms
  // ---------------------------------------------------------------------

  ghost function Image(m: Matrix, x: seq<real>): (y: seq<real>)
    requires HasShape(m, |m|, |x|)
    ensures |y| == |m| && forall r | 0 <= r < |m| :: y[r] == Dot(m[r], x, |x|)
  {
    seq(|m|, r requires 0 <= r < |m| => Dot(m[r], x, |x|))
  }

  /** x^T m x. */
  ghost function Quadratic(m: Matrix, x: seq<real>): real
    requires HasShape(m, |x|, |x|)
  {
    Dot(x, Image(m, x), |x|)
  }

  ghost function GramMatrix(terms: seq<Term>, n: nat, k: nat): (m: Matrix)
    requires HasWidth(terms, n) && k <= 2 * |terms|
    ensures IsGram(m, terms, n, k)
  {
    seq(n, a requires 0 <= a < n => seq(n, b requires 0 <= b < n => Gram(terms, n, a, b, k)))
  }

  /** `m'` is m + u u^T. */
  ghost predicate IsRankOneUpdate(m': Matrix, m: Matrix, u: seq<real>) {
    && HasShape(m, |u|, |u|) && HasShape(m', |u|, |u|)
    && forall a {:trigger m'[a]} | 0 <= a < |u| :: IsShiftedBy(m'[a], m[a], u[a], u)
  }

  lemma ShiftedImage(m: Matrix, m': Matrix, u: seq<real>, x: seq<real>)
    requires IsRankOneUpdate(m', m, u) && |u| == |x|
    ensures IsShiftedBy(Image(m', x), Image(m, x), Dot(u, x, |x|), u)
  {
    hide Times;
    hide Image;
    hide Dot;
    var y', y := Image(m', x), Image(m, x);
    forall a | 0 <= a < |x| ensures y'[a] == y[a] + Times(Dot(u, x, |x|), u[a]) {
      DotLinear(m'[a], m[a], u[a], u, x, |x|);
      TimesAssociates(u[a], Dot(u, x, |x|), 0.0);
    }
  }

  /** Adding u u^T adds (u . x)^2. */
  lemma RankOne(m: Matrix, m': Matrix, u: seq<real>, x: seq<real>)
    requires IsRankOneUpdate(m', m, u) && |u| == |x|
    ensures Quadratic(m', x) == Quadratic(m, x) + Times(Dot(u, x, |x|), Dot(u, x, |x|))
  {
    hide Times;
    hide Image;
    hide Dot;
    ShiftedImage(m, m', u, x);
    DotSymmetric(x, Image(m', x), |x|);
    DotSymmetric(x, Image(m, x), |x|);
    DotLinear(Image(m', x), Image(m, x), Dot(u, x, |x|), u, x, |x|);
  }

  /** x^T (J^T J) x = |J x|^2. */
  lemma {:induction false} GramQuadratic(terms: seq<Term>, x: seq<real>, k: nat)
    requires HasWidth(terms, |x|) && k <= 2 * |terms|
    ensures Quadratic(GramMatrix(terms, |x|, k), x) == SquaredImage(terms, x, k)
  {
    hide Times;
    hide Image;
    var n := |x|;
    if k == 0 {
      var m := GramMatrix(terms, n, 0);
      forall a | 0 <= a < n ensures Dot(m[a], x, n) == 0.0 {
        DotZero(m[a], x, n);
      }
      DotZero(x, Image(m, x), n);
    } else {
      GramQuadratic(terms, x, k - 1);
      var m, m', u := GramMatrix(terms, n, k - 1), GramMatrix(terms, n, k), JacobianRow(terms, k - 1);
      forall a | 0 <= a < n ensures IsShiftedBy(m'[a], m[a], u[a], u) {
        forall b | 0 <= b < n ensures m'[a][b] == m[a][b] + Times(u[a], u[b]) {
          assert m'[a][b] == Gram(terms, n, a, b, k);
        }
      }
      RankOne(m, m', u, x);
    }
  }

  lemma {:induction false} SquaredImageNonnegative(terms: seq<Term>, x: seq<real>, k: nat)
    requires HasWidth(terms, |x|) && k <= 2 * |terms|
    ensures SquaredImage(terms, x, k) >= 0.0
  {
    hide Dot;
    if k > 0 {
      SquaredImageNonnegative(terms, x, k - 1);
      var image := Dot(JacobianRow(terms, k - 1), x, |x|);
      assert Times(image, image) >= 0.0;
    }
  }

  /** The assembled matrix is symmetric and positive semidefinite: x^T M x = |J x|^2. */
  lemma AssembledIsSemidefinite(matrix: Matrix, terms: seq<Term>, x: seq<real>)
    requires HasWidth(terms, |x|) && IsGram(matrix, terms, |x|, 2 * |terms|)
    ensures forall a, b | 0 <= a < |x| && 0 <= b < |x| :: matrix[a][b] == matrix[b][a]
    ensures Quadratic(matrix, x) == SquaredImage(terms, x, 2 * |terms|) >= 0.0
  {
    var k := 2 * |terms|;
    forall a, b | 0 <= a < |x| && 0 <= b < |x| ensures matrix[a][b] == matrix[b][a] {
      GramSymmetric(terms, |x|, a, b, k);
    }
    var gram := GramMatrix(terms, |x|, k);
    forall a | 0 <= a < |x| ensures matrix[a] == gram[a] {
    }
    assert matrix == gram;
    GramQuadratic(terms, x, k);
    SquaredImageNonnegative(terms, x, k);
  }

  // ---------------------------------------------------------------------
  // The linearised cost
  // ---------------------------------------------------------------------

  /** |J x + r|^2 over the first `k` rows: the cost a step x would have if the residuals were linear. */
  ghost function LinearisedCost(terms: seq<Term>, residuals: seq<real>, x: seq<real>, k: nat): real
    requires HasWidth(terms, |x|) && k <= 2 * |terms| && k <= |residuals|
  {
    if k == 0 then 0.0
    else
      var v := Dot(JacobianRow(terms, k - 1), x, |x|) + residuals[k - 1];
      LinearisedCost(terms, residuals, x, k - 1) + Times(v, v)
  }

  ghost function MomentVector(terms: seq<Term>, residuals: seq<real>, n: nat, k: nat): (g: seq<real>)
    requires HasWidth(terms, n) && k <= 2 * |terms| && k <= |residuals|
    ensures IsMoment(g, terms, residuals, n, k)
  {
    seq(n, a requires 0 <= a < n => Moment(terms, residuals, n, a, k))
  }

  lemma MomentStep(terms: seq<Term>, residuals: seq<real>, x: seq<real>, k: nat)
    requires HasWidth(terms, |x|) && 0 < k <= 2 * |terms| && k <= |residuals|
    ensures Dot(MomentVector(terms, residuals, |x|, k), x, |x|)
         == Dot(MomentVector(terms, residuals, |x|, k - 1), x, |x|)
            + Times(residuals[k - 1], Dot(JacobianRow(terms, k - 1), x, |x|))
  {
    hide Times, Dot;
    var n, row := |x|, JacobianRow(terms, k - 1);
    var g, g' := MomentVector(terms, residuals, n, k - 1), MomentVector(terms, residuals, n, k);
    forall a | 0 <= a < n ensures g'[a] == g[a] + Times(residuals[k - 1], row[a]) {
      TimesAssociates(row[a], residuals[k - 1], 0.0);
    }
    DotLinear(g', g, residuals[k - 1], row, x, n);
  }

  lemma SquareOfSum(a: real, r: real)
    ensures Times(a + r, a + r) == Times(a, a) + 2.0 * Times(r, a) + Times(r, r)
  {
  }

  /** |J x + r|^2 = x^T (J^T J) x + 2 (J^T r) . x + |r|^2. */
  lemma {:induction false} LinearisedCostExpands(terms: seq<Term>, residuals: seq<real>, x: seq<real>, zero: seq<real>, k: nat)
    requires HasWidth(terms, |x|) && |zero| == |x| && IsZero(zero) && k <= 2 * |terms| && k <= |residuals|
    ensures LinearisedCost(terms, residuals, x, k)
         == SquaredImage(terms, x, k) + 2.0 * Dot(MomentVector(terms, residuals, |x|, k), x, |x|)
            + LinearisedCost(terms, residuals, zero, k)
  {
    hide Times, Dot, MomentVector, IsMoment;
    if k == 0 {
      NoMoment(terms, residuals, x);
    } else {
      LinearisedCostExpands(terms, residuals, x, zero, k - 1);
      MomentStep(terms, residuals, x, k);
      var row := JacobianRow(terms, k - 1);
      SquareOfSum(Dot(row, x, |x|), residuals[k - 1]);
      DotZero(row, zero, |x|);
      assert Dot(row, zero, |zero|) + residuals[k - 1] == residuals[k - 1];
    }
  }

  lemma NoMoment(terms: seq<Term>, residuals: seq<real>, x: seq<real>)
    requires HasWidth(terms, |x|)
    ensures Dot(MomentVector(terms, residuals, |x|, 0), x, |x|) == 0.0
  {
    DotZero(MomentVector(terms, residuals, |x|, 0), x, |x|);
  }

  /** A damped step lowers the linearised cost, strictly unless the gradient is zero. */
  lemma StepLowersLinearisedCost(
      matrix: Matrix, damped: Matrix, damping: real, terms: seq<Term>, residuals: seq<real>, gradient: seq<real>,
      step: seq<real>, zero: seq<real>)
    requires |step| == |gradient| == |zero| && IsZero(zero) && HasWidth(terms, |step|) && |residuals| == 2 * |terms|
    requires IsGram(matrix, terms, |step|, 2 * |terms|) && IsMoment(gradient, terms, residuals, |step|, 2 * |terms|)
    requires IsDamped(damped, matrix, damping) && damping > 0.0
    requires Maps(damped, step, Negated(gradient)) && !IsZero(gradient)
    ensures LinearisedCost(terms, residuals, step, 2 * |terms|) < LinearisedCost(terms, residuals, zero, 2 * |terms|)
  {
    hide Times, Dot, IsMoment, Image, Gram, Moment, LinearisedCost, SquaredImage, Negated, Quadratic;
    var n, k := |step|, 2 * |terms|;
    StepDescends(matrix, damped, damping, terms, gradient, step);
    StepSlope(damped, gradient, step);
    LinearisedCostExpands(terms, residuals, step, zero, k);
    SameMoment(gradient, terms, residuals, n, k);
    AssembledIsSemidefinite(matrix, terms, step);
    DampingOnlyAdds(matrix, damped, damping, step);
  }

  lemma SameMoment(gradient: seq<real>, terms: seq<Term>, residuals: seq<real>, n: nat, k: nat)
    requires HasWidth(terms, n) && k <= 2 * |terms| && k <= |residuals| && IsMoment(gradient, terms, residuals, n, k)
    ensures gradient == MomentVector(terms, residuals, n, k)
  {
  }

  // ---------------------------------------------------------------------
  // _damped
  // ---------------------------------------------------------------------

  // The program's 1e-12.
  const DIAGONAL_FLOOR: real := 1.0 / 1000000000000.0

  function DampedEntry(diagonal: real, damping: real): real {
    diagonal + damping * (if Abs(diagonal) >= DIAGONAL_FLOOR then Abs(diagonal) else DIAGONAL_FLOOR)
  }

  ghost predicate IsDamped(damped: Matrix, matrix: Matrix, damping: real)
    requires HasShape(matrix, |matrix|, |matrix|)
  {
    && HasShape(damped, |matrix|, |matrix|)
    && forall a, b | 0 <= a < |matrix| && 0 <= b < |matrix| ::
         damped[a][b] == if a == b then DampedEntry(matrix[a][a], damping) else matrix[a][b]
  }

  method Damp(matrix: Matrix, damping: real) returns (damped: Matrix)
    requires HasShape(matrix, |matrix|, |matrix|)
    ensures IsDamped(damped, matrix, damping)
  {
    damped := matrix;
    for index := 0 to |matrix|
      invariant HasShape(damped, |matrix|, |matrix|)
      invariant forall a, b | 0 <= a < |matrix| && 0 <= b < |matrix| ::
                  damped[a][b] == if a == b && a < index then DampedEntry(matrix[a][a], damping) else matrix[a][b]
    {
      var diagonal := damped[index][index];
      damped := damped[index := damped[index][index := DampedEntry(diagonal, damping)]];
    }
  }

  /** The quadratic form of the diagonal that damping adds. */
  ghost function Added(matrix: Matrix, damping: real, x: seq<real>, k: nat): real
    requires HasShape(matrix, |x|, |x|) && k <= |x|
  {
    if k == 0 then 0.0
    else
      var diagonal := matrix[k - 1][k - 1];
      Added(matrix, damping, x, k - 1) + Times(x[k - 1], Times(DampedEntry(diagonal, damping) - diagonal, x[k - 1]))
  }

  lemma {:induction false} DampedQuadraticTo(matrix: Matrix, damped: Matrix, damping: real, x: seq<real>, k: nat)
    requires HasShape(matrix, |x|, |x|) && IsDamped(damped, matrix, damping) && k <= |x|
    ensures Dot(x, Image(damped, x), k) == Dot(x, Image(matrix, x), k) + Added(matrix, damping, x, k)
  {
    hide Times;
    hide Image;
    hide DampedEntry;
    if k > 0 {
      var a := k - 1;
      DampedQuadraticTo(matrix, damped, damping, x, a);
      DotUpdated(damped[a], matrix[a], x, |x|, a);
      TimesDistributes(x[a], Image(matrix, x)[a], Times(damped[a][a] - matrix[a][a], x[a]));
    }
  }

  lemma WeightedSquare(weight: real, v: real)
    requires weight > 0.0
    ensures Times(v, Times(weight, v)) >= 0.0
    ensures v != 0.0 ==> Times(v, Times(weight, v)) > 0.0
  {
    if v > 0.0 {
      PositiveProduct(weight, v);
      PositiveProduct(v, weight * v);
    } else if v < 0.0 {
      PositiveProduct(weight, -v);
      PositiveProduct(-v, weight * -v);
      assert v * (weight * v) == (-v) * (weight * -v);
    }
  }

  lemma AddedTerm(diagonal: real, damping: real, v: real)
    requires damping > 0.0
    ensures Times(v, Times(DampedEntry(diagonal, damping) - diagonal, v)) >= 0.0
    ensures v != 0.0 ==> Times(v, Times(DampedEntry(diagonal, damping) - diagonal, v)) > 0.0
  {
    hide Times;
    var weight := DampedEntry(diagonal, damping) - diagonal;
    PositiveProduct(damping, if Abs(diagonal) >= DIAGONAL_FLOOR then Abs(diagonal) else DIAGONAL_FLOOR);
    WeightedSquare(weight, v);
  }

  lemma {:induction false} AddedPositive(matrix: Matrix, damping: real, x: seq<real>, k: nat)
    requires HasShape(matrix, |x|, |x|) && k <= |x| && damping > 0.0
    ensures Added(matrix, damping, x, k) >= 0.0
    ensures forall i | 0 <= i < k && x[i] != 0.0 :: Added(matrix, damping, x, k) > 0.0
  {
    hide Times;
    hide DampedEntry;
    if k > 0 {
      AddedPositive(matrix, damping, x, k - 1);
      AddedTerm(matrix[k - 1][k - 1], damping, x[k - 1]);
    }
  }

  /** The damping is relative: a diagonal entry above the floor is multiplied by 1 + damping, a
      smaller one raised as if it were at the floor, and no other entry changes. */
  lemma DampingIsRelative(matrix: Matrix, damped: Matrix, damping: real, a: nat, b: nat)
    requires HasShape(matrix, |matrix|, |matrix|) && IsDamped(damped, matrix, damping)
    requires a < |matrix| && b < |matrix|
    ensures a == b && matrix[a][a] >= 0.000000000001 ==> damped[a][a] == (1.0 + damping) * matrix[a][a]
    ensures a == b && 0.0 <= matrix[a][a] < 0.000000000001 ==> damped[a][a] == matrix[a][a] + damping * 0.000000000001
    ensures a != b ==> damped[a][b] == matrix[a][b]
  {
  }

  lemma DampingOnlyAdds(matrix: Matrix, damped: Matrix, damping: real, x: seq<real>)
    requires HasShape(matrix, |x|, |x|) && IsDamped(damped, matrix, damping) && damping > 0.0
    ensures Quadratic(matrix, x) <= Quadratic(damped, x)
  {
    hide Dot;
    hide Times;
    DampedQuadraticTo(matrix, damped, damping, x, |x|);
    AddedPositive(matrix, damping, x, |x|);
  }

  /** Positive damping makes the assembled matrix positive definite. */
  lemma DampedIsDefinite(matrix: Matrix, damped: Matrix, damping: real, terms: seq<Term>, x: seq<real>)
    requires HasWidth(terms, |x|) && IsGram(matrix, terms, |x|, 2 * |terms|)
    requires IsDamped(damped, matrix, damping) && damping > 0.0
    requires !IsZero(x)
    ensures Quadratic(damped, x) > 0.0
  {
    hide Dot;
    hide Times;
    AssembledIsSemidefinite(matrix, terms, x);
    DampedQuadraticTo(matrix, damped, damping, x, |x|);
    AddedPositive(matrix, damping, x, |x|);
  }

  function Negated(x: seq<real>): (y: seq<real>)
    ensures |y| == |x| && forall i {:trigger y[i]} | 0 <= i < |x| :: y[i] == -x[i]
  {
    seq(|x|, i requires 0 <= i < |x| => -x[i])
  }

  lemma {:induction false} DotNegated(x: seq<real>, y: seq<real>, n: nat)
    requires n <= |x| == |y|
    ensures Dot(y, Negated(x), n) == -Dot(x, y, n)
  {
    hide Negated;
    if n > 0 {
      DotNegated(x, y, n - 1);
      assert Times(y[n - 1], -x[n - 1]) == -Times(x[n - 1], y[n - 1]);
    }
  }

  /** g . s = -s^T D s for a step with D s = -g. */
  lemma StepSlope(damped: Matrix, gradient: seq<real>, step: seq<real>)
    requires |step| == |gradient| && HasShape(damped, |step|, |step|)
    requires Maps(damped, step, Negated(gradient))
    ensures Dot(gradient, step, |step|) == -Quadratic(damped, step)
  {
    hide Dot;
    assert Image(damped, step) == Negated(gradient);
    DotNegated(gradient, step, |step|);
  }

  /** A step solving the damped equations is zero exactly when the gradient is,
      and otherwise goes strictly downhill. */
  lemma StepDescends(matrix: Matrix, damped: Matrix, damping: real, terms: seq<Term>, gradient: seq<real>, step: seq<real>)
    requires |step| == |gradient| && HasWidth(terms, |step|)
    requires IsGram(matrix, terms, |step|, 2 * |terms|)
    requires IsDamped(damped, matrix, damping) && damping > 0.0
    requires Maps(damped, step, Negated(gradient))
    ensures IsZero(step) <==> IsZero(gradient)
    ensures !IsZero(gradient) ==> Dot(gradient, step, |step|) < 0.0
  {
    hide Dot;
    hide Times;
    var n := |step|;
    StepSlope(damped, gradient, step);
    if IsZero(step) {
      forall a | 0 <= a < n ensures gradient[a] == 0.0 {
        DotZero(damped[a], step, n);
        assert Dot(damped[a], step, n) == Negated(gradient)[a];
      }
    } else {
      DampedIsDefinite(matrix, damped, damping, terms, step);
      if IsZero(gradient) {
        DotZero(gradient, step, n);
        assert false;
      }
    }
  }
}
