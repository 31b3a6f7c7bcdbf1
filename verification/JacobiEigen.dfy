/** The cyclic Jacobi eigen-solver of src/stroy/camera/solve.py. */
module JacobiEigen {
  import opened Reals
  import opened Vectors
  import opened Mat3
  import opened Projection

  /** The rows of a 3x3 list of lists. */
  function View(m: Matrix): Mat
    requires |m| == 3 && |m[0]| == 3 && |m[1]| == 3 && |m[2]| == 3
  {
    Mat(RowView(m[0]), RowView(m[1]), RowView(m[2]))
  }

  function RowView(r: seq<real>): Vec
    requires |r| == 3
  {
    Vec(r[0], r[1], r[2])
  }

  ghost predicate Is3x3(m: Matrix) {
    |m| == 3 && |m[0]| == 3 && |m[1]| == 3 && |m[2]| == 3
  }

  /** The plane rotation of columns p < q. */
  function Givens(p: nat, q: nat, a: UnitAngle): Mat
    requires p < q < 3
  {
    if p == 0 && q == 1 then Mat(Vec(a.cos, a.sin, 0.0), Vec(-a.sin, a.cos, 0.0), Vec(0.0, 0.0, 1.0))
    else if p == 0 then Mat(Vec(a.cos, 0.0, a.sin), Vec(0.0, 1.0, 0.0), Vec(-a.sin, 0.0, a.cos))
    else Mat(Vec(1.0, 0.0, 0.0), Vec(0.0, a.cos, a.sin), Vec(0.0, -a.sin, a.cos))
  }

  lemma GivensOrthonormal(p: nat, q: nat, a: UnitAngle)
    requires p < q < 3
    ensures Orthonormal(Givens(p, q, a))
  {
  }

  // ---------------------------------------------------------------------
  // The similarity every rotation keeps
  // ---------------------------------------------------------------------

  /** V is orthonormal and V^T M V = W. */
  ghost predicate Diagonalising(m: Mat, v: Mat, w: Mat) {
    Orthonormal(v) && w == Mul(Transpose(v), Mul(m, v))
  }

  lemma RotationKeepsSimilarity(m: Mat, v: Mat, w: Mat, g: Mat)
    requires Diagonalising(m, v, w) && Orthonormal(g)
    ensures Diagonalising(m, Mul(v, g), Mul(Transpose(g), Mul(w, g)))
  {
    hide Mul;
    hide Transpose;
    OrthonormalProduct(v, g);
    MulTransposes(v, g);
    var vt, gt := Transpose(v), Transpose(g);
    MulAssociates(vt, Mul(m, v), g);
    MulAssociates(m, v, g);
    MulAssociates(gt, vt, Mul(m, Mul(v, g)));
  }

  lemma StartSimilar(m: Mat)
    ensures Diagonalising(m, IDENTITY, m)
  {
    hide Mul;
    assert Transpose(IDENTITY) == IDENTITY;
    MulIdentity(m);
    MulIdentity(IDENTITY);
  }

  /** Trace, Frobenius norm and symmetry survive. */
  lemma SimilarityInvariants(m: Mat, v: Mat, w: Mat)
    requires Diagonalising(m, v, w)
    ensures Trace(w) == Trace(m)
    ensures Frobenius(w) == Frobenius(m)
    ensures Symmetric(m) ==> Symmetric(w)
  {
    hide Mul;
    hide Transpose;
    hide Trace;
    hide Frobenius;
    var vt, mt := Transpose(v), Transpose(m);
    TraceOfConjugate(m, v);
    TransposeInvolutive(v);
    MulTransposes(vt, Mul(m, v));
    MulTransposes(m, v);
    MulAssociates(vt, mt, v);
    assert Transpose(w) == Mul(vt, Mul(mt, v));
    FrobeniusIsTrace(w);
    FrobeniusIsTrace(m);
    SandwichCancels(Mul(vt, mt), v, vt, Mul(m, v));
    MulAssociates(vt, mt, Mul(m, v));
    MulAssociates(mt, m, v);
    TraceOfConjugate(Mul(mt, m), v);
  }

  lemma TraceOfConjugate(m: Mat, v: Mat)
    requires Orthonormal(v)
    ensures Trace(Mul(Transpose(v), Mul(m, v))) == Trace(m)
  {
    hide Mul;
    hide Transpose;
    hide Trace;
    TraceCommutes(Transpose(v), Mul(m, v));
    MulAssociates(m, v, Transpose(v));
    MulIdentity(m);
  }

  // ---------------------------------------------------------------------
  // The off-diagonal mass
  // ---------------------------------------------------------------------

  /** Half the squared off-diagonal part of a symmetric matrix. */
  function OffDiagonal(w: Mat): real { Sq(w.r0.y) + Sq(w.r0.z) + Sq(w.r1.z) }

  function Sq(x: real): real { x * x }

  function Entry(w: Mat, p: nat, q: nat): real
    requires p < 3 && q < 3
  {
    Coordinate(Row(w, p), q)
  }

  function Row(w: Mat, p: nat): Vec
    requires p < 3
  {
    if p == 0 then w.r0 else if p == 1 then w.r1 else w.r2
  }

  function Coordinate(v: Vec, q: nat): real
    requires q < 3
  {
    if q == 0 then v.x else if q == 1 then v.y else v.z
  }

  /** `half(y, x)` is half the polar angle of (x, y), as 0.5 * atan2(y, x) is:
      sin(2 theta) x = cos(2 theta) y. */
  ghost predicate IsHalfAngle(half: (real, real) -> UnitAngle) {
    forall y: real, x: real :: HalvesAngle(half(y, x), y, x)
  }

  ghost predicate HalvesAngle(a: UnitAngle, y: real, x: real) {
    2.0 * (a.cos * a.sin) * x == (a.cos * a.cos - a.sin * a.sin) * y
  }

  /** Turning (u, v) keeps the sum of squares. */
  lemma TurnKeepsSquares(a: UnitAngle, u: real, v: real, t: real, t': real)
    requires IsTurned(a, u, v, t, t')
    ensures Sq(t) + Sq(t') == Sq(u) + Sq(v)
  {
    var c, s := a.cos, a.sin;
    assert (c * u - s * v) * (c * u - s * v) + (s * u + c * v) * (s * u + c * v) == (c * c + s * s) * (u * u + v * v);
  }

  /** The new (p, q) entry vanishes at the chosen angle. */
  lemma TurnAnnihilates(a: UnitAngle, pp: real, pq: real, qq: real, xpp: real, xpq: real, xqp: real, xqq: real, tpq: real, tqq: real)
    requires HalvesAngle(a, 2.0 * pq, qq - pp)
    requires IsTurned(a, pp, pq, xpp, xpq) && IsTurned(a, pq, qq, xqp, xqq) && IsTurned(a, xpq, xqq, tpq, tqq)
    ensures tpq == 0.0 && Sq(tpq) == 0.0
  {
    var c, s := a.cos, a.sin;
    assert tpq == c * (s * pp + c * pq) - s * (s * pq + c * qq);
    assert 2.0 * tpq == (c * c - s * s) * (2.0 * pq) - 2.0 * (c * s) * (qq - pp);
  }

  /** One rotation of a symmetric matrix removes exactly its (p, q) entry from
      the off-diagonal mass. */
  lemma RotationShrinksOffDiagonal(w: Mat, p: nat, q: nat, a: UnitAngle)
    requires p < q < 3 && Symmetric(w)
    requires HalvesAngle(a, 2.0 * Entry(w, p, q), Entry(w, q, q) - Entry(w, p, p))
    ensures var g := Givens(p, q, a);
            && OffDiagonal(Mul(Transpose(g), Mul(w, g))) == OffDiagonal(w) - Sq(Entry(w, p, q))
            && Entry(Mul(Transpose(g), Mul(w, g)), p, q) == 0.0
  {
    var g := Givens(p, q, a);
    var t := Mul(Transpose(g), Mul(w, g));
    var r: nat := 3 - p - q;
    SymmetricEntries(w, r, p);
    SymmetricEntries(w, r, q);
    TurnedAlike(a, w, t, p, q);
    hide *;
    var x := RotatedEntries(w, p, q, a);
    TurnKeepsSquares(a, Entry(w, r, p), Entry(w, r, q), Entry(t, r, p), Entry(t, r, q));
    TurnAnnihilates(a, Entry(w, p, p), Entry(w, p, q), Entry(w, q, q),
                    Entry(x, p, p), Entry(x, p, q), Entry(x, q, p), Entry(x, q, q), Entry(t, p, q), Entry(t, q, q));
    OffDiagonalSplits(w, p, q);
    OffDiagonalSplits(t, p, q);
  }

  lemma TurnedAlike(a: UnitAngle, w: Mat, t: Mat, p: nat, q: nat)
    requires p < q < 3
    ensures var r: nat := 3 - p - q;
            && IsTurned(a, Entry(w, r, p), Entry(w, r, q), Entry(t, r, p), Entry(t, r, q))
            && IsTurned(a, Entry(w, r, p), Entry(w, r, q), Entry(t, p, r), Entry(t, q, r))
            ==> Entry(t, r, p) == Entry(t, p, r) && Entry(t, r, q) == Entry(t, q, r)
  {
  }

  lemma RowTurned(v: Vec, p: nat, q: nat, a: UnitAngle)
    requires p < q < 3
    ensures var t := RowTimes(v, Givens(p, q, a));
            && IsTurned(a, Coordinate(v, p), Coordinate(v, q), Coordinate(t, p), Coordinate(t, q))
            && Coordinate(t, 3 - p - q) == Coordinate(v, 3 - p - q)
  {
    if p == 0 && q == 1 {
    } else if p == 0 {
      assert q == 2;
    } else {
      assert p == 1 && q == 2;
    }
  }

  /** Row k after turning columns p and q. */
  lemma ColumnsTurned(w: Mat, p: nat, q: nat, a: UnitAngle, k: nat)
    requires p < q < 3 && k < 3
    ensures var t := Mul(w, Givens(p, q, a));
            && IsTurned(a, Entry(w, k, p), Entry(w, k, q), Entry(t, k, p), Entry(t, k, q))
            && Entry(t, k, 3 - p - q) == Entry(w, k, 3 - p - q)
  {
    hide RowTimes;
    hide Givens;
    hide Coordinate;
    hide IsTurned;
    RowTurned(Row(w, k), p, q, a);
    assert Row(Mul(w, Givens(p, q, a)), k) == RowTimes(Row(w, k), Givens(p, q, a));
  }

  lemma TransposedEntry(w: Mat, p: nat, q: nat)
    requires p < 3 && q < 3
    ensures Entry(Transpose(w), p, q) == Entry(w, q, p)
  {
  }

  /** Column k after turning rows p and q. */
  lemma RowsTurned(w: Mat, p: nat, q: nat, a: UnitAngle, k: nat)
    requires p < q < 3 && k < 3
    ensures var t := Mul(Transpose(Givens(p, q, a)), w);
            && IsTurned(a, Entry(w, p, k), Entry(w, q, k), Entry(t, p, k), Entry(t, q, k))
            && Entry(t, 3 - p - q, k) == Entry(w, 3 - p - q, k)
  {
    hide Mul;
    hide Givens;
    hide Entry;
    hide IsTurned;
    hide Transpose;
    var wt, g, r: nat := Transpose(w), Givens(p, q, a), 3 - p - q;
    var t := Mul(Transpose(g), w);
    MulTransposes(wt, g);
    TransposeInvolutive(w);
    ColumnsTurned(wt, p, q, a, k);
    TransposedEntry(w, k, p);
    TransposedEntry(w, k, q);
    TransposedEntry(w, k, r);
    TransposedEntry(Mul(wt, g), p, k);
    TransposedEntry(Mul(wt, g), q, k);
    TransposedEntry(Mul(wt, g), r, k);
  }

  lemma SymmetricEntries(w: Mat, p: nat, q: nat)
    requires Symmetric(w) && p < 3 && q < 3
    ensures Entry(w, p, q) == Entry(w, q, p)
  {
  }

  /** The entries that touch p or q after turning both rows and columns. */
  lemma RotatedEntries(w: Mat, p: nat, q: nat, a: UnitAngle) returns (x: Mat)
    requires p < q < 3 && Symmetric(w)
    ensures var t := Mul(Transpose(Givens(p, q, a)), Mul(w, Givens(p, q, a)));
            var r: nat := 3 - p - q;
            && IsTurned(a, Entry(w, r, p), Entry(w, r, q), Entry(t, r, p), Entry(t, r, q))
            && IsTurned(a, Entry(w, r, p), Entry(w, r, q), Entry(t, p, r), Entry(t, q, r))
            && IsTurned(a, Entry(w, p, p), Entry(w, p, q), Entry(x, p, p), Entry(x, p, q))
            && IsTurned(a, Entry(w, p, q), Entry(w, q, q), Entry(x, q, p), Entry(x, q, q))
            && IsTurned(a, Entry(x, p, q), Entry(x, q, q), Entry(t, p, q), Entry(t, q, q))
  {
    var r: nat := 3 - p - q;
    x := Mul(w, Givens(p, q, a));
    SymmetricEntries(w, r, p);
    SymmetricEntries(w, r, q);
    SymmetricEntries(w, p, q);
    hide *;
    ColumnsTurned(w, p, q, a, r);
    ColumnsTurned(w, p, q, a, p);
    ColumnsTurned(w, p, q, a, q);
    RowsTurned(x, p, q, a, r);
    RowsTurned(x, p, q, a, p);
    RowsTurned(x, p, q, a, q);
  }

  lemma OffDiagonalSplits(w: Mat, p: nat, q: nat)
    requires p < q < 3
    requires var r: nat := 3 - p - q; Entry(w, r, p) == Entry(w, p, r) && Entry(w, r, q) == Entry(w, q, r)
    ensures var r: nat := 3 - p - q;
            OffDiagonal(w) == Sq(Entry(w, p, q)) + (Sq(Entry(w, r, p)) + Sq(Entry(w, r, q)))
  {
  }

  // ---------------------------------------------------------------------
  // The in-place rotations
  // ---------------------------------------------------------------------

  lemma ViewEntries(m: Matrix, n: Mat)
    requires Is3x3(m)
    requires forall r: nat, k: nat | r < 3 && k < 3 :: m[r][k] == Entry(n, r, k)
    ensures View(m) == n
  {
    assert m[0][0] == Entry(n, 0, 0) && m[0][1] == Entry(n, 0, 1) && m[0][2] == Entry(n, 0, 2);
    assert m[1][0] == Entry(n, 1, 0) && m[1][1] == Entry(n, 1, 1) && m[1][2] == Entry(n, 1, 2);
    assert m[2][0] == Entry(n, 2, 0) && m[2][1] == Entry(n, 2, 1) && m[2][2] == Entry(n, 2, 2);
  }

  lemma EntryOfView(m: Matrix, r: nat, k: nat)
    requires Is3x3(m) && r < 3 && k < 3
    ensures Entry(View(m), r, k) == m[r][k]
  {
  }

  /** Turn columns p and q of every row. */
  method TurnColumns(start: Matrix, p: nat, q: nat, a: UnitAngle) returns (work: Matrix)
    requires Is3x3(start) && p < q < 3
    ensures Is3x3(work) && View(work) == Mul(View(start), Givens(p, q, a))
  {
    work := start;
    ghost var turned := Mul(View(start), Givens(p, q, a));
    hide Mul;
    hide Givens;
    hide View;
    hide Entry;
    hide TurnFirst;
    hide TurnSecond;
    for row := 0 to 3
      invariant Is3x3(work)
      invariant forall r | row <= r < 3 :: work[r] == start[r]
      invariant forall r: nat, k: nat | r < row && k < 3 :: work[r][k] == Entry(turned, r, k)
    {
      var aP, aQ := work[row][p], work[row][q];
      work := work[row := work[row][p := TurnFirst(a, aP, aQ)]];
      work := work[row := work[row][q := TurnSecond(a, aP, aQ)]];
      ColumnsTurned(View(start), p, q, a, row);
      forall k: nat | k < 3 ensures work[row][k] == Entry(turned, row, k) {
        EntryOfView(start, row, p);
        EntryOfView(start, row, q);
        EntryOfView(start, row, k);
        assert k == p || k == q || k == 3 - p - q;
      }
    }
    ViewEntries(work, turned);
  }

  /** Turn rows p and q in every column. */
  method TurnRows(start: Matrix, p: nat, q: nat, a: UnitAngle) returns (work: Matrix)
    requires Is3x3(start) && p < q < 3
    ensures Is3x3(work) && View(work) == Mul(Transpose(Givens(p, q, a)), View(start))
  {
    work := start;
    ghost var turned := Mul(Transpose(Givens(p, q, a)), View(start));
    hide Mul;
    hide Givens;
    hide View;
    hide Entry;
    hide TurnFirst;
    hide TurnSecond;
    for column := 0 to 3
      invariant Is3x3(work)
      invariant forall r: nat, k: nat | r < 3 && k < column :: work[r][k] == Entry(turned, r, k)
      invariant forall r, k | 0 <= r < 3 && column <= k < 3 :: work[r][k] == start[r][k]
    {
      var aP, aQ := work[p][column], work[q][column];
      work := work[p := work[p][column := TurnFirst(a, aP, aQ)]];
      work := work[q := work[q][column := TurnSecond(a, aP, aQ)]];
      RowsTurned(View(start), p, q, a, column);
      forall r: nat | r < 3 ensures work[r][column] == Entry(turned, r, column) {
        EntryOfView(start, p, column);
        EntryOfView(start, q, column);
        EntryOfView(start, r, column);
        assert r == p || r == q || r == 3 - p - q;
      }
    }
    ViewEntries(work, turned);
  }

  // The program's 1e-15 and 1e-18.
  const CONVERGED: real := 1.0 / 1000000000000000.0
  const NEGLIGIBLE: real := 1.0 / 1000000000000000000.0

  /** What the sweeps keep: the similarity, and an off-diagonal mass that never grows. */
  ghost predicate SweepInvariant(m: Mat, v: Matrix, w: Matrix) {
    && Is3x3(v) && Is3x3(w)
    && Diagonalising(m, View(v), View(w))
    && OffDiagonal(View(w)) <= OffDiagonal(m)
  }

  /** One (p, q) step of a sweep. */
  method Eliminate(ghost m: Mat, half: (real, real) -> UnitAngle, v: Matrix, w: Matrix, p: nat, q: nat)
    returns (vectors: Matrix, work: Matrix)
    requires IsHalfAngle(half) && Symmetric(m) && p < q < 3
    requires SweepInvariant(m, v, w)
    ensures SweepInvariant(m, vectors, work)
    ensures Abs(w[p][q]) < NEGLIGIBLE ==> vectors == v && work == w
    ensures Abs(w[p][q]) >= NEGLIGIBLE ==>
              Entry(View(work), p, q) == 0.0 && OffDiagonal(View(work)) == OffDiagonal(View(w)) - Sq(w[p][q])
  {
    work, vectors := w, v;
    if Abs(work[p][q]) < NEGLIGIBLE {
      return;
    }
    assert Entry(View(w), p, q) == w[p][q];
    SimilarityInvariants(m, View(v), View(w));
    var angle := half(2.0 * work[p][q], work[q][q] - work[p][p]);
    assert HalvesAngle(angle, 2.0 * Entry(View(w), p, q), Entry(View(w), q, q) - Entry(View(w), p, p));
    hide Mul;
    hide OffDiagonal;
    work := TurnColumns(work, p, q, angle);
    work := TurnRows(work, p, q, angle);
    vectors := TurnColumns(vectors, p, q, angle);
    GivensOrthonormal(p, q, angle);
    RotationKeepsSimilarity(m, View(v), View(w), Givens(p, q, angle));
    RotationShrinksOffDiagonal(View(w), p, q, angle);
    SquareNonnegative(w[p][q]);
  }

  lemma SquareNonnegative(x: real)
    ensures Sq(x) >= 0.0
    ensures Abs(x) >= NEGLIGIBLE ==> Sq(x) >= NEGLIGIBLE * NEGLIGIBLE
    ensures Abs(x) < NEGLIGIBLE ==> Sq(x) <= NEGLIGIBLE * NEGLIGIBLE
  {
    var a := Abs(x);
    assert Sq(x) == a * a;
    if a >= NEGLIGIBLE {
      ProductMonotone(NEGLIGIBLE, a);
    } else {
      ProductMonotone(a, NEGLIGIBLE);
    }
  }

  lemma ProductMonotone(a: real, b: real)
    requires 0.0 <= a <= b
    ensures a * a <= b * b
  {
    if a < b && a > 0.0 {
      BelowSquare(a, b);
    }
  }

  /** The pairs of a sweep before (p, q), in the order of its loops, all hold negligible entries. */
  ghost predicate NegligibleBefore(w: Matrix, p: nat, q: nat)
    requires Is3x3(w)
  {
    forall i, j | 0 <= i < j < 3 && (i < p || (i == p && j < q)) :: Abs(w[i][j]) < NEGLIGIBLE
  }

  /** Either nothing had to be turned so far, or the mass fell by a least amount. */
  ghost predicate SweptTo(v0: Matrix, w0: Matrix, v: Matrix, w: Matrix, p: nat, q: nat)
    requires Is3x3(w0) && Is3x3(w)
  {
    || (v == v0 && w == w0 && NegligibleBefore(w0, p, q))
    || OffDiagonal(View(w)) + NEGLIGIBLE * NEGLIGIBLE <= OffDiagonal(View(w0))
  }

  /** One sweep over all pairs. */
  method Sweep(ghost m: Mat, half: (real, real) -> UnitAngle, v: Matrix, w: Matrix) returns (vectors: Matrix, work: Matrix)
    requires IsHalfAngle(half) && Symmetric(m)
    requires SweepInvariant(m, v, w)
    ensures SweepInvariant(m, vectors, work)
    ensures SweptTo(v, w, vectors, work, 3, 0)
  {
    hide Diagonalising, OffDiagonal, Mul, Transpose, Symmetric, Sq;
    work, vectors := w, v;
    for p := 0 to 3
      invariant SweepInvariant(m, vectors, work)
      invariant SweptTo(v, w, vectors, work, p, p + 1)
    {
      for q := p + 1 to 3
        invariant SweepInvariant(m, vectors, work)
        invariant SweptTo(v, w, vectors, work, p, q)
      {
        SquareNonnegative(work[p][q]);
        vectors, work := Eliminate(m, half, vectors, work, p, q);
      }
    }
  }

  /** A sweep that turned nothing has met a converged matrix. */
  lemma NegligibleIsConverged(w: Matrix)
    requires Is3x3(w) && NegligibleBefore(w, 3, 0)
    ensures OffDiagonal(View(w)) < CONVERGED * CONVERGED
  {
    OffDiagonalOf(w);
    assert Abs(w[0][1]) < NEGLIGIBLE && Abs(w[0][2]) < NEGLIGIBLE && Abs(w[1][2]) < NEGLIGIBLE;
    SquareNonnegative(w[0][1]);
    SquareNonnegative(w[0][2]);
    SquareNonnegative(w[1][2]);
    assert 3.0 * (NEGLIGIBLE * NEGLIGIBLE) < CONVERGED * CONVERGED;
  }

  /** Eigenvalue estimates and orthonormal eigenvector estimates (one a row) of a
      symmetric matrix; `w` is the rotated matrix the values are the diagonal of. */
  method Eigen(matrix: Matrix, half: (real, real) -> UnitAngle, sqrt: real -> real)
    returns (eigenvalues: seq<real>, eigenvectors: Matrix, sweeps: nat, ghost w: Mat)
    requires Is3x3(matrix) && Symmetric(View(matrix))
    requires IsHalfAngle(half) && IsSqrt(sqrt)
    ensures Is3x3(eigenvectors) && Diagonalising(View(matrix), Transpose(View(eigenvectors)), w)
    ensures eigenvalues == [w.r0.x, w.r1.y, w.r2.z]
    ensures OffDiagonal(w) + (sweeps as real) * (NEGLIGIBLE * NEGLIGIBLE) <= OffDiagonal(View(matrix))
    ensures sweeps <= 100 && (sweeps < 100 ==> OffDiagonal(w) < CONVERGED * CONVERGED)
  {
    hide Diagonalising, OffDiagonal, Mul, Transpose, Symmetric, Sq;
    var work := matrix;
    var vectors: Matrix := [[1.0, 0.0, 0.0], [0.0, 1.0, 0.0], [0.0, 0.0, 1.0]];
    ghost var m := View(matrix);
    StartSimilar(m);
    assert View(vectors) == IDENTITY;
    sweeps := 0;
    while sweeps < 100
      invariant sweeps <= 100
      invariant SweepInvariant(m, vectors, work)
      invariant OffDiagonal(View(work)) + (sweeps as real) * (NEGLIGIBLE * NEGLIGIBLE) <= OffDiagonal(m)
    {
      var off := Sq(work[0][1]) + Sq(work[0][2]) + Sq(work[1][2]);
      OffDiagonalOf(work);
      if sqrt(off) < CONVERGED {
        SmallRoot(sqrt, off);
        break;
      }
      LargeRoot(sqrt, off);
      ghost var was := work;
      vectors, work := Sweep(m, half, vectors, work);
      if NegligibleBefore(was, 3, 0) {
        NegligibleIsConverged(was);
      }
      OneMoreSweep(sweeps);
      sweeps := sweeps + 1;
    }
    w := View(work);
    eigenvalues := seq(3, index requires 0 <= index < 3 => work[index][index]);
    eigenvectors := seq(3, index requires 0 <= index < 3 => seq(3, row requires 0 <= row < 3 => vectors[row][index]));
    ColumnsAreTransposed(vectors, eigenvectors);
  }

  lemma OffDiagonalOf(work: Matrix)
    requires Is3x3(work)
    ensures OffDiagonal(View(work)) == Sq(work[0][1]) + Sq(work[0][2]) + Sq(work[1][2]) >= 0.0
  {
  }

  lemma ColumnsAreTransposed(vectors: Matrix, columns: Matrix)
    requires Is3x3(vectors) && Is3x3(columns)
    requires forall i, r | 0 <= i < 3 && 0 <= r < 3 :: columns[i][r] == vectors[r][i]
    ensures Transpose(View(columns)) == View(vectors)
  {
  }

  lemma BelowSquare(a: real, b: real)
    requires 0.0 < a < b
    ensures a * a < b * b
  {
    PositiveProduct(b - a, a);
    PositiveProduct(b - a, b);
  }

  lemma OneMoreSweep(n: nat)
    ensures ((n + 1) as real) * (NEGLIGIBLE * NEGLIGIBLE) == (n as real) * (NEGLIGIBLE * NEGLIGIBLE) + NEGLIGIBLE * NEGLIGIBLE
  {
  }

  lemma LargeRoot(sqrt: real -> real, v: real)
    requires IsSqrt(sqrt) && v >= 0.0 && sqrt(v) >= CONVERGED
    ensures v >= CONVERGED * CONVERGED
  {
    ProductMonotone(CONVERGED, sqrt(v));
  }

  lemma SmallRoot(sqrt: real -> real, v: real)
    requires IsSqrt(sqrt) && v >= 0.0 && sqrt(v) < CONVERGED
    ensures v < CONVERGED * CONVERGED
  {
    var r := sqrt(v);
    assert r * r == v && r >= 0.0;
    if r > 0.0 {
      BelowSquare(r, CONVERGED);
    } else {
      PositiveProduct(CONVERGED, CONVERGED);
    }
  }

  // ---------------------------------------------------------------------
  // What the result means
  // ---------------------------------------------------------------------

  lemma AdjointInner(m: Mat, x: Vec, y: Vec)
    ensures Inner(Apply(m, x), y) == Inner(x, Apply(Transpose(m), y))
  {
    hide Apply;
    RowColumnAssociates(y, m, x);
    assert RowTimes(y, m) == Apply(Transpose(m), y) by { RowTimesIsTransposed(y, m); }
    InnerCommutes(Apply(m, x), y);
    InnerCommutes(RowTimes(y, m), x);
  }

  lemma InnerCommutes(a: Vec, b: Vec)
    ensures Inner(a, b) == Inner(b, a)
  {
  }

  lemma RowTimesIsTransposed(y: Vec, m: Mat)
    ensures RowTimes(y, m) == Apply(Transpose(m), y)
  {
  }

  /** Orthonormal maps keep length. */
  lemma OrthonormalKeepsLength(e: Mat, x: Vec)
    requires Orthonormal(e)
    ensures Inner(Apply(e, x), Apply(e, x)) == Inner(x, x)
  {
    hide Apply;
    hide Mul;
    hide Transpose;
    hide Inner;
    AdjointInner(e, x, Apply(e, x));
    ApplyAssociates(Transpose(e), e, x);
    ApplyIdentity(x);
  }

  /** How far (value, vector) is from an eigenpair: the squared length of M v_i - w_ii v_i is
      the rest of column i of the rotated matrix. */
  lemma EigenResidual(m: Mat, v: Mat, w: Mat, i: nat)
    requires Diagonalising(m, v, w) && i < 3
    ensures var e := Apply(v, Unit(i));
            var r := Minus(Apply(m, e), Scale(Entry(w, i, i), e));
            var rest := Minus(Apply(w, Unit(i)), Scale(Entry(w, i, i), Unit(i)));
            Inner(r, r) == Inner(rest, rest)
  {
    var u, k, vt := Unit(i), Entry(w, i, i), Transpose(v);
    var e := Apply(v, u);
    var r := Minus(Apply(m, e), Scale(k, e));
    ScaledApply(vt, k, e);
    TransposeInvolutive(v);
    assert Orthonormal(vt);
    hide Apply;
    hide Mul;
    hide Transpose;
    hide Inner;
    ApplyLinear(vt, Apply(m, e), Scale(k, e));
    ApplyAssociates(m, v, u);
    ApplyAssociates(vt, Mul(m, v), u);
    ApplyAssociates(vt, v, u);
    ApplyIdentity(u);
    assert Apply(vt, r) == Minus(Apply(w, u), Scale(k, u));
    OrthonormalKeepsLength(vt, r);
  }

  /** After convergence every eigenpair is off by less than 1e-30 in squared length. */
  lemma ConvergedEigenpairs(m: Mat, v: Mat, w: Mat, i: nat)
    requires Diagonalising(m, v, w) && Symmetric(m) && i < 3
    requires OffDiagonal(w) < CONVERGED * CONVERGED
    ensures var e := Apply(v, Unit(i));
            var r := Minus(Apply(m, e), Scale(Entry(w, i, i), e));
            Inner(e, e) == 1.0 && Inner(r, r) < CONVERGED * CONVERGED
  {
    SimilarityInvariants(m, v, w);
    EigenResidual(m, v, w, i);
    OrthonormalKeepsLength(v, Unit(i));
    var rest := Minus(Apply(w, Unit(i)), Scale(Entry(w, i, i), Unit(i)));
    hide Mul;
    ColumnRest(w, i);
  }

  lemma ColumnRest(w: Mat, i: nat)
    requires Symmetric(w) && i < 3
    ensures var rest := Minus(Apply(w, Unit(i)), Scale(Entry(w, i, i), Unit(i)));
            Inner(rest, rest) <= OffDiagonal(w)
    ensures Inner(Unit(i), Unit(i)) == 1.0
  {
    assert w.r0.y * w.r0.y >= 0.0 && w.r0.z * w.r0.z >= 0.0 && w.r1.z * w.r1.z >= 0.0;
  }
}
