/** Gaussian elimination with partial pivoting (src/stroy/camera/solve.py):
    the Gauss-Jordan solver and the rank test, on exact reals and for any size
    (the program always uses six). */
module LinearSolve {
  import opened Wrappers
  import opened Vectors

  // The program's 1e-18 and 1e-9.
  const PIVOT_TOL: real := 1.0 / 1000000000000000000.0
  const RANK_TOL: real := 1.0 / 1000000000.0

  // ---------------------------------------------------------------------
  // What elimination keeps
  // ---------------------------------------------------------------------

  ghost predicate IsReordering(perm: seq<nat>, n: nat) {
    && |perm| == n
    && (forall r | 0 <= r < n :: perm[r] < n)
    && (forall i: nat | i < n :: i in perm)
  }

  /** `w` was reached from `m` by eliminating the first `c` columns.
      Forward: whatever `m` annihilates, `w` annihilates. Backward: on a vector
      that the first `c` rows of `w` annihilate, every row of `w` agrees with
      the row of `m` it came from. */
  ghost predicate Eliminated(m: Matrix, w: Matrix, perm: seq<nat>, c: nat, columns: nat) {
    && HasShape(m, |m|, columns) && HasShape(w, |m|, columns)
    && c <= |m| && IsReordering(perm, |m|)
    && KernelKept(m, w, columns)
    && RowsTraced(m, w, perm, c, columns)
  }

  ghost predicate KernelKept(m: Matrix, w: Matrix, columns: nat)
    requires HasShape(m, |m|, columns) && HasShape(w, |m|, columns)
  {
    forall y: seq<real> | |y| == columns && Annihilates(m, y) :: Annihilates(w, y)
  }

  ghost predicate RowsTraced(m: Matrix, w: Matrix, perm: seq<nat>, c: nat, columns: nat)
    requires HasShape(m, |m|, columns) && HasShape(w, |m|, columns)
    requires c <= |m| && IsReordering(perm, |m|)
  {
    forall y: seq<real> | |y| == columns && AnnihilatesFirst(w, y, c) :: AgreesOn(m, w, perm, y)
  }

  ghost predicate AnnihilatesFirst(w: Matrix, y: seq<real>, c: nat)
    requires HasShape(w, |w|, |y|) && c <= |w|
  {
    forall r | 0 <= r < c :: Dot(w[r], y, |y|) == 0.0
  }

  ghost predicate AgreesOn(m: Matrix, w: Matrix, perm: seq<nat>, y: seq<real>)
    requires HasShape(m, |m|, |y|) && HasShape(w, |m|, |y|) && IsReordering(perm, |m|)
  {
    forall r | 0 <= r < |m| :: Dot(m[perm[r]], y, |y|) == Dot(w[r], y, |y|)
  }

  function Identity(n: nat): (perm: seq<nat>)
    ensures |perm| == n && forall i | 0 <= i < n :: perm[i] == i
  {
    seq(n, i requires 0 <= i < n => i)
  }

  lemma NothingEliminated(m: Matrix, columns: nat)
    requires HasShape(m, |m|, columns)
    ensures Eliminated(m, m, Identity(|m|), 0, columns)
  {
    var perm := Identity(|m|);
    forall i: nat | i < |m| ensures i in perm {
      assert perm[i] == i;
    }
    assert IsReordering(perm, |m|);
    forall y: seq<real> | |y| == columns ensures AgreesOn(m, m, perm, y) {
    }
  }

  function Swap<T>(s: seq<T>, i: nat, j: nat): (t: seq<T>)
    requires i < |s| && j < |s|
    ensures |t| == |s| && t[i] == s[j] && t[j] == s[i]
    ensures forall k | 0 <= k < |s| && k != i && k != j :: t[k] == s[k]
  {
    s[i := s[j]][j := s[i]]
  }

  lemma SwapKeepsReordering(perm: seq<nat>, n: nat, i: nat, j: nat)
    requires IsReordering(perm, n) && i < n && j < n
    ensures IsReordering(Swap(perm, i, j), n)
  {
    var perm' := Swap(perm, i, j);
    forall k: nat | k < n ensures k in perm' {
      assert k in perm;
      var r :| 0 <= r < |perm| && perm[r] == k;
      assert perm'[if r == i then j else if r == j then i else r] == k;
    }
  }

  /** Swapping two rows at or below row `c` keeps the relation. */
  lemma SwapKeepsElimination(m: Matrix, w: Matrix, perm: seq<nat>, c: nat, columns: nat, i: nat, j: nat)
    requires Eliminated(m, w, perm, c, columns)
    requires c <= i < |m| && c <= j < |m|
    ensures Eliminated(m, Swap(w, i, j), Swap(perm, i, j), c, columns)
  {
    SwapKeepsReordering(perm, |m|, i, j);
    var w', perm' := Swap(w, i, j), Swap(perm, i, j);
    assert HasShape(w', |m|, columns);
    forall y: seq<real> | |y| == columns && Annihilates(m, y) ensures Annihilates(w', y) {
      assert Annihilates(w, y);
    }
    assert KernelKept(m, w', columns);
    forall y: seq<real> | |y| == columns && AnnihilatesFirst(w', y, c) ensures AgreesOn(m, w', perm', y) {
      SwapKeepsAgreement(m, w, perm, y, c, i, j);
    }
  }

  lemma SwapKeepsAgreement(m: Matrix, w: Matrix, perm: seq<nat>, y: seq<real>, c: nat, i: nat, j: nat)
    requires HasShape(m, |m|, |y|) && HasShape(w, |m|, |y|) && c <= |m| && IsReordering(perm, |m|)
    requires RowsTraced(m, w, perm, c, |y|)
    requires c <= i < |m| && c <= j < |m| && IsReordering(Swap(perm, i, j), |m|)
    requires HasShape(Swap(w, i, j), |m|, |y|) && AnnihilatesFirst(Swap(w, i, j), y, c)
    ensures AgreesOn(m, Swap(w, i, j), Swap(perm, i, j), y)
  {
    var w', perm' := Swap(w, i, j), Swap(perm, i, j);
    forall r | 0 <= r < c ensures Dot(w[r], y, |y|) == 0.0 {
      assert w'[r] == w[r];
    }
    assert AnnihilatesFirst(w, y, c);
    assert AgreesOn(m, w, perm, y);
    forall r | 0 <= r < |m| ensures Dot(m[perm'[r]], y, |y|) == Dot(w'[r], y, |y|) {
      var q := if r == i then j else if r == j then i else r;
      assert perm'[r] == perm[q] && w'[r] == w[q];
    }
  }

  /** `w'` is `w` with row `c` divided by `p` and a multiple of the new row `c`
      subtracted from every other row. */
  ghost predicate IsPivotStep(w: Matrix, w': Matrix, c: nat, columns: nat, p: real, factors: seq<real>) {
    && HasShape(w, |w|, columns) && HasShape(w', |w|, columns)
    && c < |w| && |factors| == |w| && p != 0.0
    && (forall j | 0 <= j < columns :: w[c][j] == p * w'[c][j])
    && (forall r | 0 <= r < |w| && r != c :: IsShiftedBy(w'[r], w[r], -factors[r], w'[c]))
  }

  lemma PivotStepDots(w: Matrix, w': Matrix, c: nat, columns: nat, p: real, factors: seq<real>, y: seq<real>)
    requires IsPivotStep(w, w', c, columns, p, factors)
    requires |y| == columns
    ensures Dot(w[c], y, |y|) == p * Dot(w'[c], y, |y|)
    ensures forall r | 0 <= r < |w| && r != c ::
              Dot(w'[r], y, |y|) == Dot(w[r], y, |y|) + (-factors[r]) * Dot(w'[c], y, |y|)
  {
    hide Dot, IsShiftedBy;
    DotScaled(w[c], p, w'[c], y, columns);
    forall r | 0 <= r < |w| && r != c
      ensures Dot(w'[r], y, |y|) == Dot(w[r], y, |y|) + (-factors[r]) * Dot(w'[c], y, |y|)
    {
      DotLinear(w'[r], w[r], -factors[r], w'[c], y, columns);
    }
  }

  lemma PivotStepKeepsElimination(
      m: Matrix, w: Matrix, w': Matrix, perm: seq<nat>, c: nat, columns: nat, p: real, factors: seq<real>)
    requires Eliminated(m, w, perm, c, columns)
    requires IsPivotStep(w, w', c, columns, p, factors)
    ensures Eliminated(m, w', perm, c + 1, columns)
  {
    forall y: seq<real> | |y| == columns && Annihilates(m, y) ensures Annihilates(w', y) {
      assert Annihilates(w, y);
      PivotStepAnnihilates(w, w', c, columns, p, factors, y);
    }
    assert KernelKept(m, w', columns);
    forall y: seq<real> | |y| == columns && AnnihilatesFirst(w', y, c + 1) ensures AgreesOn(m, w', perm, y) {
      PivotStepAgrees(w, w', c, columns, p, factors, y);
      assert AgreesOn(m, w, perm, y);
    }
  }

  lemma PivotStepAnnihilates(w: Matrix, w': Matrix, c: nat, columns: nat, p: real, factors: seq<real>, y: seq<real>)
    requires IsPivotStep(w, w', c, columns, p, factors)
    requires |y| == columns && Annihilates(w, y)
    ensures Annihilates(w', y)
  {
    PivotStepDots(w, w', c, columns, p, factors, y);
    assert p * Dot(w'[c], y, |y|) == 0.0;
    assert Dot(w'[c], y, |y|) == 0.0;
    forall r | 0 <= r < |w'| ensures Dot(w'[r], y, |y|) == 0.0 {
      if r != c {
        assert Dot(w[r], y, |y|) == 0.0;
        assert Dot(w'[r], y, |y|) == Dot(w[r], y, |y|) + (-factors[r]) * 0.0;
      }
    }
  }

  lemma ShiftByNothing(a: real, b: real, f: real, d: real)
    requires a == b + f * d && d == 0.0
    ensures a == b
  {
  }

  /** A pivot row that kills y changes no row's value at y. */
  lemma PivotRowAgrees(w: Matrix, w': Matrix, c: nat, columns: nat, p: real, factors: seq<real>, y: seq<real>, r: nat)
    requires IsPivotStep(w, w', c, columns, p, factors) && r < |w|
    requires |y| == columns && Dot(w'[c], y, |y|) == 0.0
    ensures Dot(w[r], y, |y|) == Dot(w'[r], y, |y|)
  {
    hide Dot, IsShiftedBy;
    if r == c {
      DotScaled(w[c], p, w'[c], y, columns);
      ShiftByNothing(Dot(w[c], y, |y|), 0.0, p, Dot(w'[c], y, |y|));
    } else {
      DotLinear(w'[r], w[r], -factors[r], w'[c], y, columns);
      ShiftByNothing(Dot(w'[r], y, |y|), Dot(w[r], y, |y|), -factors[r], Dot(w'[c], y, |y|));
    }
  }

  lemma PivotStepAgrees(w: Matrix, w': Matrix, c: nat, columns: nat, p: real, factors: seq<real>, y: seq<real>)
    requires IsPivotStep(w, w', c, columns, p, factors)
    requires |y| == columns && AnnihilatesFirst(w', y, c + 1)
    ensures AnnihilatesFirst(w, y, c)
    ensures forall r | 0 <= r < |w| :: Dot(w[r], y, |y|) == Dot(w'[r], y, |y|)
  {
    hide Dot, IsShiftedBy;
    forall r | 0 <= r < |w| ensures Dot(w[r], y, |y|) == Dot(w'[r], y, |y|) {
      PivotRowAgrees(w, w', c, columns, p, factors, y, r);
    }
  }

  // ---------------------------------------------------------------------
  // Pivot search
  // ---------------------------------------------------------------------

  /** max(range(column, n), key=abs(work[row][column])): the first row attaining the maximum. */
  method PivotRow(work: Matrix, column: nat) returns (pivotRow: nat)
    requires column < |work|
    requires forall r | 0 <= r < |work| :: column < |work[r]|
    ensures column <= pivotRow < |work|
    ensures forall r | column <= r < |work| :: Abs(work[r][column]) <= Abs(work[pivotRow][column])
    ensures forall r | column <= r < pivotRow :: Abs(work[r][column]) < Abs(work[pivotRow][column])
  {
    pivotRow := column;
    for row := column + 1 to |work|
      invariant column <= pivotRow < row
      invariant forall r | column <= r < row :: Abs(work[r][column]) <= Abs(work[pivotRow][column])
      invariant forall r | column <= r < pivotRow :: Abs(work[r][column]) < Abs(work[pivotRow][column])
    {
      if Abs(work[row][column]) > Abs(work[pivotRow][column]) {
        pivotRow := row;
      }
    }
  }

  // ---------------------------------------------------------------------
  // _solve_linear
  // ---------------------------------------------------------------------

  /** The left block of the first `c` columns is the identity. */
  ghost predicate Reduced(w: Matrix, c: nat) {
    forall r, j | 0 <= r < |w| && 0 <= j < c && j < |w[r]| :: w[r][j] == if r == j then 1.0 else 0.0
  }

  function Augmented(matrix: Matrix, rhs: seq<real>): Matrix
    requires |matrix| == |rhs|
  {
    seq(|matrix|, i requires 0 <= i < |matrix| => matrix[i] + [rhs[i]])
  }

  /** Some direction with a unit component is shrunk below `tol` by every row. */
  ghost predicate NearlySingular(matrix: Matrix, tol: real)
    requires HasShape(matrix, |matrix|, |matrix|)
  {
    exists y: seq<real>, c: nat :: Squashes(matrix, y, c, tol)
  }

  ghost predicate Squashes(matrix: Matrix, y: seq<real>, c: nat, tol: real)
    requires HasShape(matrix, |matrix|, |matrix|)
  {
    && |y| == |matrix| && c < |y| && y[c] == 1.0
    && forall r | 0 <= r < |matrix| :: Abs(Dot(matrix[r], y, |y|)) < tol
  }

  lemma Quotient(v: real, p: real)
    requires p != 0.0
    ensures v == p * (v / p)
    ensures v == p ==> v / p == 1.0
  {
  }

  /** Divide the tail of a row, from `column` on. */
  method DivideRow(row: seq<real>, column: nat, pivot: real) returns (r: seq<real>)
    requires column <= |row| && pivot != 0.0
    ensures |r| == |row|
    ensures forall j | 0 <= j < |row| :: r[j] == if j < column then row[j] else row[j] / pivot
  {
    r := row;
    for col := column to |row|
      invariant |r| == |row|
      invariant forall j | 0 <= j < |row| :: r[j] == if column <= j < col then row[j] / pivot else row[j]
    {
      r := r[col := r[col] / pivot];
    }
  }

  /** Subtract `factor` times `pivotRow` from `row`, from `column` on. */
  method SubtractRow(row: seq<real>, column: nat, factor: real, pivotRow: seq<real>) returns (r: seq<real>)
    requires column <= |row| == |pivotRow|
    requires forall j | 0 <= j < column :: pivotRow[j] == 0.0
    ensures IsShiftedBy(r, row, -factor, pivotRow)
  {
    r := row;
    for col := column to |row|
      invariant |r| == |row|
      invariant forall j | 0 <= j < column || col <= j < |row| :: r[j] == row[j]
      invariant forall j | column <= j < col :: r[j] == row[j] + (-factor) * pivotRow[j]
    {
      r := r[col := r[col] - factor * pivotRow[col]];
    }
  }

  function ColumnOf(w: Matrix, column: nat): (f: seq<real>)
    requires forall r | 0 <= r < |w| :: column < |w[r]|
    ensures |f| == |w| && forall r | 0 <= r < |w| :: f[r] == w[r][column]
  {
    seq(|w|, r requires 0 <= r < |w| => w[r][column])
  }

  /** Clearing a column with its own entries as multipliers extends the identity block. */
  lemma PivotStepReduces(w: Matrix, w': Matrix, c: nat, columns: nat)
    requires HasShape(w, |w|, columns) && c < |w| && c < columns && w[c][c] != 0.0
    requires Reduced(w, c)
    requires IsPivotStep(w, w', c, columns, w[c][c], ColumnOf(w, c))
    requires w'[c][c] == 1.0 && forall j | 0 <= j < c :: w'[c][j] == 0.0
    ensures Reduced(w', c + 1)
  {
    forall r, j | 0 <= r < |w'| && 0 <= j < c + 1 ensures w'[r][j] == if r == j then 1.0 else 0.0 {
      if r != c {
        assert IsShiftedBy(w'[r], w[r], -w[r][c], w'[c]);
        assert w'[r][j] == w[r][j] + (-w[r][c]) * w'[c][j];
      }
    }
  }

  /** Every entry of `row` is `pivot` times that of `scaled`. */
  ghost predicate IsScaled(row: seq<real>, scaled: seq<real>, pivot: real) {
    |scaled| == |row| && forall j | 0 <= j < |row| :: row[j] == pivot * scaled[j]
  }

  lemma Normalised(row: seq<real>, scaled: seq<real>, column: nat, pivot: real)
    requires column < |row| == |scaled| && row[column] == pivot && pivot != 0.0
    requires forall j | 0 <= j < column :: row[j] == 0.0
    requires forall j | 0 <= j < |row| :: scaled[j] == if j < column then row[j] else row[j] / pivot
    ensures IsScaled(row, scaled, pivot)
    ensures scaled[column] == 1.0 && forall j | 0 <= j < column :: scaled[j] == 0.0
  {
    forall j | 0 <= j < |row| ensures row[j] == pivot * scaled[j] {
      Quotient(row[j], pivot);
    }
  }

  lemma IsPivotStepOf(w: Matrix, w': Matrix, c: nat, columns: nat, p: real, factors: seq<real>)
    requires HasShape(w, |w|, columns) && HasShape(w', |w|, columns)
    requires c < |w| && |factors| == |w| && p != 0.0
    requires IsScaled(w[c], w'[c], p)
    requires forall r | 0 <= r < |w| && r != c :: IsShiftedBy(w'[r], w[r], -factors[r], w'[c])
    ensures IsPivotStep(w, w', c, columns, p, factors)
  {
  }

  /** Normalise the pivot row and clear its column in every other row. */
  method ClearColumn(start: Matrix, column: nat, columns: nat) returns (work: Matrix)
    requires HasShape(start, |start|, columns) && column < |start| && column < columns
    requires start[column][column] != 0.0
    requires Reduced(start, column)
    ensures HasShape(work, |start|, columns)
    ensures IsPivotStep(start, work, column, columns, start[column][column], ColumnOf(start, column))
    ensures work[column][column] == 1.0 && forall j | 0 <= j < column :: work[column][j] == 0.0
  {
    var n := |start|;
    var pivot := start[column][column];
    var scaled := DivideRow(start[column], column, pivot);
    assert forall j | 0 <= j < column :: start[column][j] == 0.0;
    hide Reduced, IsShiftedBy, IsScaled, IsPivotStep;
    Normalised(start[column], scaled, column, pivot);
    work := start[column := scaled];
    ghost var factors := ColumnOf(start, column);
    for row := 0 to n
      invariant HasShape(work, n, columns)
      invariant work[column] == scaled
      invariant forall r | row <= r < n && r != column :: work[r] == start[r]
      invariant forall r | 0 <= r < row && r != column :: IsShiftedBy(work[r], start[r], -factors[r], scaled)
    {
      if row == column {
        continue;
      }
      var factor := work[row][column];
      if factor == 0.0 {
        ShiftedByNothing(work[row], factor, scaled);
        continue;
      }
      var reduced := SubtractRow(work[row], column, factor, work[column]);
      ShiftedLength(reduced, work[row], -factor, scaled);
      work := work[row := reduced];
    }
    IsPivotStepOf(start, work, column, columns, pivot, factors);
  }

  lemma ShiftedByNothing(row: seq<real>, factor: real, pivotRow: seq<real>)
    requires factor == 0.0 && |row| == |pivotRow|
    ensures IsShiftedBy(row, row, -factor, pivotRow)
  {
    assert -factor == 0.0;
    assert forall k | 0 <= k < |row| :: Times(0.0, pivotRow[k]) == 0.0;
  }

  lemma ShiftedLength(reduced: seq<real>, row: seq<real>, factor: real, pivotRow: seq<real>)
    requires IsShiftedBy(reduced, row, factor, pivotRow)
    ensures |reduced| == |row|
  {
  }

  lemma SwapKeepsReduced(w: Matrix, c: nat, i: nat, j: nat)
    requires Reduced(w, c) && c <= i < |w| && c <= j < |w|
    ensures Reduced(Swap(w, i, j), c)
  {
  }

  /** Solve matrix * x = rhs. A returned x is the one and only solution; a
      refusal exhibits a direction the matrix all but annihilates. */
  method SolveLinear(matrix: Matrix, rhs: seq<real>) returns (x: Option<seq<real>>)
    requires HasShape(matrix, |rhs|, |rhs|)
    ensures x.Some? ==> |x.value| == |rhs| && Maps(matrix, x.value, rhs)
    ensures x.Some? ==> forall y: seq<real> | |y| == |rhs| && Maps(matrix, y, rhs) :: y == x.value
    ensures x.None? ==> NearlySingular(matrix, PIVOT_TOL)
  {
    hide KernelKept, RowsTraced, IsPivotStep, Maps, NearlySingular;
    var n := |matrix|;
    var work := Augmented(matrix, rhs);
    ghost var aug := work;
    ghost var perm := Identity(n);
    NothingEliminated(aug, n + 1);
    for column := 0 to n
      invariant HasShape(work, n, n + 1)
      invariant Eliminated(aug, work, perm, column, n + 1)
      invariant Reduced(work, column)
    {
      var pivotRow := PivotRow(work, column);
      if Abs(work[pivotRow][column]) < PIVOT_TOL {
        RefusalCertificate(matrix, rhs, work, perm, column);
        return None;
      }
      SwapKeepsElimination(aug, work, perm, column, n + 1, column, pivotRow);
      SwapKeepsReduced(work, column, column, pivotRow);
      work, perm := Swap(work, column, pivotRow), Swap(perm, column, pivotRow);
      var cleared := ClearColumn(work, column, n + 1);
      PivotStepReduces(work, cleared, column, n + 1);
      PivotStepKeepsElimination(aug, work, cleared, perm, column, n + 1, work[column][column], ColumnOf(work, column));
      work := cleared;
    }
    x := Some(seq(n, row requires 0 <= row < n => work[row][n]));
    ReadOffSolves(matrix, rhs, work, perm, x.value);
    forall y: seq<real> | |y| == |rhs| && Maps(matrix, y, rhs) ensures y == x.value {
      ReadOffUnique(matrix, rhs, work, perm, x.value, y);
    }
  }

  /** Row `r` of a reduced system, applied to (y, -1). */
  lemma ReducedRow(w: Matrix, r: nat, y: seq<real>)
    requires HasShape(w, |y|, |y| + 1) && Reduced(w, |y|) && r < |y|
    ensures Dot(w[r], y + [-1.0], |y| + 1) == y[r] - w[r][|y|]
  {
    DotSingle(w[r], y + [-1.0], |y|, r);
  }

  /** A row of the augmented matrix, applied to (y, last). */
  lemma AugmentedRow(matrix: Matrix, rhs: seq<real>, r: nat, y: seq<real>, last: real)
    requires HasShape(matrix, |rhs|, |rhs|) && r < |rhs| == |y|
    ensures Dot(Augmented(matrix, rhs)[r], y + [last], |y| + 1) == Dot(matrix[r], y, |y|) + rhs[r] * last
  {
    DotAgrees(Augmented(matrix, rhs)[r], matrix[r], y + [last], y, |y|);
  }

  lemma ReducedAnnihilates(w: Matrix, x: seq<real>)
    requires HasShape(w, |x|, |x| + 1) && Reduced(w, |x|)
    requires forall r | 0 <= r < |x| :: x[r] == w[r][|x|]
    ensures Annihilates(w, x + [-1.0])
  {
    var z := x + [-1.0];
    forall r | 0 <= r < |w| ensures Dot(w[r], z, |z|) == 0.0 {
      ReducedRow(w, r, x);
    }
  }

  /** What `w` annihilates, the rows it came from annihilate. */
  lemma TracedZero(m: Matrix, w: Matrix, perm: seq<nat>, y: seq<real>)
    requires HasShape(m, |m|, |y|) && HasShape(w, |m|, |y|) && IsReordering(perm, |m|)
    requires AgreesOn(m, w, perm, y) && Annihilates(w, y)
    ensures Annihilates(m, y)
  {
    forall i | 0 <= i < |m| ensures Dot(m[i], y, |y|) == 0.0 {
      assert i in perm;
      var r :| 0 <= r < |m| && perm[r] == i;
      assert Dot(m[perm[r]], y, |y|) == Dot(w[r], y, |y|);
    }
  }

  /** When the left block is the identity the last column is a solution ... */
  lemma ReadOffSolves(matrix: Matrix, rhs: seq<real>, w: Matrix, perm: seq<nat>, x: seq<real>)
    requires HasShape(matrix, |rhs|, |rhs|)
    requires Eliminated(Augmented(matrix, rhs), w, perm, |rhs|, |rhs| + 1)
    requires Reduced(w, |rhs|)
    requires |x| == |rhs| && forall r | 0 <= r < |rhs| :: x[r] == w[r][|rhs|]
    ensures Maps(matrix, x, rhs)
  {
    hide Dot, Reduced, KernelKept;
    var aug, z := Augmented(matrix, rhs), x + [-1.0];
    ReducedAnnihilates(w, x);
    assert AnnihilatesFirst(w, z, |rhs|);
    assert AgreesOn(aug, w, perm, z);
    TracedZero(aug, w, perm, z);
    AugmentedZeroMaps(matrix, rhs, x);
  }

  lemma AugmentedZeroMaps(matrix: Matrix, rhs: seq<real>, x: seq<real>)
    requires HasShape(matrix, |rhs|, |rhs|) && |x| == |rhs| && Annihilates(Augmented(matrix, rhs), x + [-1.0])
    ensures Maps(matrix, x, rhs)
  {
    hide Dot;
    forall i | 0 <= i < |rhs| ensures Dot(matrix[i], x, |x|) == rhs[i] {
      assert Dot(Augmented(matrix, rhs)[i], x + [-1.0], |x| + 1) == 0.0;
      AugmentedRow(matrix, rhs, i, x, -1.0);
    }
  }

  lemma AugmentedAnnihilates(matrix: Matrix, rhs: seq<real>, y: seq<real>)
    requires HasShape(matrix, |rhs|, |rhs|) && |y| == |rhs| && Maps(matrix, y, rhs)
    ensures Annihilates(Augmented(matrix, rhs), y + [-1.0])
  {
    var aug, z := Augmented(matrix, rhs), y + [-1.0];
    forall r | 0 <= r < |aug| ensures Dot(aug[r], z, |z|) == 0.0 {
      AugmentedRow(matrix, rhs, r, y, -1.0);
    }
  }

  lemma ReducedDetermines(w: Matrix, x: seq<real>, y: seq<real>)
    requires HasShape(w, |x|, |x| + 1) && Reduced(w, |x|) && |y| == |x|
    requires forall r | 0 <= r < |x| :: x[r] == w[r][|x|]
    requires Annihilates(w, y + [-1.0])
    ensures y == x
  {
    var z := y + [-1.0];
    forall r | 0 <= r < |x| ensures y[r] == x[r] {
      ReducedRow(w, r, y);
      assert Dot(w[r], z, |z|) == 0.0;
    }
  }

  /** ... and the only one. */
  lemma ReadOffUnique(matrix: Matrix, rhs: seq<real>, w: Matrix, perm: seq<nat>, x: seq<real>, y: seq<real>)
    requires HasShape(matrix, |rhs|, |rhs|)
    requires Eliminated(Augmented(matrix, rhs), w, perm, |rhs|, |rhs| + 1)
    requires Reduced(w, |rhs|)
    requires |x| == |rhs| && forall r | 0 <= r < |rhs| :: x[r] == w[r][|rhs|]
    requires |y| == |rhs| && Maps(matrix, y, rhs)
    ensures y == x
  {
    AugmentedAnnihilates(matrix, rhs, y);
    assert Annihilates(w, y + [-1.0]);
    ReducedDetermines(w, x, y);
  }

  /** No usable pivot in column `c`: minus the reduced column, with a one at
      `c`, is sent below the tolerance by every original row. */
  lemma RefusalCertificate(matrix: Matrix, rhs: seq<real>, w: Matrix, perm: seq<nat>, c: nat)
    requires HasShape(matrix, |rhs|, |rhs|) && c < |rhs|
    requires Eliminated(Augmented(matrix, rhs), w, perm, c, |rhs| + 1)
    requires Reduced(w, c)
    requires forall r | c <= r < |rhs| :: Abs(w[r][c]) < PIVOT_TOL
    ensures NearlySingular(matrix, PIVOT_TOL)
  {
    hide Reduced, KernelKept, Dot;
    var n, aug := |rhs|, Augmented(matrix, rhs);
    var y := seq(n, k requires 0 <= k < n => if k < c then -w[k][c] else if k == c then 1.0 else 0.0);
    var z := y + [0.0];
    forall r | 0 <= r < n ensures Dot(w[r], z, |z|) == if r < c then 0.0 else w[r][c] {
      ReducedColumn(w, r, c, z);
    }
    assert AnnihilatesFirst(w, z, c);
    assert AgreesOn(aug, w, perm, z);
    TracedBound(aug, w, perm, z, PIVOT_TOL);
    forall i | 0 <= i < n ensures Abs(Dot(matrix[i], y, |y|)) < PIVOT_TOL {
      AugmentedRow(matrix, rhs, i, y, 0.0);
    }
    assert Squashes(matrix, y, c, PIVOT_TOL);
  }

  /** A bound on every row of `w` at `y` carries over to the rows they came from. */
  lemma TracedBound(m: Matrix, w: Matrix, perm: seq<nat>, y: seq<real>, tol: real)
    requires HasShape(m, |m|, |y|) && HasShape(w, |m|, |y|) && IsReordering(perm, |m|)
    requires AgreesOn(m, w, perm, y)
    requires forall r | 0 <= r < |w| :: Abs(Dot(w[r], y, |y|)) < tol
    ensures forall i | 0 <= i < |m| :: Abs(Dot(m[i], y, |y|)) < tol
  {
    forall i | 0 <= i < |m| ensures Abs(Dot(m[i], y, |y|)) < tol {
      assert i in perm;
      var r :| 0 <= r < |m| && perm[r] == i;
      assert Dot(m[perm[r]], y, |y|) == Dot(w[r], y, |y|);
    }
  }

  lemma ReducedColumn(w: Matrix, r: nat, c: nat, z: seq<real>)
    requires HasShape(w, |w|, |z|) && Reduced(w, c) && r < |w| && c < |w| && c < |z|
    requires forall k | 0 <= k < |z| :: z[k] == if k < c then -w[k][c] else if k == c then 1.0 else 0.0
    ensures Dot(w[r], z, |z|) == if r < c then 0.0 else w[r][c]
  {
    TailVanishes(w[r], z, |z|, c + 1);
    if r < c {
      DotSingle(w[r], z, c, r);
    } else {
      DotZero(w[r], z, c);
    }
  }

  lemma {:induction false} TailVanishes(x: seq<real>, y: seq<real>, n: nat, k: nat)
    requires k <= n <= |x| && n <= |y|
    requires forall i | k <= i < n :: y[i] == 0.0
    ensures Dot(x, y, n) == Dot(x, y, k)
  {
    if k < n {
      TailVanishes(x, y, n - 1, k);
    }
  }

  // ---------------------------------------------------------------------
  // _is_singular
  // ---------------------------------------------------------------------

  /** Largest absolute entry, 0 for an empty matrix. */
  method LargestEntry(work: Matrix) returns (scale: real)
    ensures scale >= 0.0
    ensures forall r, j | 0 <= r < |work| && 0 <= j < |work[r]| :: Abs(work[r][j]) <= scale
    ensures scale == 0.0 || exists r, j :: 0 <= r < |work| && 0 <= j < |work[r]| && Abs(work[r][j]) == scale
  {
    scale := 0.0;
    for r := 0 to |work|
      invariant scale >= 0.0
      invariant forall i, j | 0 <= i < r && 0 <= j < |work[i]| :: Abs(work[i][j]) <= scale
      invariant scale == 0.0 || exists i, j :: 0 <= i < |work| && 0 <= j < |work[i]| && Abs(work[i][j]) == scale
    {
      for j := 0 to |work[r]|
        invariant scale >= 0.0
        invariant forall i, k | 0 <= i < r && 0 <= k < |work[i]| :: Abs(work[i][k]) <= scale
        invariant forall k | 0 <= k < j :: Abs(work[r][k]) <= scale
        invariant scale == 0.0 || exists i, k :: 0 <= i < |work| && 0 <= k < |work[i]| && Abs(work[i][k]) == scale
      {
        if Abs(work[r][j]) > scale {
          scale := Abs(work[r][j]);
        }
      }
    }
  }

  /** The first `c` columns are zero below the diagonal and their pivots are not zero. */
  ghost predicate Triangular(w: Matrix, c: nat)
    requires HasShape(w, |w|, |w|) && c <= |w|
  {
    && (forall r, j | 0 <= j < c && j < r < |w| :: w[r][j] == 0.0)
    && (forall k | 0 <= k < c :: w[k][k] != 0.0)
  }

  /** The largest absolute entry of a matrix. */
  ghost predicate IsScale(m: Matrix, scale: real) {
    && scale >= 0.0
    && (forall r, j | 0 <= r < |m| && 0 <= j < |m[r]| :: Abs(m[r][j]) <= scale)
    && (scale == 0.0 || exists r, j :: 0 <= r < |m| && 0 <= j < |m[r]| && Abs(m[r][j]) == scale)
  }

  function MultipliersBelow(w: Matrix, column: nat): (f: seq<real>)
    requires column < |w| && (forall r | 0 <= r < |w| :: column < |w[r]|) && w[column][column] != 0.0
    ensures |f| == |w|
    ensures forall r | 0 <= r < |w| :: f[r] == if r <= column then 0.0 else w[r][column] / w[column][column]
  {
    seq(|w|, r requires 0 <= r < |w| => if r <= column then 0.0 else w[r][column] / w[column][column])
  }

  /** Clear the column below its pivot. */
  method ClearBelow(start: Matrix, column: nat) returns (work: Matrix)
    requires HasShape(start, |start|, |start|) && column < |start|
    requires start[column][column] != 0.0
    requires Triangular(start, column)
    ensures HasShape(work, |start|, |start|)
    ensures IsPivotStep(start, work, column, |start|, 1.0, MultipliersBelow(start, column))
    ensures Triangular(work, column + 1)
  {
    var n := |start|;
    var pivot := start[column][column];
    work := start;
    ghost var factors := MultipliersBelow(start, column);
    for row := column + 1 to n
      invariant HasShape(work, n, n)
      invariant forall r | 0 <= r <= column || row <= r < n :: work[r] == start[r]
      invariant forall r | column < r < row :: IsShiftedBy(work[r], start[r], -factors[r], start[column])
    {
      var factor := work[row][column] / pivot;
      if factor == 0.0 {
        continue;
      }
      var reduced := SubtractRow(work[row], column, factor, work[column]);
      work := work[row := reduced];
    }
    forall r | 0 <= r < column ensures IsShiftedBy(work[r], start[r], -factors[r], work[column]) {
      assert factors[r] == 0.0;
    }
    ShiftsTriangulate(start, work, column, factors);
  }

  lemma ShiftsTriangulate(start: Matrix, work: Matrix, column: nat, factors: seq<real>)
    requires HasShape(start, |start|, |start|) && HasShape(work, |start|, |start|)
    requires column < |start| == |factors| && start[column][column] != 0.0 && Triangular(start, column)
    requires forall r | 0 <= r <= column :: work[r] == start[r]
    requires forall r | column < r < |start| ::
               factors[r] == start[r][column] / start[column][column] && IsShiftedBy(work[r], start[r], -factors[r], start[column])
    ensures Triangular(work, column + 1)
  {
    var n := |start|;
    forall r | column < r < n ensures work[r][column] == 0.0 {
      assert factors[r] * start[column][column] == start[r][column];
      assert work[r][column] == start[r][column] + (-factors[r]) * start[column][column];
    }
    forall r, j | 0 <= j < column && j < r < n ensures work[r][j] == 0.0 {
      if r > column {
        assert work[r][j] == start[r][j] + (-factors[r]) * start[column][j];
      }
    }
  }

  lemma SwapKeepsTriangular(w: Matrix, c: nat, i: nat, j: nat)
    requires HasShape(w, |w|, |w|) && c <= i < |w| && c <= j < |w| && Triangular(w, c)
    ensures Triangular(Swap(w, i, j), c)
  {
  }

  /** False only for a matrix whose kernel is trivial; True only for a zero
      matrix or one that squashes some direction below the relative tolerance. */
  method IsSingular(matrix: Matrix) returns (singular: bool)
    requires HasShape(matrix, |matrix|, |matrix|)
    ensures !singular ==> forall y: seq<real> | |y| == |matrix| && Annihilates(matrix, y) :: IsZero(y)
    ensures singular ==> exists scale ::
                           IsScale(matrix, scale) && (scale == 0.0 || NearlySingular(matrix, RANK_TOL * scale))
  {
    hide KernelKept, RowsTraced, IsPivotStep, NearlySingular, Annihilates;
    var n := |matrix|;
    var work := matrix;
    var scale := LargestEntry(work);
    assert IsScale(matrix, scale);
    if scale == 0.0 {
      return true;
    }
    ghost var perm := Identity(n);
    NothingEliminated(matrix, n);
    for column := 0 to n
      invariant HasShape(work, n, n)
      invariant Eliminated(matrix, work, perm, column, n)
      invariant Triangular(work, column)
    {
      var pivotRow := PivotRow(work, column);
      if Abs(work[pivotRow][column]) < RANK_TOL * scale {
        SingularCertificate(matrix, work, perm, column, RANK_TOL * scale);
        return true;
      }
      SwapKeepsElimination(matrix, work, perm, column, n, column, pivotRow);
      SwapKeepsTriangular(work, column, column, pivotRow);
      work, perm := Swap(work, column, pivotRow), Swap(perm, column, pivotRow);
      var cleared := ClearBelow(work, column);
      PivotStepKeepsElimination(matrix, work, cleared, perm, column, n, 1.0, MultipliersBelow(work, column));
      work := cleared;
    }
    forall y: seq<real> | |y| == n && Annihilates(matrix, y) ensures IsZero(y) {
      KernelIsKept(matrix, work, perm, n, n, y);
      TriangularKernel(work, y, n);
    }
    singular := false;
  }

  /** A full-rank triangular matrix annihilates only zero (back substitution). */
  lemma {:induction false} TriangularKernel(w: Matrix, y: seq<real>, k: nat)
    requires HasShape(w, |w|, |y|) && |w| == |y| && k <= |w|
    requires Triangular(w, |w|) && Annihilates(w, y)
    requires forall i | k <= i < |y| :: y[i] == 0.0
    ensures IsZero(y)
  {
    if k > 0 {
      TailVanishes(w[k - 1], y, |y|, k);
      DotZero(w[k - 1], y, k - 1);
      assert w[k - 1][k - 1] * y[k - 1] == 0.0;
      TriangularKernel(w, y, k - 1);
    }
  }

  /** Back substitution: some y with y[c] = 1 and nothing beyond `c` is
      annihilated by rows k, ..., c - 1. */
  lemma {:induction false} BackSubstitute(w: Matrix, c: nat, k: nat) returns (y: seq<real>)
    requires HasShape(w, |w|, |w|) && k <= c < |w| && Triangular(w, c)
    ensures |y| == |w| && y[c] == 1.0
    ensures forall i | c < i < |w| :: y[i] == 0.0
    ensures forall i | 0 <= i < k :: y[i] == 0.0
    ensures forall r | k <= r < c :: Dot(w[r], y, |y|) == 0.0
    decreases c - k
  {
    var n := |w|;
    if k == c {
      y := seq(n, i => if i == c then 1.0 else 0.0);
    } else {
      var z := BackSubstitute(w, c, k + 1);
      var d := Dot(w[k], z, n);
      y := z[k := -d / w[k][k]];
      DotSymmetric(w[k], y, n);
      DotSymmetric(w[k], z, n);
      DotUpdated(y, z, w[k], n, k);
      assert y[k] * w[k][k] == -d;
      forall r | k < r < c ensures Dot(w[r], y, |y|) == 0.0 {
        assert Dot(w[r], z, n) == 0.0;
        DotSymmetric(w[r], y, n);
        DotSymmetric(w[r], z, n);
        DotUpdated(y, z, w[r], n, k);
        assert w[r][k] == 0.0;
      }
    }
  }

  /** A row of the open part only sees the one entry of y in column c. */
  lemma TriangularTail(w: Matrix, r: nat, c: nat, y: seq<real>)
    requires HasShape(w, |w|, |w|) && c <= r < |w| == |y| && Triangular(w, c)
    requires y[c] == 1.0 && forall i | c < i < |y| :: y[i] == 0.0
    ensures Dot(w[r], y, |y|) == w[r][c]
  {
    DotSingle(w[r], y, |y|, c);
  }

  /** What the matrix annihilates, the eliminated matrix annihilates. */
  lemma KernelIsKept(m: Matrix, w: Matrix, perm: seq<nat>, c: nat, columns: nat, y: seq<real>)
    requires Eliminated(m, w, perm, c, columns) && |y| == columns && Annihilates(m, y)
    ensures Annihilates(w, y)
  {
  }

  lemma SingularCertificate(matrix: Matrix, w: Matrix, perm: seq<nat>, c: nat, tol: real)
    requires HasShape(matrix, |matrix|, |matrix|) && c < |matrix|
    requires Eliminated(matrix, w, perm, c, |matrix|)
    requires Triangular(w, c) && tol > 0.0
    requires forall r | c <= r < |matrix| :: Abs(w[r][c]) < tol
    ensures NearlySingular(matrix, tol)
  {
    hide Dot, KernelKept;
    var n := |matrix|;
    var y := BackSubstitute(w, c, 0);
    assert AnnihilatesFirst(w, y, c);
    assert AgreesOn(matrix, w, perm, y);
    forall r | 0 <= r < n ensures Abs(Dot(w[r], y, |y|)) < tol {
      if r < c {
        assert Dot(w[r], y, |y|) == 0.0;
      } else {
        TriangularTail(w, r, c, y);
      }
    }
    TracedBound(matrix, w, perm, y, tol);
    assert Squashes(matrix, y, c, tol);
  }
}
