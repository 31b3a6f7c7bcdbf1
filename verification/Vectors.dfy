/** Real vectors and matrices as sequences, and the dot product every
    linear-algebra module reasons about. */
module Vectors {
  type Matrix = seq<seq<real>>

  function Abs(v: real): real { if v < 0.0 then -v else v }

  /** Multiplication by name, so that a proof can treat a product as an atom. */
  function Times(a: real, b: real): real { a * b }

  lemma TimesDistributes(a: real, b: real, c: real)
    ensures Times(a, b + c) == Times(a, b) + Times(a, c)
    ensures Times(b + c, a) == Times(b, a) + Times(c, a)
  {
  }

  lemma TimesZero(a: real)
    ensures Times(a, 0.0) == 0.0 && Times(0.0, a) == 0.0
  {
  }

  lemma TimesAssociates(a: real, b: real, c: real)
    ensures Times(Times(a, b), c) == Times(a, Times(b, c))
    ensures Times(a, b) == Times(b, a)
  {
  }

  /** The dot product of the first `n` entries. */
  function Dot(x: seq<real>, y: seq<real>, n: nat): real
    requires n <= |x| && n <= |y|
  {
    if n == 0 then 0.0 else Dot(x, y, n - 1) + Times(x[n - 1], y[n - 1])
  }

  ghost predicate HasShape(m: Matrix, rows: nat, columns: nat) {
    |m| == rows && forall r | 0 <= r < rows :: |m[r]| == columns
  }

  /** Every row of `m` is orthogonal to `y`. */
  ghost predicate Annihilates(m: Matrix, y: seq<real>)
    requires HasShape(m, |m|, |y|)
  {
    forall r | 0 <= r < |m| :: Dot(m[r], y, |y|) == 0.0
  }

  /** `m` times `x` is `b`. */
  ghost predicate Maps(m: Matrix, x: seq<real>, b: seq<real>)
    requires HasShape(m, |b|, |x|)
  {
    forall r | 0 <= r < |b| :: Dot(m[r], x, |x|) == b[r]
  }

  ghost predicate IsZero(x: seq<real>) {
    forall i | 0 <= i < |x| :: x[i] == 0.0
  }

  lemma {:induction false} DotAgrees(x: seq<real>, x': seq<real>, y: seq<real>, y': seq<real>, n: nat)
    requires n <= |x| && n <= |x'| && n <= |y| && n <= |y'|
    requires forall k | 0 <= k < n :: x[k] == x'[k] && y[k] == y'[k]
    ensures Dot(x, y, n) == Dot(x', y', n)
  {
    if n > 0 {
      DotAgrees(x, x', y, y', n - 1);
    }
  }

  /** z = x + f w. */
  ghost predicate IsShiftedBy(z: seq<real>, x: seq<real>, f: real, w: seq<real>) {
    && |z| == |x| == |w|
    && forall k {:trigger z[k]} | 0 <= k < |z| :: z[k] == x[k] + Times(f, w[k])
  }

  /** Dot products are linear in their first argument. */
  lemma {:induction false} DotLinear(z: seq<real>, x: seq<real>, f: real, w: seq<real>, y: seq<real>, n: nat)
    requires IsShiftedBy(z, x, f, w) && n <= |z| && n <= |y|
    ensures Dot(z, y, n) == Dot(x, y, n) + Times(f, Dot(w, y, n))
  {
    hide Times;
    if n == 0 {
      TimesZero(f);
    } else {
      var k := n - 1;
      DotLinear(z, x, f, w, y, k);
      TimesDistributes(y[k], x[k], Times(f, w[k]));
      TimesAssociates(f, w[k], y[k]);
      TimesDistributes(f, Dot(w, y, k), Times(w[k], y[k]));
    }
  }

  /** z = f w gives z . y = f (w . y). */
  lemma {:induction false} DotScaled(z: seq<real>, f: real, w: seq<real>, y: seq<real>, n: nat)
    requires n <= |z| && n <= |w| && n <= |y|
    requires forall k {:trigger z[k]} | 0 <= k < n :: z[k] == Times(f, w[k])
    ensures Dot(z, y, n) == Times(f, Dot(w, y, n))
  {
    hide Times;
    if n == 0 {
      TimesZero(f);
    } else {
      var k := n - 1;
      DotScaled(z, f, w, y, k);
      TimesAssociates(f, w[k], y[k]);
      TimesDistributes(f, Dot(w, y, k), Times(w[k], y[k]));
    }
  }

  lemma {:induction false} DotSymmetric(x: seq<real>, y: seq<real>, n: nat)
    requires n <= |x| && n <= |y|
    ensures Dot(x, y, n) == Dot(y, x, n)
  {
    hide Times;
    if n > 0 {
      DotSymmetric(x, y, n - 1);
      TimesAssociates(x[n - 1], y[n - 1], 0.0);
    }
  }

  lemma {:induction false} DotZero(x: seq<real>, y: seq<real>, n: nat)
    requires n <= |x| && n <= |y|
    requires forall k | 0 <= k < n :: x[k] == 0.0 || y[k] == 0.0
    ensures Dot(x, y, n) == 0.0
  {
    if n > 0 {
      DotZero(x, y, n - 1);
    }
  }

  /** Only entry `i` contributes. */
  lemma {:induction false} DotSingle(x: seq<real>, y: seq<real>, n: nat, i: nat)
    requires i < n <= |x| && n <= |y|
    requires forall k | 0 <= k < n && k != i :: x[k] == 0.0 || y[k] == 0.0
    ensures Dot(x, y, n) == Times(x[i], y[i])
  {
    if i == n - 1 {
      DotZero(x, y, n - 1);
    } else {
      DotSingle(x, y, n - 1, i);
    }
  }

  /** Changing one entry changes the dot product by one product. */
  lemma {:induction false} DotUpdated(z: seq<real>, x: seq<real>, y: seq<real>, n: nat, i: nat)
    requires i < n <= |x| && n <= |z| && n <= |y|
    requires forall k | 0 <= k < n && k != i :: z[k] == x[k]
    ensures Dot(z, y, n) == Dot(x, y, n) + Times(z[i] - x[i], y[i])
  {
    hide Times;
    if i == n - 1 {
      DotAgrees(z, x, y, y, n - 1);
      TimesDistributes(y[i], x[i], z[i] - x[i]);
    } else {
      DotUpdated(z, x, y, n - 1, i);
    }
  }
}
