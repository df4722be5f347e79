/** MatrixBase::isApprox with its default precision, the comparison the
    simulator uses for self-adjointness, for the sum of measurement
    operators and for unitarity: two matrices of one shape are
    approximately equal when the squared Frobenius norm of their difference
    is at most precision^2 times the smaller of their squared norms. */
module Approximation {
  import C = ComplexNumbers
  import opened Matrices

  /** NumTraits<double>::dummy_precision(), isApprox's default. */
  const Precision: real := 0.000000000001

  /** The sum of |m(i, t)|^2 over t < n. */
  function RowNormSq(m: Matrix, i: int, n: nat): real {
    if n == 0 then 0.0 else RowNormSq(m, i, n - 1) + C.NormSq(At(m, i, n - 1))
  }

  /** The sum of the squared entries of the first n rows. */
  function NormSqRows(m: Matrix, n: nat): real {
    if n == 0 then 0.0 else NormSqRows(m, n - 1) + RowNormSq(m, n - 1, m.cols)
  }

  /** MatrixBase::squaredNorm: the squared Frobenius norm. */
  function SquaredNorm(m: Matrix): real {
    NormSqRows(m, m.rows)
  }

  /** a - b, entrywise. */
  function Difference(a: Matrix, b: Matrix): (d: Matrix)
    requires a.rows == b.rows && a.cols == b.cols
    ensures d.rows == a.rows && d.cols == a.cols
  {
    Build(a.rows, a.cols, (i, j) => C.Sub(At(a, i, j), At(b, i, j)))
  }

  function Min(x: real, y: real): real {
    if x <= y then x else y
  }

  /** a.isApprox(b). */
  predicate IsApprox(a: Matrix, b: Matrix) {
    a.rows == b.rows && a.cols == b.cols &&
    SquaredNorm(Difference(a, b)) <= Precision * Precision * Min(SquaredNorm(a), SquaredNorm(b))
  }

  // ---------------------------------------------------------------------
  // Properties.

  lemma PrecisionSquared()
    ensures Precision * Precision == 0.000000000000000000000001
  {
  }

  lemma NormSqNonNegative(z: C.Complex)
    ensures C.NormSq(z) >= 0.0
  {
    assert z.re * z.re >= 0.0 && z.im * z.im >= 0.0;
  }

  /** A row sum is non-negative and at least each of its terms. */
  lemma {:induction false} RowNormSqBelow(m: Matrix, i: int, n: nat)
    ensures RowNormSq(m, i, n) >= 0.0
    ensures forall t :: 0 <= t < n ==> C.NormSq(At(m, i, t)) <= RowNormSq(m, i, n)
  {
    if n > 0 {
      RowNormSqBelow(m, i, n - 1);
      NormSqNonNegative(At(m, i, n - 1));
    }
  }

  /** k copies of x added up. */
  function Times(k: nat, x: real): real {
    if k == 0 then 0.0 else Times(k - 1, x) + x
  }

  lemma {:induction false} TimesZero(k: nat)
    ensures Times(k, 0.0) == 0.0
  {
    if k > 0 {
      TimesZero(k - 1);
    }
  }

  /** A row sum is at most n times a bound on its terms. */
  lemma {:induction false} RowNormSqAbove(m: Matrix, i: int, n: nat, bound: real)
    requires forall t :: 0 <= t < n ==> C.NormSq(At(m, i, t)) <= bound
    ensures RowNormSq(m, i, n) <= Times(n, bound)
  {
    if n > 0 {
      RowNormSqAbove(m, i, n - 1, bound);
    }
  }

  lemma {:induction false} NormSqRowsBelow(m: Matrix, n: nat)
    ensures NormSqRows(m, n) >= 0.0
    ensures forall i, j :: 0 <= i < n && 0 <= j < m.cols ==> C.NormSq(At(m, i, j)) <= NormSqRows(m, n)
  {
    if n > 0 {
      NormSqRowsBelow(m, n - 1);
      RowNormSqBelow(m, n - 1, m.cols);
    }
  }

  lemma {:induction false} NormSqRowsAbove(m: Matrix, n: nat, bound: real)
    requires forall i, j :: 0 <= i < n && 0 <= j < m.cols ==> C.NormSq(At(m, i, j)) <= bound
    ensures NormSqRows(m, n) <= Times(n, Times(m.cols, bound))
  {
    if n > 0 {
      NormSqRowsAbove(m, n - 1, bound);
      RowNormSqAbove(m, n - 1, m.cols, bound);
    }
  }

  /** The squared norm is non-negative and at least the squared modulus of
      every entry ... */
  lemma SquaredNormBelow(m: Matrix)
    ensures SquaredNorm(m) >= 0.0
    ensures forall i, j :: 0 <= i < m.rows && 0 <= j < m.cols ==> C.NormSq(At(m, i, j)) <= SquaredNorm(m)
  {
    NormSqRowsBelow(m, m.rows);
  }

  /** ... and at most the number of entries times a bound on them. */
  lemma SquaredNormAbove(m: Matrix, bound: real)
    requires forall i, j :: 0 <= i < m.rows && 0 <= j < m.cols ==> C.NormSq(At(m, i, j)) <= bound
    ensures SquaredNorm(m) <= Times(m.rows, Times(m.cols, bound))
  {
    NormSqRowsAbove(m, m.rows, bound);
  }

  /** Exact equality passes every isApprox test. */
  lemma ApproxOfEqual(a: Matrix, b: Matrix)
    requires a == b
    ensures IsApprox(a, b)
  {
    SquaredNormAbove(Difference(a, b), 0.0);
    TimesZero(a.cols);
    TimesZero(a.rows);
    SquaredNormBelow(a);
  }

  /** One entry of the difference larger than precision^2 times a bound
      on a's squared norm makes the two matrices not approximately equal. */
  lemma NotApproxAt(a: Matrix, b: Matrix, i: int, j: int, bound: real)
    requires a.rows == b.rows && a.cols == b.cols
    requires 0 <= i < a.rows && 0 <= j < a.cols
    requires SquaredNorm(a) <= bound
    requires C.NormSq(At(Difference(a, b), i, j)) > Precision * Precision * bound
    ensures !IsApprox(a, b)
  {
    SquaredNormBelow(Difference(a, b));
    SquaredNormBelow(b);
    var p := Precision * Precision;
    assert p > 0.0;
    assert p * SquaredNorm(a) <= p * bound;
  }

  /** A matrix with a non-zero entry is not approximately a zero matrix:
      the smaller of the two squared norms is then 0. */
  lemma NotApproxZeros(a: Matrix, i: int, j: int)
    requires 0 <= i < a.rows && 0 <= j < a.cols && C.NormSq(At(a, i, j)) > 0.0
    ensures !IsApprox(a, Zeros(a.rows, a.cols))
  {
    var z := Zeros(a.rows, a.cols);
    assert SquaredNorm(z) == 0.0 by {
      SquaredNormAbove(z, 0.0);
      TimesZero(a.cols);
      TimesZero(a.rows);
      SquaredNormBelow(z);
    }
    SquaredNormBelow(a);
    assert Min(SquaredNorm(a), SquaredNorm(z)) == 0.0;
    var diff := Difference(a, z);
    SquaredNormBelow(diff);
    assert At(diff, i, j) == At(a, i, j);
    assert SquaredNorm(diff) > 0.0;
    assert Precision * Precision * Min(SquaredNorm(a), SquaredNorm(z)) == 0.0;
  }
}
