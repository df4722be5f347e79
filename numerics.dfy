/** The floating-point routines the simulator takes from Eigen, which the
    model does not compute: the self-adjoint eigen solver, the operator
    square root it offers, matrix inversion and vector normalisation.  They
    are passed in as a value, so every property proved below holds whatever
    these routines return. */
module Numerics {
  import C = ComplexNumbers
  import opened Matrices

  /** Eigenvalues (ascending, real) and eigenvectors (as columns). */
  datatype Spectrum = Spectrum(values: seq<real>, vectors: Matrix)

  datatype Routines = Routines(
    /** SelfAdjointEigenSolver: the decomposition it reports ... */
    eigen: Matrix -> Spectrum,
    /** ... and whether info() reports Success. */
    converged: Matrix -> bool,
    /** SelfAdjointEigenSolver::operatorSqrt. */
    operatorSqrt: Matrix -> Matrix,
    /** MatrixBase::inverse. */
    inverse: Matrix -> Matrix,
    /** MatrixBase::normalize on a column. */
    normalize: seq<C.Complex> -> seq<C.Complex>)

  /** The 1e-15 tolerance of the physical checks. */
  const Tolerance: real := 0.000000000000001

  /** |z - w| > 1e-15, compared through squares since both sides are
      non-negative. */
  predicate FarFrom(z: C.Complex, w: C.Complex) {
    C.NormSq(C.Sub(z, w)) > Tolerance * Tolerance
  }

  /** |z - w| < 1e-15. */
  predicate Near(z: C.Complex, w: C.Complex) {
    C.NormSq(C.Sub(z, w)) < Tolerance * Tolerance
  }

  /** The shapes Eigen guarantees for a square argument: its inverse and
      its operator square root are square matrices of the same size. */
  ghost predicate Shaped(num: Routines) {
    forall m: Matrix :: IsSquare(m) ==>
      num.inverse(m).rows == m.rows && num.inverse(m).cols == m.cols &&
      num.operatorSqrt(m).rows == m.rows && num.operatorSqrt(m).cols == m.cols
  }
}
