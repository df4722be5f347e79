/** Exact complex numbers: the entry type of Eigen's MatrixXcd, with
    std::complex<double> replaced by a pair of reals so that equalities the
    C++ code tests (`matr == matr.adjoint()`) are decided exactly. */
module ComplexNumbers {

  datatype Complex = Complex(re: real, im: real)

  const Zero: Complex := Complex(0.0, 0.0)
  const One: Complex := Complex(1.0, 0.0)

  function Of(x: real): Complex { Complex(x, 0.0) }

  function Add(a: Complex, b: Complex): Complex { Complex(a.re + b.re, a.im + b.im) }

  function Neg(a: Complex): Complex { Complex(-a.re, -a.im) }

  function Sub(a: Complex, b: Complex): Complex { Complex(a.re - b.re, a.im - b.im) }

  function Mul(a: Complex, b: Complex): Complex {
    Complex(a.re * b.re - a.im * b.im, a.re * b.im + a.im * b.re)
  }

  /** Complex conjugate, the entrywise part of MatrixBase::adjoint. */
  function Conj(a: Complex): Complex { Complex(a.re, -a.im) }

  /** Division by a non-zero real, as in `matrix / probability`. */
  function DivReal(a: Complex, k: real): Complex
    requires k != 0.0
  {
    Complex(a.re / k, a.im / k)
  }

  /** |a|^2; the C++ code compares std::abs(z) against 1e-15, which for
      non-negative quantities is the same as comparing |z|^2 against 1e-30. */
  function NormSq(a: Complex): real { a.re * a.re + a.im * a.im }

  lemma AddUnits(a: Complex)
    ensures Add(a, Zero) == a && Add(Zero, a) == a
  {
  }

  lemma AddMulOne(p: Complex, x: Complex)
    requires p == Zero
    ensures Add(p, Mul(x, One)) == x
  {
  }

  lemma AddMulZero(p: Complex, x: Complex)
    ensures Add(p, Mul(x, Zero)) == p
  {
  }

  lemma AddOneMul(p: Complex, x: Complex)
    requires p == Zero
    ensures Add(p, Mul(One, x)) == x
  {
  }

  lemma AddZeroMul(p: Complex, x: Complex)
    ensures Add(p, Mul(Zero, x)) == p
  {
  }

  lemma AddShuffle(a: Complex, b: Complex, c: Complex, d: Complex)
    ensures Add(Add(a, b), Add(c, d)) == Add(Add(a, c), Add(b, d))
  {
  }

  /** Real numbers multiply as complex numbers do. */
  lemma MulOf(x: real, y: real)
    ensures Mul(Of(x), Of(y)) == Of(x * y)
  {
  }

  lemma MulComm(a: Complex, b: Complex)
    ensures Mul(a, b) == Mul(b, a)
  {
  }

  lemma MulAssoc(a: Complex, b: Complex, c: Complex)
    ensures Mul(Mul(a, b), c) == Mul(a, Mul(b, c))
  {
  }

  lemma MulAddDistrib(a: Complex, b: Complex, c: Complex)
    ensures Mul(a, Add(b, c)) == Add(Mul(a, b), Mul(a, c))
    ensures Mul(Add(b, c), a) == Add(Mul(b, a), Mul(c, a))
  {
  }

  lemma ConjMul(a: Complex, b: Complex)
    ensures Conj(Mul(a, b)) == Mul(Conj(a), Conj(b))
  {
  }

  lemma MulUnits(a: Complex)
    ensures Mul(a, One) == a && Mul(One, a) == a
    ensures Mul(a, Zero) == Zero && Mul(Zero, a) == Zero
  {
  }

  /** z * conj(z) is the real number |z|^2. */
  lemma MulConjSelf(a: Complex)
    ensures Mul(a, Conj(a)) == Of(NormSq(a))
  {
  }
}
