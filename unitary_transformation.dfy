/** A unitary transformation of quantum states over one Hilbert space: a
    square matrix U, given directly (it must then be approximately unitary)
    or computed from a pair of bases as oldBasis^-1 * newBasis after their
    columns are normalised, and applied to a state as rho := U rho U^+. */
module UnitaryTransformations {
  import opened Wrappers
  import C = ComplexNumbers
  import opened Matrices
  import opened Numerics
  import opened Approximation
  import HilbertSpaces
  import QuantumStates

  // ---------------------------------------------------------------------
  // The checks and the two ways of building the matrix.

  /** _checkMatrixIsUnitary: the identity is approximately U * U^+. */
  predicate IsUnitary(u: Matrix) {
    IsApprox(Identity(u.rows), Mul(u, Adjoint(u)))
  }

  /** The matrix constructor's outcome: square, then unitary, then the
      space's total dimension against the column count (_checkSpace). */
  function FromMatrixOutcome(u: Matrix, total: int): Result<Matrix> {
    if u.rows != u.cols then Err(InvalidArgument(TransformNotSquare))
    else if !IsUnitary(u) then Err(InvalidArgument(TransformNotUnitary))
    else if total != u.cols then Err(InvalidArgument(IncorrectSpace))
    else Ok(u)
  }

  /** Entry i of a vector, zero outside it. */
  function Entry(v: seq<C.Complex>, i: int): C.Complex {
    if 0 <= i < |v| then v[i] else C.Zero
  }

  /** m with column j replaced by v. */
  function WithColumn(m: Matrix, j: int, v: seq<C.Complex>): Matrix {
    Build(m.rows, m.cols, (i, c) => if c == j then Entry(v, i) else At(m, i, c))
  }

  /** m with each of its first k columns normalised. */
  function NormalizedUpTo(m: Matrix, k: int, num: Routines): Matrix {
    Build(m.rows, m.cols, (i, c) => if c < k then Entry(num.normalize(Col(m, c)), i) else At(m, i, c))
  }

  /** m with every column normalised. */
  function NormalizeColumns(m: Matrix, num: Routines): Matrix {
    NormalizedUpTo(m, m.cols, num)
  }

  /** The bases constructor's outcome: both bases square, of one size, then
      U = inverse(normalised old) * normalised new, then the space.  No
      unitarity check is made on this path. */
  function FromBasesOutcome(oldBasis: Matrix, newBasis: Matrix, total: int, num: Routines): Result<Matrix>
    requires Shaped(num)
  {
    if oldBasis.rows != oldBasis.cols then Err(InvalidArgument(OldBasisNotSquare))
    else if newBasis.rows != newBasis.cols then Err(InvalidArgument(NewBasisNotSquare))
    else if oldBasis.cols != newBasis.cols then Err(InvalidArgument(BasisSizesDiffer))
    else
      var u := Mul(num.inverse(NormalizeColumns(oldBasis, num)), NormalizeColumns(newBasis, num));
      if total != u.cols then Err(InvalidArgument(IncorrectSpace)) else Ok(u)
  }

  /** U rho U^+. */
  function Conjugated(u: Matrix, rho: Matrix): Matrix
    requires u.cols == rho.rows && rho.cols == u.cols
  {
    Mul(Mul(u, rho), Adjoint(u))
  }

  /** Normalising column k of a matrix whose first k columns are normalised
      gives the matrix whose first k + 1 columns are. */
  lemma NormalizeStep(m: Matrix, k: int, num: Routines)
    requires 0 <= k < m.cols
    ensures var p := NormalizedUpTo(m, k, num);
      WithColumn(p, k, num.normalize(Col(p, k))) == NormalizedUpTo(m, k + 1, num)
  {
    var p := NormalizedUpTo(m, k, num);
    assert Col(p, k) == Col(m, k);
    var v := num.normalize(Col(m, k));
    var l, r := WithColumn(p, k, v), NormalizedUpTo(m, k + 1, num);
    forall i, c | 0 <= i < m.rows && 0 <= c < m.cols
      ensures At(l, i, c) == At(r, i, c)
    {
    }
    Ext(l, r);
  }

  lemma NormalizedNone(m: Matrix, num: Routines)
    ensures NormalizedUpTo(m, 0, num) == m
  {
    Ext(NormalizedUpTo(m, 0, num), m);
  }

  /** The constructor's loop over the columns, normalising column i of both
      bases at step i. */
  method NormalizeBases(oldBasis: Matrix, newBasis: Matrix, num: Routines) returns (o: Matrix, n: Matrix)
    requires oldBasis.cols == newBasis.cols
    ensures o == NormalizeColumns(oldBasis, num) && n == NormalizeColumns(newBasis, num)
  {
    o, n := oldBasis, newBasis;
    NormalizedNone(oldBasis, num);
    NormalizedNone(newBasis, num);
    var i := 0;
    while i < oldBasis.cols
      invariant 0 <= i <= oldBasis.cols
      invariant o == NormalizedUpTo(oldBasis, i, num)
      invariant n == NormalizedUpTo(newBasis, i, num)
    {
      NormalizeStep(oldBasis, i, num);
      NormalizeStep(newBasis, i, num);
      o := WithColumn(o, i, num.normalize(Col(o, i)));
      n := WithColumn(n, i, num.normalize(Col(n, i)));
      i := i + 1;
    }
  }

  // ---------------------------------------------------------------------
  // The transformation as an object.

  class UnitaryTransformation {
    var matrix: Matrix
    var space: HilbertSpaces.HilbertSpace

    /** The matrix is square and its size is the space's total dimension. */
    ghost predicate Valid()
      reads this, space
    {
      space.Valid() && IsSquare(matrix) && matrix.cols == space.dim
    }

    constructor Of(matrix: Matrix, space: HilbertSpaces.HilbertSpace)
      ensures this.matrix == matrix && this.space == space
    {
      this.matrix := matrix;
      this.space := space;
    }

    /** UnitaryTransformation(matrix, space): square, unitary, then the
        space; the matrix is kept exactly as given, with a copy of the
        space. */
    static method FromMatrix(u: Matrix, space: HilbertSpaces.HilbertSpace) returns (r: Result<UnitaryTransformation>)
      requires space.Valid()
      ensures r.Err? <==> FromMatrixOutcome(u, space.dim).Err?
      ensures r.Err? ==> r.error == FromMatrixOutcome(u, space.dim).error
      ensures r.Ok? ==> fresh(r.value) && fresh(r.value.space) && r.value.Valid()
      ensures r.Ok? ==> r.value.matrix == u && IsUnitary(u)
      ensures r.Ok? ==> r.value.space.dimensions == space.dimensions && r.value.space.rank == space.rank && r.value.space.dim == space.dim
    {
      if u.rows != u.cols {
        return Err(InvalidArgument(TransformNotSquare));
      }
      if !IsUnitary(u) {
        return Err(InvalidArgument(TransformNotUnitary));
      }
      var copy := space.Clone();
      if copy.dim != u.cols {
        return Err(InvalidArgument(IncorrectSpace));
      }
      var t := new UnitaryTransformation.Of(u, copy);
      return Ok(t);
    }

    /** UnitaryTransformation(oldBasis, newBasis, space): both bases square
        and of one size, their columns normalised, U = oldBasis^-1 *
        newBasis, then the space. */
    static method FromBases(oldBasis: Matrix, newBasis: Matrix, space: HilbertSpaces.HilbertSpace, numerics: Routines)
      returns (r: Result<UnitaryTransformation>)
      requires space.Valid() && Shaped(numerics)
      ensures r.Err? <==> FromBasesOutcome(oldBasis, newBasis, space.dim, numerics).Err?
      ensures r.Err? ==> r.error == FromBasesOutcome(oldBasis, newBasis, space.dim, numerics).error
      ensures r.Ok? ==> fresh(r.value) && fresh(r.value.space) && r.value.Valid()
      ensures r.Ok? ==> r.value.matrix == FromBasesOutcome(oldBasis, newBasis, space.dim, numerics).value
      ensures r.Ok? ==> r.value.space.dimensions == space.dimensions && r.value.space.rank == space.rank && r.value.space.dim == space.dim
    {
      if oldBasis.rows != oldBasis.cols {
        return Err(InvalidArgument(OldBasisNotSquare));
      }
      if newBasis.rows != newBasis.cols {
        return Err(InvalidArgument(NewBasisNotSquare));
      }
      if oldBasis.cols != newBasis.cols {
        return Err(InvalidArgument(BasisSizesDiffer));
      }
      var o, n := NormalizeBases(oldBasis, newBasis, numerics);
      var u := Mul(numerics.inverse(o), n);
      var copy := space.Clone();
      if copy.dim != u.cols {
        return Err(InvalidArgument(IncorrectSpace));
      }
      var t := new UnitaryTransformation.Of(u, copy);
      return Ok(t);
    }

    /** transformMatrix(): square, of the space's total dimension. */
    function TransformMatrix(): (m: Matrix)
      reads this, space
      requires Valid()
      ensures IsSquare(m) && m.rows == space.dim
    {
      matrix
    }

    /** space(): a copy of the transformation's space. */
    method Space() returns (s: HilbertSpaces.HilbertSpace)
      ensures fresh(s)
      ensures s.dimensions == space.dimensions && s.rank == space.rank && s.dim == space.dim
    {
      s := space.Clone();
    }

    /** applyTo's comparison as written: operator== on the spaces, which
        compares the dimension lists only. */
    predicate AdmitsAsWritten(s: HilbertSpaces.HilbertSpace)
      reads this, space, s
    {
      space.Equals(s)
    }

    /** The comparison the product U rho U^+ needs: the same dimension list
        and the same total dimension. */
    predicate Admits(s: HilbertSpaces.HilbertSpace)
      reads this, space, s
    {
      space.Equals(s) && space.dim == s.dim
    }

    /** applyTo: a state over another space is refused and left alone;
        otherwise the state's matrix is replaced by U rho U^+ through
        setMatrix and the same state is returned, so that calls chain. */
    method ApplyTo(state: QuantumStates.QuantumState) returns (r: Result<QuantumStates.QuantumState>)
      requires Valid() && state.Valid()
      modifies state
      ensures state.Valid() && state.space == old(state.space)
      ensures !Admits(state.space) ==> r == Err(InvalidArgument(StateSpaceMismatch)) && unchanged(state)
      ensures Admits(state.space) ==>
        var next := Conjugated(matrix, old(state.density));
        var e := QuantumStates.ReplaceError(next, state.space.dim, state.numerics);
        (r.Ok? <==> e.None?) && (r.Err? ==> r.error == e.value)
      ensures r.Ok? ==> r.value == state && state.Current() && state.density == Conjugated(matrix, old(state.density))
      ensures r.Err? ==> state.density == old(state.density)
      ensures Admits(state.space) && QuantumStates.ReachesSolver(Conjugated(matrix, old(state.density)), state.space.dim, state.numerics) ==>
        Spectrum(state.eigenValues, state.eigenVectors) == QuantumStates.Decompose(Conjugated(matrix, old(state.density)), state.numerics).value
      ensures Admits(state.space) && !QuantumStates.ReachesSolver(Conjugated(matrix, old(state.density)), state.space.dim, state.numerics) ==>
        state.eigenValues == old(state.eigenValues) && state.eigenVectors == old(state.eigenVectors)
    {
      if !Admits(state.space) {
        return Err(InvalidArgument(StateSpaceMismatch));
      }
      var e := state.SetMatrix(Conjugated(matrix, state.density));
      if e.Some? {
        return Err(e.value);
      }
      return Ok(state);
    }
  }

  // ---------------------------------------------------------------------
  // Properties.

  /** The identity of any size is unitary. */
  lemma IdentityUnitary(n: nat)
    ensures IsUnitary(Identity(n))
  {
    AdjointIdentity(n);
    MulIdentityRight(Identity(n));
    ApproxOfEqual(Identity(n), Mul(Identity(n), Adjoint(Identity(n))));
  }

  /** The matrix constructor keeps the matrix exactly as given: an
      identity is accepted unchanged over a space of its size and refused
      for the space over any other (the 2 x 2 identity over the spaces 2
      and 3, for instance). */
  lemma IdentityOutcome(n: nat, total: int)
    ensures FromMatrixOutcome(Identity(n), total) ==
      if total == n then Ok(Identity(n)) else Err(InvalidArgument(IncorrectSpace))
  {
    IdentityUnitary(n);
  }

  /** Squareness is checked before unitarity and the space: a 2 x 3 matrix
      is refused as not square whatever the space. */
  lemma NonSquareFirst(total: int)
    ensures FromMatrixOutcome(Build(2, 3, (i, j) => C.Of((3 * i + j + 1) as real)), total) == Err(InvalidArgument(TransformNotSquare))
  {
  }

  /** The n x n matrix with every entry 1. */
  function Ones(n: nat): Matrix {
    Build(n, n, (i, j) => C.One)
  }

  lemma OnesAt(n: nat, i: int, j: int)
    requires 0 <= i < n && 0 <= j < n
    ensures At(Ones(n), i, j) == C.One
  {
  }

  /** A row of ones against a column of ones sums to the count. */
  lemma {:induction false} OnesDot(a: Matrix, b: Matrix, i: int, j: int, k: nat)
    requires forall t :: 0 <= t < k ==> At(a, i, t) == C.One && At(b, t, j) == C.One
    ensures Dot(a, b, i, j, k) == C.Of(k as real)
  {
    if k > 0 {
      var t := k - 1;
      OnesDot(a, b, i, j, t);
      var prev := Dot(a, b, i, j, t);
      assert At(a, i, t) == C.One && At(b, t, j) == C.One;
      assert Dot(a, b, i, j, k) == C.Add(prev, C.Mul(C.One, C.One));
      CountStep(prev, t);
    }
  }

  lemma CountStep(prev: C.Complex, t: nat)
    requires prev == C.Of(t as real)
    ensures C.Add(prev, C.Mul(C.One, C.One)) == C.Of((t + 1) as real)
  {
    assert C.Mul(C.One, C.One) == C.One;
    assert (t + 1) as real == t as real + 1.0;
  }

  /** k copies of x add up to k * x. */
  lemma {:induction false} TimesIsProduct(k: nat, x: real)
    ensures Times(k, x) == (k as real) * x
  {
    if k > 0 {
      TimesIsProduct(k - 1, x);
      assert (k as real) * x == ((k - 1) as real) * x + x;
    }
  }

  lemma OnesRows(n: nat)
    requires n >= 2
    ensures forall t :: 0 <= t < n ==> At(Ones(n), 0, t) == C.One && At(Adjoint(Ones(n)), t, 1) == C.One
  {
    forall t | 0 <= t < n
      ensures At(Ones(n), 0, t) == C.One && At(Adjoint(Ones(n)), t, 1) == C.One
    {
      OnesAt(n, 0, t);
      OnesAt(n, 1, t);
      AdjointAt(Ones(n), t, 1);
    }
  }

  /** Every entry of U U^+ is n for the n x n all-ones matrix U. */
  lemma OnesProduct(n: nat)
    requires n >= 2
    ensures At(Mul(Ones(n), Adjoint(Ones(n))), 0, 1) == C.Of(n as real)
  {
    OnesRows(n);
    OnesEntry(Ones(n), Adjoint(Ones(n)), n);
  }

  /** Entry (0, 1) of a product whose row 0 and column 1 hold only ones. */
  lemma OnesEntry(a: Matrix, b: Matrix, n: nat)
    requires a.cols == n == b.rows && a.rows >= 1 && b.cols >= 2
    requires forall t :: 0 <= t < n ==> At(a, 0, t) == C.One && At(b, t, 1) == C.One
    ensures At(Mul(a, b), 0, 1) == C.Of(n as real)
  {
    OnesDot(a, b, 0, 1, n);
    MulAt(a, b, 0, 1);
  }

  /** No all-ones matrix of size two or more is unitary, so the constructor
      refuses it whatever the space: U U^+ has every entry n, so entry
      (0, 1) of I - U U^+ is -n, as large as the identity's norm allows. */
  lemma OnesNotUnitary(n: nat, total: int)
    requires n >= 2
    ensures FromMatrixOutcome(Ones(n), total) == Err(InvalidArgument(TransformNotUnitary))
  {
    OnesProduct(n);
    NotUnitaryWhen(Ones(n), n);
  }

  /** A square matrix U of size n >= 2 with entry (0, 1) of U U^+ equal to n
      is not unitary. */
  lemma NotUnitaryWhen(u: Matrix, n: nat)
    requires u.rows == n && u.cols == n && n >= 2
    requires At(Mul(u, Adjoint(u)), 0, 1) == C.Of(n as real)
    ensures !IsUnitary(u)
  {
    var m := n as real;
    IdentityAt(n, 0, 1);
    IdentityNorm(n);
    TimesIsProduct(n, 1.0);
    TimesIsProduct(n, m);
    FarGap(Identity(n), Mul(u, Adjoint(u)), m);
  }

  /** The n x n identity has squared norm at most n * n. */
  lemma IdentityNorm(n: nat)
    ensures SquaredNorm(Identity(n)) <= Times(n, Times(n, 1.0))
  {
    forall i, j | 0 <= i < n && 0 <= j < n
      ensures C.NormSq(At(Identity(n), i, j)) <= 1.0
    {
      IdentityAt(n, i, j);
    }
    SquaredNormAbove(Identity(n), 1.0);
  }

  /** A matrix of squared norm at most m * m is not approximately one whose
      entry (0, 1) differs from its own by m >= 2. */
  lemma FarGap(a: Matrix, p: Matrix, m: real)
    requires a.rows == p.rows && a.cols == p.cols && a.rows >= 2 && a.cols >= 2
    requires m >= 2.0 && SquaredNorm(a) <= m * m
    requires At(a, 0, 1) == C.Zero && At(p, 0, 1) == C.Of(m)
    ensures !IsApprox(a, p)
  {
    var bound := m * m;
    assert bound >= 4.0 by {
      assert m * m >= 2.0 * m;
    }
    var d := At(Difference(a, p), 0, 1);
    assert d == C.Of(-m);
    assert C.NormSq(d) == bound by {
      assert (-m) * (-m) == m * m;
    }
    PrecisionSquared();
    NotApproxAt(a, p, 0, 1, bound);
  }

  /** Routines whose inverse is the zero matrix of the same shape. */
  const ZeroInverse: Routines := Routines(
    (m: Matrix) => Spectrum([], m), (m: Matrix) => true, (m: Matrix) => m,
    (m: Matrix) => Zeros(m.rows, m.cols), (v: seq<C.Complex>) => v)

  lemma ZeroInverseShaped()
    ensures Shaped(ZeroInverse)
  {
  }

  /** With the zero inverse, the bases constructor's matrix is zero. */
  lemma ZeroInverseOutcome(oldBasis: Matrix, newBasis: Matrix, n: nat)
    requires oldBasis.rows == oldBasis.cols == n && newBasis.rows == newBasis.cols == n
    requires Shaped(ZeroInverse)
    ensures FromBasesOutcome(oldBasis, newBasis, n, ZeroInverse) == Ok(Zeros(n, n))
  {
    var o, m := NormalizeColumns(oldBasis, ZeroInverse), NormalizeColumns(newBasis, ZeroInverse);
    assert ZeroInverse.inverse(o) == Zeros(n, n);
    MulZeros(m, n);
  }

  /** The zero matrix of size n >= 1 is not unitary. */
  lemma ZerosNotUnitary(n: nat)
    requires n >= 1
    ensures !IsUnitary(Zeros(n, n))
  {
    var z := Zeros(n, n);
    AdjointZeros(n);
    MulZeros(z, n);
    assert Mul(z, Adjoint(z)) == z;
    IdentityAt(n, 0, 0);
    assert C.NormSq(At(Identity(n), 0, 0)) == 1.0;
    NotApproxZeros(Identity(n), 0, 0);
  }

  /** The bases constructor runs no unitarity check: with routines whose
      inverse is the zero matrix, any two bases of one size n >= 1 give the
      zero matrix, which is accepted over a space of total dimension n
      although it is not unitary. */
  lemma BasesSkipUnitarity(oldBasis: Matrix, newBasis: Matrix, n: nat)
    requires n >= 1 && oldBasis.rows == oldBasis.cols == n && newBasis.rows == newBasis.cols == n
    ensures Shaped(ZeroInverse)
    ensures FromBasesOutcome(oldBasis, newBasis, n, ZeroInverse) == Ok(Zeros(n, n))
    ensures !IsUnitary(Zeros(n, n))
  {
    ZeroInverseShaped();
    ZeroInverseOutcome(oldBasis, newBasis, n);
    ZerosNotUnitary(n);
  }

  /** Conjugating by the identity leaves a density matrix unchanged. */
  lemma IdentityConjugation(rho: Matrix)
    requires IsSquare(rho)
    ensures Conjugated(Identity(rho.rows), rho) == rho
  {
    MulIdentityLeft(rho);
    AdjointIdentity(rho.rows);
    MulIdentityRight(rho);
  }

  /** The comparison as written lets through a transformation that cannot
      act on the state: a space built by tensoring the empty placeholder
      with a two-level space has the list [2] but total dimension 0, so it
      carries the 0 x 0 identity, and it compares equal to the two-level
      space, whose states have 2 x 2 density matrices. */
  method AdmitsAsWrittenMismatch() returns (t: UnitaryTransformation, s: HilbertSpaces.HilbertSpace)
    ensures t.Valid() && s.Valid()
    ensures t.AdmitsAsWritten(s) && !t.Admits(s)
    ensures t.matrix.cols == 0 && s.dim == 2
  {
    var two := HilbertSpaces.HilbertSpace.FromDimension(2);
    assert two.Ok?;
    s := two.value;
    var placeholder := new HilbertSpaces.HilbertSpace();
    placeholder.TensorWith(s);
    IdentityUnitary(0);
    var made := UnitaryTransformation.FromMatrix(Identity(0), placeholder);
    assert made.Ok?;
    t := made.value;
  }

  lemma PairProduct(a: nat, b: nat)
    requires a > 0 && b > 0
    ensures HilbertSpaces.AllPositive([a, b]) && HilbertSpaces.Product([a, b]) == a * b
  {
    assert [a, b][..1] == [a] && [a][..0] == [];
    assert HilbertSpaces.Product([a]) == a;
  }

  /** Equal totals do not make equal spaces: a unitary transformation over
      the space [a, b] (the identity of size a * b, say) refuses every state
      over the one-factor space [a * b], although both have total dimension
      a * b. */
  method TotalIsNotEnough(u: Matrix, a: nat, b: nat) returns (t: UnitaryTransformation, s: HilbertSpaces.HilbertSpace)
    requires a > 0 && b > 0 && u.rows == a * b && u.cols == a * b && IsUnitary(u)
    ensures t.Valid() && s.Valid()
    ensures t.matrix == u && t.space.dimensions == [a, b] && s.dimensions == [a * b]
    ensures t.space.dim == s.dim == a * b && !t.Admits(s)
  {
    var one := HilbertSpaces.HilbertSpace.FromDimension(a * b);
    assert one.Ok?;
    s := one.value;
    var pair := HilbertSpaces.HilbertSpace.FromDimensions([a, b]);
    PairProduct(a, b);
    assert pair.Ok?;
    var made := UnitaryTransformation.FromMatrix(u, pair.value);
    assert made.Ok?;
    t := made.value;
    assert |t.space.dimensions| != |s.dimensions|;
  }
}
