/** A quantum state: a density matrix over a Hilbert space, admitted only
    when it is square, self-adjoint, decomposable by the eigen solver, free
    of negative eigenvalues, of trace one and of the space's total
    dimension. */
module QuantumStates {
  import opened Wrappers
  import C = ComplexNumbers
  import opened Matrices
  import opened Numerics
  import opened Approximation
  import HilbertSpaces
  import KroneckerTensor

  const NotSquare: Error := InvalidArgument(MatrixNotSquare)
  const NotSelfAdjoint: Error := InvalidArgument(MatrixNotSelfAdjoint)
  const SolverFailed: Error := RuntimeError(SolverFailure)
  const NegativeEigenvalue: Error := InvalidArgument(NegativeEigenvalues)
  const BadTrace: Error := InvalidArgument(TraceNotOne)
  const WrongSpace: Error := InvalidArgument(TotalDimensionMismatch)

  // ---------------------------------------------------------------------
  // Promotion of a state vector to a density matrix.

  /** The sum of |v(t, 0)|^2 over the first n rows of a column. */
  function NormSqPrefix(v: Matrix, n: nat): real {
    if n == 0 then 0.0 else NormSqPrefix(v, n - 1) + C.NormSq(At(v, n - 1, 0))
  }

  /** The projector onto a column vector: normalising v and multiplying it
      by its adjoint gives entry (i, j) = v_i conj(v_j) / |v|^2.  What
      normalize does to a zero vector depends on the Eigen version; the
      model follows the versions that leave it unchanged, so the zero
      vector gives the zero matrix. */
  function Promote(v: Matrix): (d: Matrix)
    ensures d.rows == v.rows && d.cols == v.rows
  {
    var n := NormSqPrefix(v, v.rows);
    if n == 0.0 then Zeros(v.rows, v.rows)
    else Build(v.rows, v.rows, (i, j) => C.DivReal(C.Mul(At(v, i, 0), C.Conj(At(v, j, 0))), n))
  }

  /** The promotion as written: the normalised vector times its transpose,
      without conjugation. */
  function PromoteAsWritten(v: Matrix): (d: Matrix)
    ensures d.rows == v.rows && d.cols == v.rows
  {
    var n := NormSqPrefix(v, v.rows);
    if n == 0.0 then Zeros(v.rows, v.rows)
    else Build(v.rows, v.rows, (i, j) => C.DivReal(C.Mul(At(v, i, 0), At(v, j, 0)), n))
  }

  // ---------------------------------------------------------------------
  // The checks, each as the error it raises.

  /** The matrix a state is built from: a single column is promoted, any
      other matrix must be square. */
  function Candidate(matr: Matrix): Result<Matrix> {
    if matr.cols == 1 then Ok(Promote(matr))
    else if matr.rows != matr.cols then Err(NotSquare)
    else Ok(matr)
  }

  /** _checkMatrixIsSelfAdjoined: the matrix is approximately its own
      adjoint. */
  predicate SelfAdjoined(m: Matrix) {
    IsApprox(m, Adjoint(m))
  }

  /** _calculateEigenValuesAndVectors: self-adjointness first, then the
      solver's success flag. */
  function Decompose(m: Matrix, num: Routines): Result<Spectrum> {
    if !SelfAdjoined(m) then Err(NotSelfAdjoint)
    else if !num.converged(m) then Err(SolverFailed)
    else Ok(num.eigen(m))
  }

  /** An eigenvalue the density check rejects: far from zero and negative. */
  predicate Negative(x: real) {
    (if x < 0.0 then -x else x) > Tolerance && x < 0.0
  }

  /** _checkMatrixIsDensityMatrix: no rejected eigenvalue, then a trace
      within the tolerance of one. */
  function DensityError(values: seq<real>, m: Matrix): Option<Error> {
    if exists i :: 0 <= i < |values| && Negative(values[i]) then Some(NegativeEigenvalue)
    else if FarFrom(Trace(m), C.One) then Some(BadTrace)
    else None
  }

  /** A square matrix every physical check accepts. */
  predicate Admissible(m: Matrix, num: Routines) {
    IsSquare(m) && Decompose(m, num).Ok? && DensityError(Decompose(m, num).value.values, m).None?
  }

  datatype Admitted = Admitted(density: Matrix, spectrum: Spectrum)

  /** The constructor's outcome: candidate, eigen decomposition, density
      check, and the space's total dimension last. */
  function Construct(matr: Matrix, total: int, num: Routines): Result<Admitted> {
    match Candidate(matr)
    case Err(e) => Err(e)
    case Ok(d) =>
      match Decompose(d, num)
      case Err(e) => Err(e)
      case Ok(s) =>
        if DensityError(s.values, d).Some? then Err(DensityError(s.values, d).value)
        else if total != d.rows then Err(WrongSpace)
        else Ok(Admitted(d, s))
  }

  /** The constructor of the older quantumstate.cpp: the same steps in the
      same order, except that self-adjointness is decided by exact equality
      with the adjoint. */
  function ConstructExact(matr: Matrix, total: int, num: Routines): Result<Admitted> {
    match Candidate(matr)
    case Err(e) => Err(e)
    case Ok(d) => if d != Adjoint(d) then Err(NotSelfAdjoint) else Construct(matr, total, num)
  }

  /** setMatrix's outcome: square, then the space, then decomposition and
      density. */
  function ReplaceError(m: Matrix, total: int, num: Routines): Option<Error> {
    if m.rows != m.cols then Some(NotSquare)
    else if total != m.rows then Some(WrongSpace)
    else if Decompose(m, num).Err? then Some(Decompose(m, num).error)
    else DensityError(Decompose(m, num).value.values, m)
  }

  /** setMatrix reaches the solver, and so overwrites the stored
      decomposition, exactly when the first three checks pass. */
  predicate ReachesSolver(m: Matrix, total: int, num: Routines) {
    m.rows == m.cols && total == m.rows && Decompose(m, num).Ok?
  }

  /** A matrix setMatrix accepts is admissible and of the space's size. */
  lemma ReplaceAccepted(m: Matrix, total: int, num: Routines)
    requires ReplaceError(m, total, num).None?
    ensures Admissible(m, num) && m.rows == total
  {
  }

  /** The loop of _checkMatrixIsDensityMatrix over the eigenvalues, then the
      trace test. */
  method CheckDensityMatrix(values: seq<real>, m: Matrix) returns (err: Option<Error>)
    ensures err == DensityError(values, m)
  {
    for i := 0 to |values|
      invariant forall k :: 0 <= k < i ==> !Negative(values[k])
    {
      if (if values[i] < 0.0 then -values[i] else values[i]) > Tolerance {
        if values[i] < 0.0 {
          return Some(NegativeEigenvalue);
        }
      }
    }
    if FarFrom(Trace(m), C.One) {
      return Some(BadTrace);
    }
    return None;
  }

  // ---------------------------------------------------------------------
  // The state as an object.

  class QuantumState {
    var density: Matrix
    var space: HilbertSpaces.HilbertSpace
    var eigenValues: seq<real>
    var eigenVectors: Matrix
    const numerics: Routines

    /** The density matrix passed every check for the state's space. */
    ghost predicate Valid()
      reads this, space
    {
      space.Valid() && IsSquare(density) && density.rows == space.dim && Admissible(density, numerics)
    }

    /** The stored eigen decomposition is the solver's for the current
        density matrix; a setMatrix that fails its density check leaves
        this false. */
    ghost predicate Current()
      reads this
    {
      Decompose(density, numerics) == Ok(Spectrum(eigenValues, eigenVectors))
    }

    constructor Of(density: Matrix, space: HilbertSpaces.HilbertSpace, eigenValues: seq<real>, eigenVectors: Matrix, numerics: Routines)
      ensures this.density == density && this.space == space && this.numerics == numerics
      ensures this.eigenValues == eigenValues && this.eigenVectors == eigenVectors
    {
      this.density := density;
      this.space := space;
      this.eigenValues := eigenValues;
      this.eigenVectors := eigenVectors;
      this.numerics := numerics;
    }

    /** QuantumState(matr, space): promotes a column or demands a square
        matrix, decomposes it, checks it is a density matrix and only then
        compares it with the space; the state keeps its own copy of the
        space. */
    static method Create(matr: Matrix, space: HilbertSpaces.HilbertSpace, numerics: Routines) returns (r: Result<QuantumState>)
      requires space.Valid()
      ensures r.Err? <==> Construct(matr, space.dim, numerics).Err?
      ensures r.Err? ==> r.error == Construct(matr, space.dim, numerics).error
      ensures r.Ok? ==> fresh(r.value) && fresh(r.value.space)
      ensures r.Ok? ==> r.value.Valid() && r.value.Current() && r.value.numerics == numerics
      ensures r.Ok? ==> r.value.density == Construct(matr, space.dim, numerics).value.density
      ensures r.Ok? ==> r.value.space.dimensions == space.dimensions && r.value.space.rank == space.rank && r.value.space.dim == space.dim
    {
      var d: Matrix;
      if matr.cols == 1 {
        d := Promote(matr);
      } else {
        if matr.rows != matr.cols {
          return Err(NotSquare);
        }
        d := matr;
      }
      var spectrum := Decompose(d, numerics);
      if spectrum.Err? {
        return Err(spectrum.error);
      }
      var err := CheckDensityMatrix(spectrum.value.values, d);
      if err.Some? {
        return Err(err.value);
      }
      if space.dim != d.rows {
        return Err(WrongSpace);
      }
      var copy := space.Clone();
      var state := new QuantumState.Of(d, copy, spectrum.value.values, spectrum.value.vectors, numerics);
      return Ok(state);
    }

    /** The constructor of the older quantumstate.cpp: the same steps, with
        self-adjointness decided by exact equality with the adjoint. */
    static method CreateExact(matr: Matrix, space: HilbertSpaces.HilbertSpace, numerics: Routines) returns (r: Result<QuantumState>)
      requires space.Valid()
      ensures r.Err? <==> ConstructExact(matr, space.dim, numerics).Err?
      ensures r.Err? ==> r.error == ConstructExact(matr, space.dim, numerics).error
      ensures r.Ok? ==> fresh(r.value) && fresh(r.value.space)
      ensures r.Ok? ==> r.value.Valid() && r.value.Current() && r.value.numerics == numerics
      ensures r.Ok? ==> r.value.density == ConstructExact(matr, space.dim, numerics).value.density
      ensures r.Ok? ==> r.value.space.dimensions == space.dimensions && r.value.space.rank == space.rank && r.value.space.dim == space.dim
    {
      var d: Matrix;
      if matr.cols == 1 {
        d := Promote(matr);
      } else {
        if matr.rows != matr.cols {
          return Err(NotSquare);
        }
        d := matr;
      }
      if d != Adjoint(d) {
        return Err(NotSelfAdjoint);
      }
      // From here on the older constructor runs the same steps as the
      // current one, whose isApprox test an exactly self-adjoint matrix passes.
      ApproxOfEqual(d, Adjoint(d));
      r := Create(matr, space, numerics);
    }

    /** setMatrix: replaces the density matrix when every check passes.  The
        space never changes.  When the matrix reaches the solver but fails
        the density check, the stored eigen decomposition is already the
        new matrix's while the density matrix is still the old one. */
    method SetMatrix(matr: Matrix) returns (err: Option<Error>)
      requires Valid()
      modifies this
      ensures Valid()
      ensures space == old(space)
      ensures err == ReplaceError(matr, space.dim, numerics)
      ensures err.None? ==> density == matr && Current()
      ensures err.Some? ==> density == old(density)
      ensures ReachesSolver(matr, space.dim, numerics) ==> Spectrum(eigenValues, eigenVectors) == Decompose(matr, numerics).value
      ensures !ReachesSolver(matr, space.dim, numerics) ==> eigenValues == old(eigenValues) && eigenVectors == old(eigenVectors)
    {
      if matr.rows != matr.cols {
        return Some(NotSquare);
      }
      if space.dim != matr.rows {
        return Some(WrongSpace);
      }
      var spectrum := Decompose(matr, numerics);
      if spectrum.Err? {
        return Some(spectrum.error);
      }
      err := Adopt(matr, spectrum.value);
    }

    /** The tail of setMatrix once the solver has succeeded: the
        decomposition is stored first, then the density check decides
        whether the matrix replaces the density matrix. */
    method Adopt(matr: Matrix, spectrum: Spectrum) returns (err: Option<Error>)
      requires Valid() && matr.rows == matr.cols && space.dim == matr.rows
      requires Decompose(matr, numerics) == Ok(spectrum)
      modifies this
      ensures Valid() && space == old(space)
      ensures err == DensityError(spectrum.values, matr)
      ensures err.None? ==> density == matr && Current()
      ensures err.Some? ==> density == old(density)
      ensures eigenValues == spectrum.values && eigenVectors == spectrum.vectors
    {
      eigenValues := spectrum.values;
      eigenVectors := spectrum.vectors;
      err := CheckDensityMatrix(spectrum.values, matr);
      if err.Some? {
        return err;
      }
      ReplaceAccepted(matr, space.dim, numerics);
      density := matr;
    }

    /** isPure: the trace of the squared density matrix within the
        tolerance of one. */
    predicate IsPure()
      reads this
      requires IsSquare(density)
    {
      PureDensity(density)
    }

    /** densityMatrix(): a square self-adjoint matrix of the space's total
        dimension whose trace is within the tolerance of one. */
    function DensityMatrix(): (d: Matrix)
      reads this, space
      requires Valid()
      ensures IsSquare(d) && d.rows == space.dim
      ensures SelfAdjoined(d) && !FarFrom(Trace(d), C.One)
    {
      density
    }

    /** eigenValues(): whatever the last decomposition stored.  While it is
        the solver's for the density matrix, these are the density matrix's
        eigenvalues and none of them is negative beyond the tolerance. */
    function EigenValues(): (values: seq<real>)
      reads this, space
      requires Valid()
      ensures Current() ==> Decompose(density, numerics) == Ok(Spectrum(values, eigenVectors))
      ensures Current() ==> forall i :: 0 <= i < |values| ==> values[i] >= -Tolerance
    {
      NegativeMeans();
      eigenValues
    }

    function EigenVectors(): Matrix
      reads this
    {
      eigenVectors
    }

    /** space(): a copy of the state's space. */
    method Space() returns (s: HilbertSpaces.HilbertSpace)
      ensures fresh(s)
      ensures s.dimensions == space.dimensions && s.rank == space.rank && s.dim == space.dim
    {
      s := space.Clone();
    }

    /** QuantumState::tensor: the state built from the Kronecker product of
        the two density matrices over the tensor product of the two
        spaces. */
    static method Tensor(first: QuantumState, second: QuantumState) returns (r: Result<QuantumState>)
      requires first.Valid() && second.Valid()
      ensures r.Err? <==> Construct(KroneckerTensor.Kron(first.density, second.density), first.space.dim * second.space.dim, first.numerics).Err?
      ensures r.Err? ==> r.error == Construct(KroneckerTensor.Kron(first.density, second.density), first.space.dim * second.space.dim, first.numerics).error
      ensures r.Ok? ==> r.value.density == Construct(KroneckerTensor.Kron(first.density, second.density), first.space.dim * second.space.dim, first.numerics).value.density
      ensures r.Ok? && first.space.dim * second.space.dim != 1 ==> r.value.density == KroneckerTensor.Kron(first.density, second.density)
      ensures r.Ok? ==> fresh(r.value) && r.value.Valid() && r.value.Current() && r.value.numerics == first.numerics
      ensures r.Ok? ==> r.value.space.dimensions == first.space.dimensions + second.space.dimensions
      ensures r.Ok? ==> r.value.space.dim == first.space.dim * second.space.dim
    {
      var product := KroneckerTensor.Product(first.density, second.density);
      var space := HilbertSpaces.HilbertSpace.Tensor(first.space, second.space);
      r := Create(product, space, first.numerics);
      if r.Ok? && space.dim != 1 {
        ConstructKeepsSquare(product, space.dim, first.numerics);
      }
    }
  }

  /** A square matrix that is not a single entry is taken as it is, so
      the admitted density is the matrix itself. */
  lemma ConstructKeepsSquare(matr: Matrix, total: int, num: Routines)
    requires IsSquare(matr) && matr.cols != 1 && Construct(matr, total, num).Ok?
    ensures Construct(matr, total, num).value.density == matr
  {
    assert Candidate(matr) == Ok(matr);
  }

  /** The purity test on a square matrix: |tr(m * m) - 1| < 1e-15. */
  predicate PureDensity(m: Matrix)
    requires IsSquare(m)
  {
    Near(Trace(Mul(m, m)), C.One)
  }

  // ---------------------------------------------------------------------
  // Properties.

  /** The eigenvalue test rejects exactly the values below -1e-15. */
  lemma NegativeMeans()
    ensures forall x :: Negative(x) <==> x < -Tolerance
  {
  }

  /** The density check passes exactly when no eigenvalue is below -1e-15
      and the trace is within 1e-15 of one. */
  lemma DensityErrorNone(values: seq<real>, m: Matrix)
    ensures DensityError(values, m).None? <==>
      (forall i :: 0 <= i < |values| ==> values[i] >= -Tolerance) && !FarFrom(Trace(m), C.One)
    ensures DensityError(values, m).Some? ==> DensityError(values, m).value in {NegativeEigenvalue, BadTrace}
  {
    NegativeMeans();
  }

  /** The constructor succeeds exactly when the candidate exists, passes
      every physical check and has the space's total dimension. */
  lemma ConstructSucceeds(matr: Matrix, total: int, num: Routines)
    ensures Construct(matr, total, num).Ok? <==>
      Candidate(matr).Ok? && Admissible(Candidate(matr).value, num) && Candidate(matr).value.rows == total
    ensures Construct(matr, total, num).Ok? ==>
      var d := Construct(matr, total, num).value.density;
      IsSquare(d) && SelfAdjoined(d) && d.rows == total && !FarFrom(Trace(d), C.One) &&
      (forall i :: 0 <= i < |Construct(matr, total, num).value.spectrum.values| ==>
        Construct(matr, total, num).value.spectrum.values[i] >= -Tolerance)
  {
    NegativeMeans();
  }

  /** The older constructor's exact comparison is stricter than isApprox:
      whatever it accepts the current constructor accepts with the same
      result, and the two differ only on a matrix that is approximately but
      not exactly self-adjoint. */
  lemma ExactConstructAgrees(matr: Matrix, total: int, num: Routines)
    ensures ConstructExact(matr, total, num).Ok? ==> Construct(matr, total, num) == ConstructExact(matr, total, num)
    ensures ConstructExact(matr, total, num) != Construct(matr, total, num) ==>
      ConstructExact(matr, total, num) == Err(NotSelfAdjoint) && Candidate(matr).Ok? &&
      SelfAdjoined(Candidate(matr).value) && Candidate(matr).value != Adjoint(Candidate(matr).value)
  {
    if Candidate(matr).Ok? {
      var d := Candidate(matr).value;
      if d == Adjoint(d) {
        ApproxOfEqual(d, Adjoint(d));
      }
    }
  }

  /** A matrix with more than one column that is not square is refused as
      not square, whatever else is wrong with it. */
  lemma ConstructChecksShapeFirst(matr: Matrix, total: int, num: Routines)
    requires matr.cols != 1 && matr.rows != matr.cols
    ensures Construct(matr, total, num) == Err(NotSquare)
  {
  }

  /** The constructor decomposes before it compares with the space, while
      setMatrix compares with the space first: a square non-self-adjoint
      matrix of the wrong size fails the two differently. */
  lemma CheckOrdersDiffer(m: Matrix, total: int, num: Routines)
    requires m.cols != 1 && IsSquare(m) && !SelfAdjoined(m) && total != m.rows
    ensures Construct(m, total, num) == Err(NotSelfAdjoint)
    ensures ReplaceError(m, total, num) == Some(WrongSpace)
  {
  }

  /** The promoted column is self-adjoint. */
  lemma PromoteHermitian(v: Matrix)
    ensures IsHermitian(Promote(v))
  {
    var p := Promote(v);
    var n := NormSqPrefix(v, v.rows);
    if n != 0.0 {
      forall i, j | 0 <= i < p.rows && 0 <= j < p.cols
        ensures At(p, i, j) == At(Adjoint(p), i, j)
      {
        var a, b := At(v, i, 0), At(v, j, 0);
        assert At(p, j, i) == C.DivReal(C.Mul(b, C.Conj(a)), n);
        assert At(Adjoint(p), i, j) == C.Conj(At(p, j, i));
      }
      Ext(p, Adjoint(p));
    } else {
      Ext(p, Adjoint(p));
    }
  }

  lemma {:induction false} PromoteDiagSum(v: Matrix, k: nat)
    requires k <= v.rows && NormSqPrefix(v, v.rows) != 0.0
    ensures DiagSum(Promote(v), k) == C.Of(NormSqPrefix(v, k) / NormSqPrefix(v, v.rows))
  {
    if k > 0 {
      PromoteDiagSum(v, k - 1);
      var n := NormSqPrefix(v, v.rows);
      var a := At(v, k - 1, 0);
      C.MulConjSelf(a);
      assert At(Promote(v), k - 1, k - 1) == C.DivReal(C.Of(C.NormSq(a)), n);
      DivAdd(NormSqPrefix(v, k - 1), C.NormSq(a), n);
    }
  }

  lemma DivAdd(x: real, y: real, n: real)
    requires n != 0.0
    ensures x / n + y / n == (x + y) / n
  {
  }

  /** A non-zero column is promoted to a matrix of trace one. */
  lemma PromoteTrace(v: Matrix)
    requires NormSqPrefix(v, v.rows) != 0.0
    ensures Trace(Promote(v)) == C.One
  {
    var n := NormSqPrefix(v, v.rows);
    PromoteDiagSum(v, v.rows);
    assert n / n == 1.0;
    assert Trace(Promote(v)) == DiagSum(Promote(v), v.rows);
  }

  /** The column (1, i) as written is promoted to a matrix that is not
      self-adjoint, so the constructor refuses this valid state vector;
      promoted with the adjoint it is self-adjoint of trace one. */
  lemma PromoteAsWrittenRejectsComplexVector(num: Routines)
    ensures
      var v := Dense(2, 1, [[C.One], [C.Complex(0.0, 1.0)]]);
      Rectangular(v) &&
      Decompose(PromoteAsWritten(v), num) == Err(NotSelfAdjoint) &&
      IsHermitian(Promote(v)) && Trace(Promote(v)) == C.One
  {
    var v: Matrix := Dense(2, 1, [[C.One], [C.Complex(0.0, 1.0)]]);
    assert At(v, 0, 0) == C.One && At(v, 1, 0) == C.Complex(0.0, 1.0);
    UnitImaginaryAsWritten(v);
    PromoteHermitian(v);
    assert NormSqPrefix(v, 1) == 1.0;
    PromoteTrace(v);
  }

  /** The column (1, i), promoted as written, is (1/2)[[1, i], [i, -1]]:
      its squared norm is 1 and it differs from its adjoint by i at (0, 1),
      so it is not self-adjoint. */
  lemma UnitImaginaryAsWritten(v: Matrix)
    requires v.rows == 2 && v.cols == 1
    requires At(v, 0, 0) == C.One && At(v, 1, 0) == C.Complex(0.0, 1.0)
    ensures !SelfAdjoined(PromoteAsWritten(v))
  {
    WrittenEntries(v);
    HalfImaginaryNotSelfAdjoined(PromoteAsWritten(v));
  }

  /** (1/2)[[1, i], [i, -1]] is not self-adjoint. */
  lemma HalfImaginaryNotSelfAdjoined(w: Matrix)
    requires w.rows == 2 && w.cols == 2
    requires At(w, 0, 0) == C.Complex(0.5, 0.0) && At(w, 0, 1) == C.Complex(0.0, 0.5)
    requires At(w, 1, 0) == C.Complex(0.0, 0.5) && At(w, 1, 1) == C.Complex(-0.5, 0.0)
    ensures !SelfAdjoined(w)
  {
    forall i, j | 0 <= i < 2 && 0 <= j < 2
      ensures C.NormSq(At(w, i, j)) <= 0.25
    {
    }
    QuarterEntriesNorm(w);
    ImaginaryPairDifference(w);
    UnitGapNotSelfAdjoined(w);
  }

  /** The entries of the column (1, i) promoted as written. */
  lemma WrittenEntries(v: Matrix)
    requires v.rows == 2 && v.cols == 1
    requires At(v, 0, 0) == C.One && At(v, 1, 0) == C.Complex(0.0, 1.0)
    ensures At(PromoteAsWritten(v), 0, 0) == C.Complex(0.5, 0.0)
    ensures At(PromoteAsWritten(v), 0, 1) == C.Complex(0.0, 0.5)
    ensures At(PromoteAsWritten(v), 1, 0) == C.Complex(0.0, 0.5)
    ensures At(PromoteAsWritten(v), 1, 1) == C.Complex(-0.5, 0.0)
  {
    assert NormSqPrefix(v, 1) == 1.0;
    assert NormSqPrefix(v, 2) == 2.0;
  }

  /** A matrix of squared norm at most 1 with an entry of modulus 1 in its
      difference from its adjoint is not self-adjoint. */
  lemma UnitGapNotSelfAdjoined(w: Matrix)
    requires w.rows == w.cols && w.rows > 1
    requires SquaredNorm(w) <= 1.0
    requires C.NormSq(At(Difference(w, Adjoint(w)), 0, 1)) == 1.0
    ensures !SelfAdjoined(w)
  {
    PrecisionSquared();
    NotApproxAt(w, Adjoint(w), 0, 1, 1.0);
  }

  /** A 2 x 2 matrix whose entries have modulus 1/2 has squared norm 1. */
  lemma QuarterEntriesNorm(w: Matrix)
    requires w.rows == 2 && w.cols == 2
    requires forall i, j :: 0 <= i < 2 && 0 <= j < 2 ==> C.NormSq(At(w, i, j)) <= 0.25
    ensures SquaredNorm(w) <= 1.0
  {
    SquaredNormAbove(w, 0.25);
    assert Times(2, Times(2, 0.25)) == 1.0;
  }

  /** Entries i/2 at (0, 1) and (1, 0) differ from the adjoint by i at
      (0, 1). */
  lemma ImaginaryPairDifference(w: Matrix)
    requires w.rows == 2 && w.cols == 2
    requires At(w, 0, 1) == C.Complex(0.0, 0.5) && At(w, 1, 0) == C.Complex(0.0, 0.5)
    ensures C.NormSq(At(Difference(w, Adjoint(w)), 0, 1)) == 1.0
  {
    var e := At(Difference(w, Adjoint(w)), 0, 1);
    assert At(Adjoint(w), 0, 1) == C.Complex(0.0, -0.5);
    assert e == C.Complex(0.0, 1.0);
  }

  /** A 2 x 2 real matrix. */
  function Real2(a: real, b: real, c: real, d: real): (m: Matrix)
    ensures m.rows == 2 && m.cols == 2
  {
    Dense(2, 2, [[C.Of(a), C.Of(b)], [C.Of(c), C.Of(d)]])
  }

  /** tr(m * m) of a real 2 x 2 matrix. */
  lemma Real2SquareTrace(m: Matrix, a: real, b: real, c: real, d: real, t: real)
    requires m == Real2(a, b, c, d) && t == a * a + 2.0 * b * c + d * d
    ensures Trace(Mul(m, m)) == C.Of(t)
  {
    var s := Mul(m, m);
    assert At(m, 0, 0) == C.Of(a) && At(m, 0, 1) == C.Of(b);
    assert At(m, 1, 0) == C.Of(c) && At(m, 1, 1) == C.Of(d);
    assert Dot(m, m, 0, 0, 1) == C.Add(Dot(m, m, 0, 0, 0), C.Mul(C.Of(a), C.Of(a)));
    assert Dot(m, m, 0, 0, 2) == C.Add(Dot(m, m, 0, 0, 1), C.Mul(C.Of(b), C.Of(c)));
    assert Dot(m, m, 1, 1, 1) == C.Add(Dot(m, m, 1, 1, 0), C.Mul(C.Of(c), C.Of(b)));
    assert Dot(m, m, 1, 1, 2) == C.Add(Dot(m, m, 1, 1, 1), C.Mul(C.Of(d), C.Of(d)));
    assert At(s, 0, 0) == C.Of(a * a + b * c);
    assert At(s, 1, 1) == C.Of(c * b + d * d);
    assert DiagSum(s, 1) == C.Add(DiagSum(s, 0), At(s, 0, 0));
    assert DiagSum(s, 2) == C.Add(DiagSum(s, 1), At(s, 1, 1));
  }

  /** The pure state of the unit test: every entry 1/2. */
  lemma PureExample(pure: Matrix)
    requires pure == Real2(0.5, 0.5, 0.5, 0.5)
    ensures PureDensity(pure)
  {
    Real2SquareTrace(pure, 0.5, 0.5, 0.5, 0.5, 1.0);
    NearOf(1.0);
  }

  /** The mixed state of the unit test: 1/2 on the diagonal, -1/4 off it. */
  lemma MixedExample(mixed: Matrix)
    requires mixed == Real2(0.5, -0.25, -0.25, 0.5)
    ensures !PureDensity(mixed)
  {
    var b := -0.25;
    assert 2.0 * b * b == 0.125;
    Real2SquareTrace(mixed, 0.5, b, b, 0.5, 0.625);
    NearOf(0.625);
  }

  lemma NearOf(x: real)
    ensures x == 1.0 ==> Near(C.Of(x), C.One)
    ensures x == 0.625 ==> !Near(C.Of(x), C.One)
  {
  }

  /** The unit test's 2 x 3 matrix filled with 0.9 is refused as not
      square, whatever the space and the solver. */
  lemma NonSquareExample(total: int, num: Routines)
    ensures Construct(Build(2, 3, (i, j) => C.Of(0.9)), total, num) == Err(NotSquare)
  {
  }

  /** The unit test's 3 x 3 matrix filled with 0.15 + i is refused as not
      self-adjoint: its difference from its adjoint has squared norm far
      above 1e-24 times its own. */
  lemma NotSelfAdjointExample(total: int, num: Routines)
    ensures Construct(Build(3, 3, (i, j) => C.Complex(0.15, 1.0)), total, num) == Err(NotSelfAdjoint)
  {
    var z := C.Complex(0.15, 1.0);
    var m := Build(3, 3, (i, j) => z);
    SquaredNormAbove(m, 1.0225);
    assert Times(3, Times(3, 1.0225)) == 9.2025;
    assert At(Difference(m, Adjoint(m)), 0, 0) == C.Complex(0.0, 2.0);
    NotApproxAt(m, Adjoint(m), 0, 0, 9.2025);
  }

  /** The Kronecker product of two exactly self-adjoint matrices is
      exactly self-adjoint, so the matrix tensor builds from them passes the
      self-adjointness check (states whose density matrices are only
      approximately self-adjoint carry no such guarantee). */
  lemma TensorIsHermitian(a: Matrix, b: Matrix)
    requires IsHermitian(a) && IsHermitian(b)
    ensures IsHermitian(KroneckerTensor.Kron(a, b))
    ensures SelfAdjoined(KroneckerTensor.Kron(a, b))
  {
    KroneckerTensor.KronAdjoint(a, b);
    var k := KroneckerTensor.Kron(a, b);
    ApproxOfEqual(k, Adjoint(k));
  }

  /** A valid state's density matrix is never empty: the empty matrix has
      trace 0, which is far from 1. */
  lemma ValidStateNotEmpty(d: Matrix, num: Routines)
    requires IsSquare(d) && Admissible(d, num)
    ensures d.rows > 0
  {
    if d.rows == 0 {
      assert Trace(d) == C.Zero;
      assert FarFrom(Trace(d), C.One);
      DensityErrorNone(Decompose(d, num).value.values, d);
    }
  }
}
