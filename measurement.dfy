/** General measurements of a quantum state: a list of operators with an
    outcome label each.  Every change to the list re-runs a chain of checks
    (same size, sum equal to the identity, Hermitian, positive) whose first
    failure makes the measurement invalid and records its message.  A valid
    measurement gives the probability of each outcome on a state, and
    performing it picks an outcome from a number r in [0, 1] and replaces
    the state by the post-measurement state. */
module Measurements {
  import opened Wrappers
  import C = ComplexNumbers
  import opened Matrices
  import opened Numerics
  import opened Approximation
  import HilbertSpaces
  import KroneckerTensor
  import QuantumStates
  import Text = Labels

  // ---------------------------------------------------------------------
  // The checks, each as the reason it records.

  /** Operator i is square with as many columns as the first operator. */
  predicate Fits(ops: seq<Matrix>, i: int)
    requires 0 <= i < |ops|
  {
    ops[i].cols == ops[i].rows && ops[i].cols == ops[0].cols
  }

  /** Every operator is square of the first operator's size. */
  predicate SameSize(ops: seq<Matrix>) {
    forall i :: 0 <= i < |ops| ==> ops[i].rows == ops[0].cols && ops[i].cols == ops[0].cols
  }

  /** _checkOperatorsHaveTheSameSize from operator i on: squareness before
      size, operator by operator. */
  function SizeErrorFrom(ops: seq<Matrix>, i: nat): Option<Reason>
    requires |ops| > 0
    decreases |ops| - i
  {
    if i >= |ops| then None
    else if ops[i].cols != ops[i].rows then Some(OperatorNotSquare)
    else if ops[i].cols != ops[0].cols then Some(OperatorSizesDiffer)
    else SizeErrorFrom(ops, i + 1)
  }

  /** _checkOperatorsHaveTheSameSize: an empty list passes. */
  function SizeError(ops: seq<Matrix>): Option<Reason> {
    if |ops| == 0 then None else SizeErrorFrom(ops, 0)
  }

  /** The sum of the operators, accumulated from the zero matrix of the
      first operator's size, is approximately the identity. */
  predicate SumsToIdentity(ops: seq<Matrix>)
    requires |ops| > 0 && SameSize(ops)
  {
    IsApprox(Sum(ops, ops[0].cols), Identity(ops[0].cols))
  }

  /** _checkOperatorsSumEqualToIdentity. */
  function SumError(ops: seq<Matrix>): Option<Reason>
    requires |ops| > 0 && SameSize(ops)
  {
    if SumsToIdentity(ops) then None else Some(SumNotIdentity)
  }

  /** Every operator equals its adjoint exactly. */
  predicate AllHermitian(ops: seq<Matrix>) {
    forall i :: 0 <= i < |ops| ==> IsHermitian(ops[i])
  }

  /** _checkOperatorsAreHermit. */
  function HermitError(ops: seq<Matrix>): Option<Reason> {
    if AllHermitian(ops) then None else Some(OperatorNotHermitian)
  }

  /** No eigenvalue the solver reports for m is below -1e-15. */
  predicate NonNegativeSpectrum(m: Matrix, num: Routines) {
    forall j :: 0 <= j < |num.eigen(m).values| ==> num.eigen(m).values[j] >= -Tolerance
  }

  /** No operator has an eigenvalue below -1e-15. */
  predicate AllNonNegative(ops: seq<Matrix>, num: Routines) {
    forall i :: 0 <= i < |ops| ==> NonNegativeSpectrum(ops[i], num)
  }

  /** _checkOperatorsArePositive. */
  function PositivityError(ops: seq<Matrix>, num: Routines): Option<Reason> {
    if AllNonNegative(ops, num) then None else Some(OperatorNotPositive)
  }

  /** The three checks after the size check, in order. */
  function LaterError(ops: seq<Matrix>, num: Routines): Option<Reason>
    requires |ops| > 0 && SameSize(ops)
  {
    if SumError(ops).Some? then SumError(ops)
    else if HermitError(ops).Some? then HermitError(ops)
    else PositivityError(ops, num)
  }

  /** _checkOperatorsAreValid: the first failing check's reason, or None
      when all pass.  An empty list is refused with the message the default
      constructor records (see ChainAsWritten for the code as written). */
  function CheckOutcome(ops: seq<Matrix>, num: Routines): Option<Reason> {
    if |ops| == 0 then Some(EmptyOperatorSet)
    else if SizeError(ops).Some? then SizeError(ops)
    else SizeErrorNone(ops); LaterError(ops, num)
  }

  /** What the chain as written does: the same-size check passes an empty
      list, and the sum check then reads the first operator of it. */
  datatype Verdict = Passes | Fails(reason: Reason) | ReadsPastEnd

  function ChainAsWritten(ops: seq<Matrix>, num: Routines): Verdict {
    if SizeError(ops).Some? then Fails(SizeError(ops).value)
    else if |ops| == 0 then ReadsPastEnd
    else SizeErrorNone(ops); if LaterError(ops, num).Some? then Fails(LaterError(ops, num).value) else Passes
  }

  // ---------------------------------------------------------------------
  // Properties of the checks.

  lemma {:induction false} SizeErrorFromNone(ops: seq<Matrix>, i: nat)
    requires |ops| > 0
    ensures SizeErrorFrom(ops, i).None? <==> forall k :: i <= k < |ops| ==> Fits(ops, k)
    decreases |ops| - i
  {
    if i < |ops| {
      SizeErrorFromNone(ops, i + 1);
      if SizeErrorFrom(ops, i).None? {
        assert Fits(ops, i);
        assert SizeErrorFrom(ops, i + 1).None?;
        forall k | i <= k < |ops|
          ensures Fits(ops, k)
        {
          if k > i {
            assert i + 1 <= k;
          }
        }
      }
      if forall k :: i <= k < |ops| ==> Fits(ops, k) {
        assert Fits(ops, i);
      }
    }
  }

  /** The size check passes exactly when every operator is square of the
      first operator's size. */
  lemma SizeErrorNone(ops: seq<Matrix>)
    ensures SizeError(ops).None? <==> SameSize(ops)
  {
    if |ops| > 0 {
      SizeErrorFromNone(ops, 0);
      if SameSize(ops) {
        assert forall k :: 0 <= k < |ops| ==> Fits(ops, k);
      }
      if SizeError(ops).None? {
        forall i | 0 <= i < |ops|
          ensures ops[i].rows == ops[0].cols && ops[i].cols == ops[0].cols
        {
          assert Fits(ops, i);
        }
      }
    }
  }

  lemma {:induction false} SizeErrorFromFirst(ops: seq<Matrix>, i: nat, k: nat)
    requires i <= k < |ops|
    requires forall j :: i <= j < k ==> Fits(ops, j)
    requires !Fits(ops, k)
    ensures SizeErrorFrom(ops, i) == Some(if ops[k].cols != ops[k].rows then OperatorNotSquare else OperatorSizesDiffer)
    decreases k - i
  {
    if i < k {
      assert Fits(ops, i);
      SizeErrorFromFirst(ops, i + 1, k);
    }
  }

  /** The size check reports the first operator that does not fit, and for
      that operator squareness is tested before size. */
  lemma SizeErrorFirst(ops: seq<Matrix>, k: nat)
    requires k < |ops|
    requires forall j :: 0 <= j < k ==> Fits(ops, j)
    requires !Fits(ops, k)
    ensures SizeError(ops) == Some(if ops[k].cols != ops[k].rows then OperatorNotSquare else OperatorSizesDiffer)
  {
    SizeErrorFromFirst(ops, 0, k);
  }

  /** A measurement is valid exactly when its list is non-empty, its
      operators are square of one size, their sum is approximately the
      identity, each equals its adjoint and none has an eigenvalue below
      -1e-15. */
  lemma CheckOutcomeNone(ops: seq<Matrix>, num: Routines)
    ensures CheckOutcome(ops, num).None? <==>
      |ops| > 0 && SameSize(ops) && SumsToIdentity(ops) && AllHermitian(ops) && AllNonNegative(ops, num)
  {
    SizeErrorNone(ops);
  }

  /** The checks run in order and the first failure wins: a size failure
      hides every later one, a sum failure hides the Hermitian and positivity
      checks, a Hermitian failure hides the positivity check. */
  lemma CheckOrder(ops: seq<Matrix>, num: Routines)
    requires |ops| > 0
    ensures !SameSize(ops) ==>
      CheckOutcome(ops, num) == SizeError(ops) && SizeError(ops).Some? && SizeError(ops).value in {OperatorNotSquare, OperatorSizesDiffer}
    ensures SameSize(ops) && !SumsToIdentity(ops) ==> CheckOutcome(ops, num) == Some(SumNotIdentity)
    ensures SameSize(ops) && SumsToIdentity(ops) && !AllHermitian(ops) ==>
      CheckOutcome(ops, num) == Some(OperatorNotHermitian)
  {
    SizeErrorNone(ops);
    if !SameSize(ops) {
      var k :| 0 <= k < |ops| && !(ops[k].rows == ops[0].cols && ops[k].cols == ops[0].cols);
      FirstMisfit(ops, k);
    }
  }

  /** Some operator does not fit, and so the first one that does not is
      reported. */
  lemma FirstMisfit(ops: seq<Matrix>, k: nat)
    requires k < |ops| && !(ops[k].rows == ops[0].cols && ops[k].cols == ops[0].cols)
    ensures SizeError(ops).Some? && SizeError(ops).value in {OperatorNotSquare, OperatorSizesDiffer}
    decreases k
  {
    if exists j :: 0 <= j < k && !Fits(ops, j) {
      var j :| 0 <= j < k && !Fits(ops, j);
      assert !(ops[j].rows == ops[0].cols && ops[j].cols == ops[0].cols);
      FirstMisfit(ops, j);
    } else {
      assert !Fits(ops, k);
      SizeErrorFirst(ops, k);
    }
  }

  /** The chain as written agrees with the corrected chain on every
      non-empty list, and on the empty list it reads past the end where
      the corrected chain refuses the set. */
  lemma ChainAsWrittenAgrees(ops: seq<Matrix>, num: Routines)
    ensures |ops| > 0 ==> (ChainAsWritten(ops, num) == Passes <==> CheckOutcome(ops, num).None?)
    ensures |ops| > 0 ==> forall r :: ChainAsWritten(ops, num) == Fails(r) <==> CheckOutcome(ops, num) == Some(r)
    ensures |ops| == 0 ==> ChainAsWritten(ops, num) == ReadsPastEnd && CheckOutcome(ops, num) == Some(EmptyOperatorSet)
  {
  }

  /** Built from two empty lists, the measurement as written passes the size
      check and then reads the first operator of the empty list. */
  lemma EmptyListsReadPastEnd(num: Routines)
    ensures SizeError([]).None? && ChainAsWritten([], num) == ReadsPastEnd
    ensures CheckOutcome([], num) == Some(EmptyOperatorSet)
  {
  }

  // ---------------------------------------------------------------------
  // The check loops.

  /** The loop of _checkOperatorsHaveTheSameSize. */
  method CheckSameSize(ops: seq<Matrix>) returns (e: Option<Reason>)
    ensures e == SizeError(ops)
  {
    if |ops| == 0 {
      return None;
    }
    var size := ops[0].cols;
    for i := 0 to |ops|
      invariant SizeErrorFrom(ops, i) == SizeErrorFrom(ops, 0)
    {
      if ops[i].cols != ops[i].rows {
        return Some(OperatorNotSquare);
      }
      if ops[i].cols != size {
        return Some(OperatorSizesDiffer);
      }
    }
    return None;
  }

  /** The loop of _checkOperatorsSumEqualToIdentity. */
  method CheckSum(ops: seq<Matrix>) returns (e: Option<Reason>)
    requires |ops| > 0 && SameSize(ops)
    ensures e == SumError(ops)
  {
    var n := ops[0].cols;
    var identity := Identity(n);
    var res := Zeros(n, n);
    for i := 0 to |ops|
      invariant res == Sum(ops[..i], n)
    {
      assert ops[..i + 1][..i] == ops[..i];
      res := Add(res, ops[i]);
    }
    assert ops[..|ops|] == ops;
    if !IsApprox(res, identity) {
      return Some(SumNotIdentity);
    }
    return None;
  }

  /** The loop of _checkOperatorsAreHermit. */
  method CheckHermit(ops: seq<Matrix>) returns (e: Option<Reason>)
    ensures e == HermitError(ops)
  {
    for i := 0 to |ops|
      invariant forall k :: 0 <= k < i ==> IsHermitian(ops[k])
    {
      if ops[i] != Adjoint(ops[i]) {
        return Some(OperatorNotHermitian);
      }
    }
    return None;
  }

  /** The nested loops of _checkOperatorsArePositive. */
  method CheckPositive(ops: seq<Matrix>, num: Routines) returns (e: Option<Reason>)
    ensures e == PositivityError(ops, num)
  {
    for i := 0 to |ops|
      invariant forall k :: 0 <= k < i ==> NonNegativeSpectrum(ops[k], num)
    {
      var values := num.eigen(ops[i]).values;
      for j := 0 to |values|
        invariant forall t :: 0 <= t < j ==> values[t] >= -Tolerance
      {
        if values[j] < -Tolerance {
          return Some(OperatorNotPositive);
        }
      }
    }
    return None;
  }

  // ---------------------------------------------------------------------
  // Probabilities.

  /** _checkSpacesDimensionsMatches: the operators' size against the total
      dimension when the whole state is measured (subsystem -1), otherwise
      against the subsystem's dimension, whose lookup refuses an index
      outside the space. */
  function DimsError(size: int, dims: seq<nat>, total: int, subsystem: int): Option<Error> {
    if subsystem == -1 then
      if size != total then Some(InvalidArgument(StateDimensionMismatch)) else None
    else if subsystem < 0 then Some(OutOfRange(NegativeDimensionIndex))
    else if subsystem >= |dims| then Some(OutOfRange(DimensionIndexTooBig))
    else if size != dims[subsystem] then Some(InvalidArgument(StateDimensionMismatch))
    else None
  }

  /** _getMeasurementMatrix: the operator itself for the whole state,
      otherwise the operator expanded to the whole space. */
  function MeasurementMatrix(op: Matrix, subsystem: int, dims: seq<nat>): Matrix {
    if subsystem == -1 then op else KroneckerTensor.Expanded(op, subsystem, dims)
  }

  /** Every measurement matrix is square of the density matrix's size. */
  predicate Fit(ops: seq<Matrix>, density: Matrix, subsystem: int, dims: seq<nat>) {
    forall i :: 0 <= i < |ops| ==>
      MeasurementMatrix(ops[i], subsystem, dims).rows == density.cols &&
      MeasurementMatrix(ops[i], subsystem, dims).cols == density.cols
  }

  /** The real part of tr(rho M). */
  function OutcomeProbability(density: Matrix, m: Matrix): real
    requires density.cols == m.rows
  {
    Trace(Mul(density, m)).re
  }

  /** The probability of each outcome, in the order of the operators. */
  function Probs(ops: seq<Matrix>, density: Matrix, subsystem: int, dims: seq<nat>): (ps: seq<real>)
    requires Fit(ops, density, subsystem, dims)
    ensures |ps| == |ops|
  {
    seq(|ops|, i requires 0 <= i < |ops| => OutcomeProbability(density, MeasurementMatrix(ops[i], subsystem, dims)))
  }

  /** The map probabilities() fills: each label in turn set to its
      outcome's probability, so a later duplicate label overwrites an
      earlier one. */
  function ProbabilityMap(labels: seq<string>, ps: seq<real>): map<string, real>
    requires |labels| == |ps|
  {
    if |labels| == 0 then map[]
    else ProbabilityMap(labels[..|labels| - 1], ps[..|ps| - 1])[labels[|labels| - 1] := ps[|ps| - 1]]
  }

  /** The map's keys are exactly the labels. */
  lemma {:induction false} ProbabilityMapKeys(labels: seq<string>, ps: seq<real>)
    requires |labels| == |ps|
    ensures ProbabilityMap(labels, ps).Keys == set l | l in labels
  {
    if |labels| > 0 {
      var n := |labels| - 1;
      ProbabilityMapKeys(labels[..n], ps[..n]);
      assert labels == labels[..n] + [labels[n]];
    }
  }

  /** A label's entry is the probability of its last occurrence. */
  lemma {:induction false} ProbabilityMapLast(labels: seq<string>, ps: seq<real>, i: nat)
    requires |labels| == |ps| && i < |labels|
    requires forall j :: i < j < |labels| ==> labels[j] != labels[i]
    ensures labels[i] in ProbabilityMap(labels, ps) && ProbabilityMap(labels, ps)[labels[i]] == ps[i]
  {
    var n := |labels| - 1;
    if i < n {
      ProbabilityMapLast(labels[..n], ps[..n], i);
    }
  }

  /** With distinct labels every outcome has its own entry. */
  lemma ProbabilityMapDistinct(labels: seq<string>, ps: seq<real>)
    requires |labels| == |ps|
    requires forall i, j :: 0 <= i < j < |labels| ==> labels[i] != labels[j]
    ensures forall i :: 0 <= i < |labels| ==> labels[i] in ProbabilityMap(labels, ps) && ProbabilityMap(labels, ps)[labels[i]] == ps[i]
  {
    forall i | 0 <= i < |labels|
      ensures labels[i] in ProbabilityMap(labels, ps) && ProbabilityMap(labels, ps)[labels[i]] == ps[i]
    {
      ProbabilityMapLast(labels, ps, i);
    }
  }

  /** The sum of the first k probabilities. */
  function CumSum(ps: seq<real>, k: nat): real
    requires k <= |ps|
  {
    if k == 0 then 0.0 else CumSum(ps, k - 1) + ps[k - 1]
  }

  /** The probabilities of a measurement on the whole state add up to
      the real part of tr(rho (M_0 + ... + M_{k-1})). */
  lemma {:induction false} CumSumTrace(ops: seq<Matrix>, density: Matrix, dims: seq<nat>, n: nat, k: nat)
    requires forall i :: 0 <= i < |ops| ==> ops[i].rows == n && ops[i].cols == n
    requires density.cols == n && k <= |ops|
    ensures Fit(ops, density, -1, dims)
    ensures CumSum(Probs(ops, density, -1, dims), k) == Trace(Mul(density, Sum(ops[..k], n))).re
  {
    var ps := Probs(ops, density, -1, dims);
    if k == 0 {
      TraceMulZeros(density, n);
    } else {
      CumSumTrace(ops, density, dims, n, k - 1);
      assert ops[..k][..k - 1] == ops[..k - 1];
      TraceMulAddRight(density, Sum(ops[..k - 1], n), ops[k - 1]);
    }
  }

  /** When the operators add up to the identity exactly, the probabilities
      of all outcomes add up to the real part of the state's trace. */
  lemma ProbabilitiesSumToTrace(ops: seq<Matrix>, density: Matrix, dims: seq<nat>, n: nat)
    requires forall i :: 0 <= i < |ops| ==> ops[i].rows == n && ops[i].cols == n
    requires density.cols == n && Sum(ops, n) == Identity(n)
    ensures Fit(ops, density, -1, dims)
    ensures CumSum(Probs(ops, density, -1, dims), |ops|) == Trace(density).re
  {
    CumSumTrace(ops, density, dims, n, |ops|);
    assert ops[..|ops|] == ops;
    MulIdentityRight(density);
  }

  /** Every matrix of the list is n x n. */
  predicate AllOfSize(ms: seq<Matrix>, n: nat) {
    forall i :: 0 <= i < |ms| ==> ms[i].rows == n && ms[i].cols == n
  }

  /** The matrices the probabilities are taken with, in order. */
  function Measured(ops: seq<Matrix>, subsystem: int, dims: seq<nat>): (ms: seq<Matrix>)
    ensures |ms| == |ops|
  {
    seq(|ops|, i requires 0 <= i < |ops| => MeasurementMatrix(ops[i], subsystem, dims))
  }

  /** Operators of the subsystem's size expand to the whole space's size. */
  lemma MeasuredShape(ops: seq<Matrix>, s: int, dims: seq<nat>)
    requires 0 <= s < |dims| && AllOfSize(ops, dims[s])
    ensures AllOfSize(Measured(ops, s, dims), HilbertSpaces.Product(dims))
  {
    SidesOfOwn(s, dims);
    forall i | 0 <= i < |ops|
      ensures Measured(ops, s, dims)[i].rows == HilbertSpaces.Product(dims)
      ensures Measured(ops, s, dims)[i].cols == HilbertSpaces.Product(dims)
    {
      KroneckerTensor.ExpandShape(ops[i], s, dims);
    }
  }

  /** Summing the expanded operators is expanding their sum. */
  lemma {:induction false} ExpandedSum(ops: seq<Matrix>, s: int, dims: seq<nat>)
    requires 0 <= s < |dims| && AllOfSize(ops, dims[s])
    ensures AllOfSize(Measured(ops, s, dims), HilbertSpaces.Product(dims))
    ensures Sum(Measured(ops, s, dims), HilbertSpaces.Product(dims)) == KroneckerTensor.Expanded(Sum(ops, dims[s]), s, dims)
  {
    MeasuredShape(ops, s, dims);
    var d := dims[s];
    if |ops| == 0 {
      KroneckerTensor.ExpandZeros(d, d, s, dims);
      KroneckerTensor.ExpandShape(Zeros(d, d), s, dims);
      SidesOfOwn(s, dims);
    } else {
      var m := |ops| - 1;
      ExpandedSum(ops[..m], s, dims);
      assert Measured(ops, s, dims)[..m] == Measured(ops[..m], s, dims);
      KroneckerTensor.ExpandAdd(Sum(ops[..m], d), ops[m], s, dims);
    }
  }

  /** Measured on a subsystem, the probabilities of all outcomes of
      operators that add up to the identity exactly add up to the real part
      of the state's trace. */
  lemma SubsystemProbabilitiesSumToTrace(ops: seq<Matrix>, density: Matrix, dims: seq<nat>, s: int)
    requires 0 <= s < |dims| && AllOfSize(ops, dims[s]) && Sum(ops, dims[s]) == Identity(dims[s])
    requires IsSquare(density) && density.rows == HilbertSpaces.Product(dims)
    ensures Fit(ops, density, s, dims)
    ensures CumSum(Probs(ops, density, s, dims), |ops|) == Trace(density).re
  {
    var ms := Measured(ops, s, dims);
    ExpandedSum(ops, s, dims);
    KroneckerTensor.ExpandIdentity(s, dims);
    ProbabilitiesSumToTrace(ms, density, dims, density.rows);
    ProbsOfMeasured(ops, density, s, dims);
  }

  /** The probabilities of a subsystem measurement are those of the
      expanded operators measured on the whole state. */
  lemma ProbsOfMeasured(ops: seq<Matrix>, density: Matrix, s: int, dims: seq<nat>)
    requires 0 <= s < |dims| && AllOfSize(ops, dims[s])
    requires IsSquare(density) && density.rows == HilbertSpaces.Product(dims)
    ensures Fit(ops, density, s, dims) && Fit(Measured(ops, s, dims), density, -1, dims)
    ensures Probs(Measured(ops, s, dims), density, -1, dims) == Probs(ops, density, s, dims)
  {
    MeasuredShape(ops, s, dims);
    var ms := Measured(ops, s, dims);
    assert Fit(ops, density, s, dims) by {
      forall i | 0 <= i < |ops|
        ensures MeasurementMatrix(ops[i], s, dims).rows == density.cols
        ensures MeasurementMatrix(ops[i], s, dims).cols == density.cols
      {
        assert ms[i] == MeasurementMatrix(ops[i], s, dims);
      }
    }
    var a, b := Probs(ms, density, -1, dims), Probs(ops, density, s, dims);
    forall i | 0 <= i < |ops|
      ensures a[i] == b[i]
    {
      assert ms[i] == MeasurementMatrix(ops[i], s, dims);
    }
  }

  // ---------------------------------------------------------------------
  // Choosing the outcome.

  /** Outcome j's cumulative probability falls short of r. */
  predicate Short(ps: seq<real>, r: real, j: int)
    requires 0 <= j < |ps|
  {
    r > CumSum(ps, j + 1)
  }

  function SelectedFrom(ps: seq<real>, r: real, k: nat): (s: nat)
    requires k < |ps|
    ensures k <= s < |ps|
    decreases |ps| - k
  {
    if r <= CumSum(ps, k + 1) || k == |ps| - 1 then k else SelectedFrom(ps, r, k + 1)
  }

  /** The outcome r selects: the least k whose cumulative probability
      reaches r, or the last outcome when none does. */
  function Selected(ps: seq<real>, r: real): nat
    requires |ps| > 0
  {
    SelectedFrom(ps, r, 0)
  }

  lemma {:induction false} SelectedFromLeast(ps: seq<real>, r: real, k: nat)
    requires k < |ps|
    requires forall j :: 0 <= j < k ==> Short(ps, r, j)
    ensures var s := SelectedFrom(ps, r, k);
      (r <= CumSum(ps, s + 1) || s == |ps| - 1) && forall j :: 0 <= j < s ==> Short(ps, r, j)
    decreases |ps| - k
  {
    if !(r <= CumSum(ps, k + 1) || k == |ps| - 1) {
      SelectedFromLeast(ps, r, k + 1);
    }
  }

  /** The selected outcome is the first whose cumulative probability
      reaches r: every earlier one falls short, and it reaches r unless it
      is the last outcome. */
  lemma SelectedLeast(ps: seq<real>, r: real)
    requires |ps| > 0
    ensures Selected(ps, r) < |ps|
    ensures r <= CumSum(ps, Selected(ps, r) + 1) || Selected(ps, r) == |ps| - 1
    ensures forall j :: 0 <= j < Selected(ps, r) ==> Short(ps, r, j)
  {
    SelectedFromLeast(ps, r, 0);
  }

  /** For 0 < r up to the total probability the selected outcome has a
      positive probability. */
  lemma SelectedPositive(ps: seq<real>, r: real)
    requires |ps| > 0 && 0.0 < r <= CumSum(ps, |ps|)
    ensures ps[Selected(ps, r)] > 0.0
  {
    SelectedLeast(ps, r);
    var k := Selected(ps, r);
    if k > 0 {
      assert Short(ps, r, k - 1);
    }
  }

  /** The walk of performOn as written: from outcome 0, while r exceeds the
      running sum, step to the next outcome and add its weight, with no
      bound on the step; None when it steps past the last outcome. */
  function WalkFrom(w: seq<real>, r: real, k: nat, sum: real): Option<nat>
    requires k < |w|
    decreases |w| - k
  {
    if r <= sum then Some(k)
    else if k + 1 >= |w| then None
    else WalkFrom(w, r, k + 1, sum + w[k + 1])
  }

  function WalkAsWritten(w: seq<real>, r: real): Option<nat> {
    if |w| == 0 then None else WalkFrom(w, r, 0, w[0])
  }

  /** The weights the walk as written uses: each outcome's entry in the
      label map, which for a duplicated label is its last occurrence's. */
  function MapWeights(labels: seq<string>, ps: seq<real>): (w: seq<real>)
    requires |labels| == |ps|
    ensures |w| == |labels|
  {
    ProbabilityMapKeys(labels, ps);
    seq(|labels|, i requires 0 <= i < |labels| => ProbabilityMap(labels, ps)[labels[i]])
  }

  /** Two operators labelled "a" with probabilities 1 and 0 (the projectors
      onto |0> and |1> on the state |0><0|): the map keeps only the second,
      so both weights are 0 and the walk for r = 0.5 runs past the last
      outcome, while the corrected walk over the per-outcome probabilities
      selects outcome 0. */
  lemma DuplicateLabelsOverrun()
    ensures MapWeights(["a", "a"], [1.0, 0.0]) == [0.0, 0.0]
    ensures WalkAsWritten(MapWeights(["a", "a"], [1.0, 0.0]), 0.5) == None
    ensures Selected([1.0, 0.0], 0.5) == 0
  {
    var labels, ps := ["a", "a"], [1.0, 0.0];
    assert labels[..1] == ["a"] && ps[..1] == [1.0];
    assert ProbabilityMap(labels, ps) == map["a" := 0.0];
    var w := MapWeights(labels, ps);
    assert w == [0.0, 0.0];
    assert WalkFrom(w, 0.5, 1, 0.0) == None;
    assert CumSum(ps, 1) == 1.0;
  }

  /** With distinct labels and a total of at least r, the walk as written
      stops at the outcome the corrected walk selects. */
  lemma {:induction false} WalkFromAgrees(ps: seq<real>, r: real, k: nat)
    requires k < |ps| && r <= CumSum(ps, |ps|)
    requires forall j :: 0 <= j < k ==> Short(ps, r, j)
    ensures WalkFrom(ps, r, k, CumSum(ps, k + 1)) == Some(SelectedFrom(ps, r, k))
    decreases |ps| - k
  {
    if r > CumSum(ps, k + 1) && k + 1 < |ps| {
      WalkFromAgrees(ps, r, k + 1);
    }
  }

  lemma WalkAgrees(labels: seq<string>, ps: seq<real>, r: real)
    requires |labels| == |ps| && |ps| > 0 && r <= CumSum(ps, |ps|)
    requires forall i, j :: 0 <= i < j < |labels| ==> labels[i] != labels[j]
    ensures WalkAsWritten(MapWeights(labels, ps), r) == Some(Selected(ps, r))
  {
    ProbabilityMapDistinct(labels, ps);
    assert MapWeights(labels, ps) == ps;
    assert CumSum(ps, 1) == ps[0];
    WalkFromAgrees(ps, r, 0);
  }

  // ---------------------------------------------------------------------
  // The projective measurement in the computational basis.

  /** |k><k| in an n-dimensional space. */
  function Projector(n: nat, k: int): (p: Matrix)
    ensures p.rows == n && p.cols == n
  {
    Build(n, n, (i, j) => if i == k && j == k then C.One else C.Zero)
  }

  function Projectors(n: nat): (ps: seq<Matrix>)
    ensures |ps| == n
  {
    seq(n, k => Projector(n, k))
  }

  /** The labels of Proector: the label of each basis tuple in flat
      order. */
  function ProjectorLabels(dims: seq<nat>, n: nat): (ls: seq<string>)
    requires HilbertSpaces.AllPositive(dims)
    ensures |ls| == n
  {
    seq(n, k requires 0 <= k < n => Text.Label(HilbertSpaces.Digits(dims, k)))
  }

  /** x is 1 when p holds and 0 otherwise. */
  predicate UnitIf(x: C.Complex, p: bool) {
    x == if p then C.One else C.Zero
  }

  lemma UnitProduct(x: C.Complex, y: C.Complex, z: C.Complex, k: int, i: int, j: int)
    requires UnitIf(x, i == k) && UnitIf(y, j == k) && z == C.Add(C.Zero, C.Mul(x, y))
    ensures UnitIf(z, i == k && j == k)
  {
  }

  /** An entry of the product of a column with a row. */
  lemma OuterEntry(a: Matrix, b: Matrix, i: int, j: int)
    requires a.cols == 1 && b.rows == 1 && 0 <= i < a.rows && 0 <= j < b.cols
    ensures At(Mul(a, b), i, j) == C.Add(C.Zero, C.Mul(At(a, i, 0), At(b, 0, j)))
  {
    MulAt(a, b, i, j);
    assert Dot(a, b, i, j, 1) == C.Add(Dot(a, b, i, j, 0), C.Mul(At(a, i, 0), At(b, 0, j)));
  }

  /** The product of a column that is 1 at k and 0 elsewhere with a row
      holding the same entries is 1 at (k, k) and 0 elsewhere. */
  lemma OuterOfUnit(a: Matrix, b: Matrix, k: int, i: int, j: int)
    requires a.cols == 1 && b.rows == 1 && 0 <= i < a.rows && 0 <= j < b.cols
    requires UnitIf(At(a, i, 0), i == k) && UnitIf(At(b, 0, j), j == k)
    ensures UnitIf(At(Mul(a, b), i, j), i == k && j == k)
  {
    OuterEntry(a, b, i, j);
    UnitProduct(At(a, i, 0), At(b, 0, j), At(Mul(a, b), i, j), k, i, j);
  }

  /** The projector onto basis vector k is the outer product of that vector
      with its transpose. */
  lemma OuterIsProjector(n: nat, k: int)
    ensures Mul(Column(HilbertSpaces.BasisVector(n, k)), Transpose(Column(HilbertSpaces.BasisVector(n, k)))) == Projector(n, k)
  {
    var v := HilbertSpaces.BasisVector(n, k);
    var a := Column(v);
    var b := Transpose(a);
    var m := Mul(a, b);
    forall i, j | 0 <= i < n && 0 <= j < n
      ensures At(m, i, j) == At(Projector(n, k), i, j)
    {
      assert At(a, i, 0) == v[i];
      assert At(b, 0, j) == At(a, j, 0) == v[j];
      OuterOfUnit(a, b, k, i, j);
    }
    Ext(m, Projector(n, k));
  }

  /** The first k projectors add up to the diagonal with ones at the first k
      places. */
  function PartialIdentity(n: nat, k: int): (m: Matrix)
    ensures m.rows == n && m.cols == n
  {
    Build(n, n, (i, j) => if i == j && i < k then C.One else C.Zero)
  }

  lemma {:induction false} ProjectorsPrefixSum(n: nat, k: nat)
    requires k <= n
    ensures Sum(Projectors(n)[..k], n) == PartialIdentity(n, k)
  {
    var ps := Projectors(n)[..k];
    if k == 0 {
      Ext(Zeros(n, n), PartialIdentity(n, 0));
    } else {
      assert ps[..k - 1] == Projectors(n)[..k - 1];
      ProjectorsPrefixSum(n, k - 1);
      assert ps[k - 1] == Projector(n, k - 1);
      AddProjector(n, k - 1);
    }
  }

  /** Entry by entry, adding a 0/1 entry to a 0/1 entry when at most one of
      them is 1. */
  lemma AddUnitEntries(x: C.Complex, y: C.Complex, p: bool, q: bool)
    requires !(p && q)
    requires x == (if p then C.One else C.Zero) && y == (if q then C.One else C.Zero)
    ensures C.Add(x, y) == (if p || q then C.One else C.Zero)
  {
  }

  lemma AddProjector(n: nat, k: nat)
    requires k < n
    ensures Add(PartialIdentity(n, k), Projector(n, k)) == PartialIdentity(n, k + 1)
  {
    var a, b := PartialIdentity(n, k), Projector(n, k);
    var l := Add(a, b);
    forall i, j | 0 <= i < n && 0 <= j < n
      ensures At(l, i, j) == At(PartialIdentity(n, k + 1), i, j)
    {
      AddUnitEntries(At(a, i, j), At(b, i, j), i == j && i < k, i == k && j == k);
    }
    Ext(l, PartialIdentity(n, k + 1));
  }

  /** The projectors onto all basis vectors add up to the identity. */
  lemma ProjectorsSumToIdentity(n: nat)
    ensures Sum(Projectors(n), n) == Identity(n)
  {
    ProjectorsPrefixSum(n, n);
    assert Projectors(n)[..n] == Projectors(n);
    Ext(PartialIdentity(n, n), Identity(n));
  }

  lemma ProjectorHermitian(n: nat, k: int)
    ensures IsHermitian(Projector(n, k))
  {
    var p := Projector(n, k);
    forall i, j | 0 <= i < n && 0 <= j < n
      ensures At(p, i, j) == At(Adjoint(p), i, j)
    {
      AdjointAt(p, i, j);
    }
    Ext(p, Adjoint(p));
  }

  /** A list that passes the size, sum and Hermitian checks is valid
      exactly when it passes the positivity check. */
  lemma ChecksUpToPositivity(ops: seq<Matrix>, num: Routines)
    requires |ops| > 0 && SameSize(ops) && SumError(ops).None? && HermitError(ops).None?
    ensures CheckOutcome(ops, num) == PositivityError(ops, num)
  {
    SizeErrorNone(ops);
  }

  /** A sum equal to the identity passes the sum check. */
  lemma ExactSumPasses(ops: seq<Matrix>, n: nat)
    requires |ops| > 0 && SameSize(ops) && ops[0].cols == n
    requires Sum(ops, n) == Identity(n)
    ensures SumError(ops).None?
  {
    ApproxOfEqual(Sum(ops, n), Identity(n));
  }

  /** The projective measurement of a non-empty space passes the size, sum
      and Hermitian checks, so it is valid exactly when the solver reports
      no eigenvalue below -1e-15 for any projector. */
  lemma ProjectorsChecks(n: nat, num: Routines)
    requires n >= 1
    ensures CheckOutcome(Projectors(n), num) == PositivityError(Projectors(n), num)
  {
    ProjectorsPassSum(n);
    ProjectorsPassHermitian(n);
    ChecksUpToPositivity(Projectors(n), num);
  }

  lemma ProjectorsPassSum(n: nat)
    requires n >= 1
    ensures SameSize(Projectors(n)) && SumError(Projectors(n)).None?
  {
    var ps := Projectors(n);
    assert SameSize(ps);
    ProjectorsSumToIdentity(n);
    ExactSumPasses(ps, n);
  }

  lemma ProjectorsPassHermitian(n: nat)
    ensures HermitError(Projectors(n)).None?
  {
    var ps := Projectors(n);
    forall i | 0 <= i < n
      ensures IsHermitian(ps[i])
    {
      ProjectorHermitian(n, i);
    }
  }

  /** Entry (u, w) of p is 1 at (k, k) and 0 elsewhere. */
  predicate UnitEntry(p: Matrix, k: int, u: int, w: int) {
    At(p, u, w) == (if u == k && w == k then C.One else C.Zero)
  }

  /** tr(rho P) for a P that is 1 at (k, k) and 0 elsewhere is rho(k, k). */
  lemma TraceWithUnit(density: Matrix, p: Matrix, k: int)
    requires IsSquare(density) && 0 <= k < density.rows && p.rows == density.cols && p.cols == density.cols
    requires forall u, w :: 0 <= u < p.rows && 0 <= w < p.cols ==> UnitEntry(p, k, u, w)
    ensures Trace(Mul(density, p)) == At(density, k, k)
  {
    var n := density.rows;
    var m := Mul(density, p);
    forall i | 0 <= i < n && i != k
      ensures ZeroDiagonalAt(m, i)
    {
      DotColumnOfProjector(density, p, k, i, i, n);
    }
    DotColumnOfProjector(density, p, k, k, k, n);
    DiagSumOne(m, k, n);
  }

  /** tr(rho |k><k|) is the diagonal entry rho(k, k). */
  lemma ProjectorProbability(density: Matrix, k: int)
    requires IsSquare(density) && 0 <= k < density.rows
    ensures Trace(Mul(density, Projector(density.rows, k))) == At(density, k, k)
  {
    var p := Projector(density.rows, k);
    forall u, w | 0 <= u < p.rows && 0 <= w < p.cols
      ensures UnitEntry(p, k, u, w)
    {
    }
    TraceWithUnit(density, p, k);
  }

  lemma {:induction false} DotColumnOfProjector(a: Matrix, p: Matrix, k: int, i: int, j: int, t: nat)
    requires forall u, w :: 0 <= u < p.rows && 0 <= w < p.cols ==> UnitEntry(p, k, u, w)
    requires t <= p.rows && 0 <= j < p.cols
    ensures Dot(a, p, i, j, t) == (if j == k && 0 <= k < t then At(a, i, k) else C.Zero)
  {
    if t > 0 {
      var s := t - 1;
      DotColumnOfProjector(a, p, k, i, j, s);
      var prev, x, e := Dot(a, p, i, j, s), At(a, i, s), At(p, s, j);
      assert Dot(a, p, i, j, t) == C.Add(prev, C.Mul(x, e));
      assert UnitEntry(p, k, s, j);
      UnitStep(prev, x, e, s == k && j == k);
    }
  }

  /** One term of a row times a column of a unit matrix: the entry x is
      picked up when the unit entry e is 1 and skipped when it is 0. */
  lemma UnitStep(prev: C.Complex, x: C.Complex, e: C.Complex, hit: bool)
    requires e == (if hit then C.One else C.Zero)
    requires hit ==> prev == C.Zero
    ensures C.Add(prev, C.Mul(x, e)) == (if hit then x else prev)
  {
    if hit {
      C.AddMulOne(prev, x);
    } else {
      C.AddMulZero(prev, x);
    }
  }

  predicate ZeroDiagonalAt(d: Matrix, i: int) {
    At(d, i, i) == C.Zero
  }

  lemma {:induction false} DiagSumOne(d: Matrix, k: int, t: nat)
    requires forall i :: 0 <= i < d.rows && i != k ==> ZeroDiagonalAt(d, i)
    requires t <= d.rows && 0 <= k
    ensures DiagSum(d, t) == (if k < t then At(d, k, k) else C.Zero)
  {
    if t > 0 {
      var s := t - 1;
      DiagSumOne(d, k, s);
      var prev, x := DiagSum(d, s), At(d, s, s);
      assert DiagSum(d, t) == C.Add(prev, x);
      if s == k {
        C.AddUnits(x);
      } else {
        assert ZeroDiagonalAt(d, s);
        C.AddUnits(prev);
      }
    }
  }

  /** Different basis indices get different labels. */
  lemma ProjectorLabelsDistinct(dims: seq<nat>, n: nat)
    requires HilbertSpaces.AllPositive(dims) && n <= HilbertSpaces.Product(dims)
    ensures forall i, j :: 0 <= i < j < n ==> ProjectorLabels(dims, n)[i] != ProjectorLabels(dims, n)[j]
  {
    forall i, j | 0 <= i < j < n
      ensures ProjectorLabels(dims, n)[i] != ProjectorLabels(dims, n)[j]
    {
      if ProjectorLabels(dims, n)[i] == ProjectorLabels(dims, n)[j] {
        Text.LabelInjective(HilbertSpaces.Digits(dims, i), HilbertSpaces.Digits(dims, j));
        HilbertSpaces.IndexOfDigits(dims, i);
        HilbertSpaces.IndexOfDigits(dims, j);
      }
    }
  }

  /** Measured on the whole state, Proector's probabilities are the
      diagonal of the density matrix: the label of basis index k maps to the
      real part of rho(k, k). */
  lemma ProectorProbabilities(dims: seq<nat>, density: Matrix)
    requires HilbertSpaces.AllPositive(dims) && IsSquare(density) && density.rows == HilbertSpaces.Product(dims)
    ensures Fit(Projectors(density.rows), density, -1, dims)
    ensures var n := density.rows;
      var probs := ProbabilityMap(ProjectorLabels(dims, n), Probs(Projectors(n), density, -1, dims));
      forall k :: 0 <= k < n ==>
        ProjectorLabels(dims, n)[k] in probs && probs[ProjectorLabels(dims, n)[k]] == At(density, k, k).re
  {
    var n := density.rows;
    var ls := ProjectorLabels(dims, n);
    var ps := Probs(Projectors(n), density, -1, dims);
    forall k | 0 <= k < n
      ensures ps[k] == At(density, k, k).re
    {
      ProjectorProbability(density, k);
    }
    ProjectorLabelsDistinct(dims, n);
    ProbabilityMapDistinct(ls, ps);
  }

  // ---------------------------------------------------------------------
  // Dimensions.

  /** Replacing a dimension by itself changes nothing. */
  lemma SidesOfOwn(s: int, dims: seq<nat>)
    requires 0 <= s < |dims|
    ensures KroneckerTensor.Sides(dims[s], s, dims) == dims
  {
  }

  /** When the dimension check passes on a state whose size is the product
      of its dimensions, every measurement matrix has the state's size. */
  lemma DimsMatchFit(ops: seq<Matrix>, density: Matrix, subsystem: int, dims: seq<nat>)
    requires |ops| > 0 && SameSize(ops)
    requires IsSquare(density) && density.rows == HilbertSpaces.Product(dims)
    requires DimsError(ops[0].cols, dims, density.rows, subsystem).None?
    ensures Fit(ops, density, subsystem, dims)
  {
    if subsystem != -1 {
      SidesOfOwn(subsystem, dims);
      forall i | 0 <= i < |ops|
        ensures MeasurementMatrix(ops[i], subsystem, dims).rows == density.cols
        ensures MeasurementMatrix(ops[i], subsystem, dims).cols == density.cols
      {
        KroneckerTensor.ExpandShape(ops[i], subsystem, dims);
      }
    }
  }

  /** probabilities(): the dimension check, then each label set to its
      outcome's probability. */
  function ProbabilitiesOf(ops: seq<Matrix>, labels: seq<string>, density: Matrix, dims: seq<nat>, subsystem: int): Result<map<string, real>>
    requires |ops| == |labels| && |ops| > 0 && SameSize(ops)
    requires IsSquare(density) && density.rows == HilbertSpaces.Product(dims)
  {
    match DimsError(ops[0].cols, dims, density.rows, subsystem)
    case Some(e) => Err(e)
    case None =>
      DimsMatchFit(ops, density, subsystem, dims);
      Ok(ProbabilityMap(labels, Probs(ops, density, subsystem, dims)))
  }

  datatype Selection = Selection(outcome: nat, matrix: Matrix)

  /** performOn's choice: the dimension check, the outcome r selects, and
      the post-measurement matrix sqrt(M) rho sqrt(M) / p.  An outcome of
      probability 0 divides by zero; the resulting matrix of NaN and
      infinite entries fails the state's self-adjointness test. */
  function Perform(ops: seq<Matrix>, density: Matrix, dims: seq<nat>, subsystem: int, r: real, num: Routines): Result<Selection>
    requires |ops| > 0 && SameSize(ops) && Shaped(num)
    requires IsSquare(density) && density.rows == HilbertSpaces.Product(dims)
  {
    match DimsError(ops[0].cols, dims, density.rows, subsystem)
    case Some(e) => Err(e)
    case None =>
      DimsMatchFit(ops, density, subsystem, dims);
      var ps := Probs(ops, density, subsystem, dims);
      var k := Selected(ps, r);
      if ps[k] == 0.0 then Err(QuantumStates.NotSelfAdjoint)
      else
        var root := num.operatorSqrt(MeasurementMatrix(ops[k], subsystem, dims));
        Ok(Selection(k, DivReal(Mul(Mul(root, density), root), ps[k])))
  }

  /** What performOn leaves behind once the outcome is selected: the
      selection's error with the state unchanged, or the selected label with
      the state replaced by the post-measurement matrix when the state
      accepts it (verdict None), and the state's own error with the state
      unchanged when it does not. */
  predicate Performed(p: Result<Selection>, labels: seq<string>, before: Matrix, after: Matrix,
                      verdict: Option<Error>, res: Result<string>)
  {
    match p
    case Err(e) => res == Err(e) && after == before
    case Ok(s) =>
      s.outcome < |labels| &&
      (verdict.None? ==> res == Ok(labels[s.outcome]) && after == s.matrix) &&
      (verdict.Some? ==> res == Err(verdict.value) && after == before)
  }

  /** setMatrix's verdict on the post-measurement matrix of a selection. */
  function StateVerdict(p: Result<Selection>, dim: int, stateNumerics: Routines): Option<Error> {
    if p.Ok? then QuantumStates.ReplaceError(p.value.matrix, dim, stateNumerics) else None
  }

  /** The eigen decomposition a state holds after a selection is committed:
      setMatrix overwrites it with the solver's for the post-measurement
      matrix once that matrix is square, of the space's size and
      decomposable, and leaves it alone otherwise. */
  predicate Redecomposed(p: Result<Selection>, dim: int, stateNumerics: Routines, before: Spectrum, after: Spectrum) {
    if p.Ok? && QuantumStates.ReachesSolver(p.value.matrix, dim, stateNumerics)
    then after == QuantumStates.Decompose(p.value.matrix, stateNumerics).value
    else after == before
  }

  // ---------------------------------------------------------------------
  // The measurement object.

  class Measurement {
    var operators: seq<Matrix>
    var labels: seq<string>
    var valid: bool
    /** The last failure message; None stands for the empty string the list
        constructor leaves. */
    var err: Option<Reason>
    const numerics: Routines

    /** One label per operator; valid exactly when the chain passes; when
        invalid, the message is the chain's first failure. */
    ghost predicate Valid()
      reads this
    {
      |operators| == |labels| &&
      (valid <==> CheckOutcome(operators, numerics).None?) &&
      (!valid ==> err == CheckOutcome(operators, numerics))
    }

    /** Measurement(): no operators, invalid, with the empty-set message. */
    constructor (numerics: Routines)
      ensures Valid() && this.numerics == numerics
      ensures operators == [] && labels == [] && !valid && err == Some(EmptyOperatorSet)
    {
      operators := [];
      labels := [];
      valid := false;
      err := Some(EmptyOperatorSet);
      this.numerics := numerics;
    }

    constructor Of(operators: seq<Matrix>, labels: seq<string>, numerics: Routines)
      ensures this.operators == operators && this.labels == labels && this.numerics == numerics
      ensures !valid && err == None
    {
      this.operators := operators;
      this.labels := labels;
      valid := false;
      err := None;
      this.numerics := numerics;
    }

    /** Measurement(operators, labels): refuses lists of different lengths,
        then runs the checks. */
    static method FromLists(operators: seq<Matrix>, labels: seq<string>, numerics: Routines) returns (r: Result<Measurement>)
      ensures r.Err? <==> |operators| != |labels|
      ensures r.Err? ==> r.error == InvalidArgument(LabelCountMismatch)
      ensures r.Ok? ==> fresh(r.value) && r.value.Valid() && r.value.numerics == numerics
      ensures r.Ok? ==> r.value.operators == operators && r.value.labels == labels
      ensures r.Ok? ==> r.value.err == CheckOutcome(operators, numerics)
    {
      if |operators| != |labels| {
        return Err(InvalidArgument(LabelCountMismatch));
      }
      var m := new Measurement.Of(operators, labels, numerics);
      m.CheckOperators();
      return Ok(m);
    }

    /** _checkOperatorsAreValid: the checks in order, the first failure
        recording its message; a pass leaves the message as it was. */
    method CheckOperators()
      requires |operators| == |labels|
      modifies this
      ensures Valid()
      ensures operators == old(operators) && labels == old(labels)
      ensures err == if CheckOutcome(operators, numerics).Some? then CheckOutcome(operators, numerics) else old(err)
    {
      var e: Option<Reason>;
      if |operators| == 0 {
        e := Some(EmptyOperatorSet);
      } else {
        e := CheckSameSize(operators);
        if e.None? {
          SizeErrorNone(operators);
          e := CheckSum(operators);
          if e.None? {
            e := CheckHermit(operators);
            if e.None? {
              e := CheckPositive(operators, numerics);
            }
          }
        }
      }
      if e.Some? {
        valid := false;
        err := e;
      } else {
        valid := true;
      }
    }

    /** addOperator: appends the operator and its label, then re-runs the
        checks. */
    method AddOperator(m: Matrix, name: string)
      requires |operators| == |labels|
      modifies this
      ensures Valid()
      ensures operators == old(operators) + [m] && labels == old(labels) + [name]
      ensures err == if CheckOutcome(operators, numerics).Some? then CheckOutcome(operators, numerics) else old(err)
    {
      operators := operators + [m];
      labels := labels + [name];
      CheckOperators();
    }

    /** isValid: whether the last run of the checks passed. */
    function IsValid(): (b: bool)
      reads this
      requires Valid()
      ensures b <==> (|operators| > 0 && SameSize(operators) &&
        SumsToIdentity(operators) && AllHermitian(operators) && AllNonNegative(operators, numerics))
    {
      CheckOutcomeNone(operators, numerics);
      valid
    }

    /** error: the last recorded message. */
    function Error(): (text: string)
      reads this
      requires Valid()
      ensures !valid ==> text == Message(CheckOutcome(operators, numerics).value)
    {
      if err.Some? then Message(err.value) else ""
    }

    function Operators(): (ops: seq<Matrix>)
      reads this
      requires Valid()
      ensures |ops| == |labels|
    {
      operators
    }

    function Labels(): (ls: seq<string>)
      reads this
      requires Valid()
      ensures |ls| == |operators|
    {
      labels
    }

    /** _checkSpacesDimensionsMatches. */
    method CheckDims(space: HilbertSpaces.HilbertSpace, subsystem: int) returns (e: Option<Error>)
      requires |operators| > 0 && space.Valid()
      ensures e == DimsError(operators[0].cols, space.dimensions, space.dim, subsystem)
    {
      var expected: int;
      if subsystem == -1 {
        expected := space.TotalDimension();
      } else {
        var d := space.Dimension(subsystem);
        if d.Err? {
          return Some(d.error);
        }
        expected := d.value;
      }
      if operators[0].cols != expected {
        return Some(InvalidArgument(StateDimensionMismatch));
      }
      return None;
    }

    /** _getMeasurementMatrix. */
    method GetMeasurementMatrix(subsystem: int, num: int, dims: seq<nat>) returns (m: Matrix)
      requires 0 <= num < |operators|
      ensures m == MeasurementMatrix(operators[num], subsystem, dims)
    {
      if subsystem == -1 {
        return operators[num];
      }
      m := KroneckerTensor.Expand(operators[num], subsystem, dims);
    }

    /** A valid state's total dimension is the product of its dimensions, and
        a valid measurement's operators are square of one size. */
    lemma Applicable(state: QuantumStates.QuantumState)
      requires Valid() && valid && state.Valid()
      ensures |operators| > 0 && SameSize(operators)
      ensures IsSquare(state.density) && state.density.rows == state.space.dim
      ensures state.space.dim == HilbertSpaces.Product(state.space.dimensions)
    {
      CheckOutcomeNone(operators, numerics);
      QuantumStates.ValidStateNotEmpty(state.density, state.numerics);
    }

    /** probabilities: refused while invalid, then the dimension check, then
        the map from labels to probabilities. */
    method Probabilities(state: QuantumStates.QuantumState, subsystem: int) returns (r: Result<map<string, real>>)
      requires Valid() && state.Valid()
      ensures !valid ==> r == Err(RuntimeError(CannotTestProbabilities(err.value)))
      ensures valid ==> (|operators| > 0 && SameSize(operators) && IsSquare(state.density) &&
        state.density.rows == HilbertSpaces.Product(state.space.dimensions))
      ensures valid ==> r == ProbabilitiesOf(operators, labels, state.density, state.space.dimensions, subsystem)
    {
      if !valid {
        return Err(RuntimeError(CannotTestProbabilities(err.value)));
      }
      Applicable(state);
      var e := CheckDims(state.space, subsystem);
      if e.Some? {
        return Err(e.value);
      }
      var density, dims := state.density, state.space.dimensions;
      var ps := OutcomeProbabilities(density, subsystem, dims);
      var res := BuildProbabilityMap(labels, ps);
      return Ok(res);
    }

    /** The probability of each outcome, in order. */
    method OutcomeProbabilities(density: Matrix, subsystem: int, dims: seq<nat>) returns (ps: seq<real>)
      requires |operators| > 0 && SameSize(operators)
      requires IsSquare(density) && density.rows == HilbertSpaces.Product(dims)
      requires DimsError(operators[0].cols, dims, density.rows, subsystem).None?
      ensures Fit(operators, density, subsystem, dims)
      ensures ps == Probs(operators, density, subsystem, dims)
    {
      DimsMatchFit(operators, density, subsystem, dims);
      ghost var all := Probs(operators, density, subsystem, dims);
      ps := [];
      for i := 0 to |operators|
        invariant ps == all[..i]
      {
        var m := GetMeasurementMatrix(subsystem, i, dims);
        ProbsPrefix(operators, density, subsystem, dims, i);
        ps := ps + [OutcomeProbability(density, m)];
      }
      assert all[..|operators|] == all;
    }

    /** performOn: refused while invalid, then the dimension check; the
        outcome is the one r selects, and the state is replaced by the
        post-measurement matrix when it accepts it. */
    method PerformOn(state: QuantumStates.QuantumState, subsystem: int, r: real) returns (res: Result<string>)
      requires Valid() && state.Valid() && Shaped(numerics)
      modifies state
      ensures state.Valid() && state.space == old(state.space)
      ensures !valid ==> res == Err(RuntimeError(CannotPerform(err.value))) && state.density == old(state.density)
      ensures valid ==> (|operators| > 0 && |operators| == |labels| && SameSize(operators) &&
        IsSquare(old(state.density)) && old(state.density).rows == HilbertSpaces.Product(state.space.dimensions))
      ensures valid ==> Performed(Perform(operators, old(state.density), state.space.dimensions, subsystem, r, numerics),
        labels, old(state.density), state.density,
        StateVerdict(Perform(operators, old(state.density), state.space.dimensions, subsystem, r, numerics), state.space.dim, state.numerics), res)
      ensures res.Ok? ==> state.Current()
      ensures !valid ==> state.eigenValues == old(state.eigenValues) && state.eigenVectors == old(state.eigenVectors)
      ensures valid ==> Redecomposed(Perform(operators, old(state.density), state.space.dimensions, subsystem, r, numerics), state.space.dim, state.numerics,
        Spectrum(old(state.eigenValues), old(state.eigenVectors)), Spectrum(state.eigenValues, state.eigenVectors))
    {
      if !valid {
        return Err(RuntimeError(CannotPerform(err.value)));
      }
      Applicable(state);
      res := PerformValid(state, subsystem, r);
    }

    /** performOn once the measurement is known to be valid. */
    method PerformValid(state: QuantumStates.QuantumState, subsystem: int, r: real) returns (res: Result<string>)
      requires |operators| > 0 && |operators| == |labels| && SameSize(operators) && Shaped(numerics)
      requires state.Valid() && IsSquare(state.density) && state.density.rows == state.space.dim
      requires state.space.dim == HilbertSpaces.Product(state.space.dimensions)
      modifies state
      ensures state.Valid() && state.space == old(state.space)
      ensures Performed(Perform(operators, old(state.density), state.space.dimensions, subsystem, r, numerics),
        labels, old(state.density), state.density,
        StateVerdict(Perform(operators, old(state.density), state.space.dimensions, subsystem, r, numerics), state.space.dim, state.numerics), res)
      ensures res.Ok? ==> state.Current()
      ensures Redecomposed(Perform(operators, old(state.density), state.space.dimensions, subsystem, r, numerics), state.space.dim, state.numerics,
        Spectrum(old(state.eigenValues), old(state.eigenVectors)), Spectrum(state.eigenValues, state.eigenVectors))
    {
      var e := CheckDims(state.space, subsystem);
      if e.Some? {
        return Err(e.value);
      }
      res := PerformChecked(state, subsystem, r);
    }

    /** performOn once the dimension check has passed. */
    method PerformChecked(state: QuantumStates.QuantumState, subsystem: int, r: real) returns (res: Result<string>)
      requires |operators| > 0 && |operators| == |labels| && SameSize(operators) && Shaped(numerics)
      requires state.Valid() && IsSquare(state.density) && state.density.rows == state.space.dim
      requires state.space.dim == HilbertSpaces.Product(state.space.dimensions)
      requires DimsError(operators[0].cols, state.space.dimensions, state.density.rows, subsystem).None?
      modifies state
      ensures state.Valid() && state.space == old(state.space)
      ensures Performed(Perform(operators, old(state.density), state.space.dimensions, subsystem, r, numerics),
        labels, old(state.density), state.density,
        StateVerdict(Perform(operators, old(state.density), state.space.dimensions, subsystem, r, numerics), state.space.dim, state.numerics), res)
      ensures res.Ok? ==> state.Current()
      ensures Redecomposed(Perform(operators, old(state.density), state.space.dimensions, subsystem, r, numerics), state.space.dim, state.numerics,
        Spectrum(old(state.eigenValues), old(state.eigenVectors)), Spectrum(state.eigenValues, state.eigenVectors))
    {
      var p := Select(state.density, subsystem, state.space.dimensions, r);
      res := Commit(state, p);
    }

    /** The selection's error, or the selected outcome's label once the
        state accepts the post-measurement matrix, or the state's error. */
    method Commit(state: QuantumStates.QuantumState, p: Result<Selection>) returns (res: Result<string>)
      requires state.Valid() && (p.Ok? ==> p.value.outcome < |labels|)
      modifies state
      ensures state.Valid() && state.space == old(state.space)
      ensures Performed(p, labels, old(state.density), state.density, StateVerdict(p, state.space.dim, state.numerics), res)
      ensures res.Ok? ==> state.Current()
      ensures Redecomposed(p, state.space.dim, state.numerics, Spectrum(old(state.eigenValues), old(state.eigenVectors)), Spectrum(state.eigenValues, state.eigenVectors))
    {
      if p.Err? {
        return Err(p.error);
      }
      var se := state.SetMatrix(p.value.matrix);
      if se.Some? {
        return Err(se.value);
      }
      return Ok(labels[p.value.outcome]);
    }

    /** The outcome r selects and the post-measurement matrix, or the error
        when the selected outcome has probability zero. */
    method Select(density: Matrix, subsystem: int, dims: seq<nat>, r: real) returns (p: Result<Selection>)
      requires |operators| > 0 && SameSize(operators) && Shaped(numerics)
      requires IsSquare(density) && density.rows == HilbertSpaces.Product(dims)
      requires DimsError(operators[0].cols, dims, density.rows, subsystem).None?
      ensures p == Perform(operators, density, dims, subsystem, r, numerics)
      ensures p.Ok? ==> p.value.outcome < |operators|
    {
      var ps := OutcomeProbabilities(density, subsystem, dims);
      var k := SelectOutcome(ps, r);
      var m := GetMeasurementMatrix(subsystem, k, dims);
      PerformSelects(operators, density, dims, subsystem, r, numerics);
      if ps[k] == 0.0 {
        return Err(QuantumStates.NotSelfAdjoint);
      }
      var root := numerics.operatorSqrt(m);
      return Ok(Selection(k, DivReal(Mul(Mul(root, density), root), ps[k])));
    }

    /** Proector(space): starts from the empty measurement and adds, for
        each basis index in order, the projector onto that basis vector
        labelled with its tuple. */
    static method Proector(space: HilbertSpaces.HilbertSpace, numerics: Routines) returns (m: Measurement)
      requires space.Valid()
      ensures fresh(m) && m.Valid() && m.numerics == numerics
      ensures m.operators == Projectors(space.dim) && m.labels == ProjectorLabels(space.dimensions, space.dim)
      ensures space.dim == 0 ==> m.err == Some(EmptyOperatorSet)
    {
      m := new Measurement(numerics);
      if space.TotalDimension() == 0 {
        assert Projectors(0) == [] && ProjectorLabels(space.dimensions, 0) == [];
      } else {
        AddProjectors(m, space);
      }
    }

    /** The loop of Proector: one projector per basis vector, in flat
        order. */
    static method AddProjectors(m: Measurement, space: HilbertSpaces.HilbertSpace)
      requires space.Valid() && m.Valid() && m.operators == [] && m.labels == []
      modifies m
      ensures m.Valid()
      ensures m.operators == Projectors(space.dim) && m.labels == ProjectorLabels(space.dimensions, space.dim)
    {
      var n := space.TotalDimension();
      for i := 0 to n
        invariant m.Valid()
        invariant m.operators == Projectors(n)[..i] && m.labels == ProjectorLabels(space.dimensions, n)[..i]
      {
        AddBasisProjector(m, space, i);
      }
      assert Projectors(n)[..n] == Projectors(n);
      assert ProjectorLabels(space.dimensions, n)[..n] == ProjectorLabels(space.dimensions, n);
    }

    /** One pass of Proector's loop: the projector onto basis vector i,
        labelled with the tuple of i. */
    static method AddBasisProjector(m: Measurement, space: HilbertSpaces.HilbertSpace, i: nat)
      requires space.Valid() && i < space.dim
      requires m.Valid() && m.operators == Projectors(space.dim)[..i]
      requires m.labels == ProjectorLabels(space.dimensions, space.dim)[..i]
      modifies m
      ensures m.Valid()
      ensures m.operators == Projectors(space.dim)[..i + 1]
      ensures m.labels == ProjectorLabels(space.dimensions, space.dim)[..i + 1]
    {
      var n := space.dim;
      var v := space.GetVector(i);
      HilbertSpaces.IndexOfDigits(space.dimensions, i);
      var op := space.GetBasisVector(v.value);
      var text := Text.VecToLabel(v.value);
      OuterIsProjector(n, i);
      m.AddOperator(Mul(Column(op.value), Transpose(Column(op.value))), text);
      ProjectorsStep(space.dimensions, n, i);
    }
  }

  /** One more basis index extends the prefixes of Proector's operators
      and labels by that index's projector and label. */
  lemma ProjectorsStep(dims: seq<nat>, n: nat, i: nat)
    requires HilbertSpaces.AllPositive(dims) && i < n
    ensures Projectors(n)[..i + 1] == Projectors(n)[..i] + [Projector(n, i)]
    ensures ProjectorLabels(dims, n)[..i + 1] == ProjectorLabels(dims, n)[..i] + [Text.Label(HilbertSpaces.Digits(dims, i))]
  {
    var ps, ls := Projectors(n), ProjectorLabels(dims, n);
    assert ps[..i + 1] == ps[..i] + [ps[i]];
    assert ls[..i + 1] == ls[..i] + [ls[i]];
  }

  /** One more outcome extends a prefix of Probs by that outcome's
      probability. */
  lemma ProbsPrefix(ops: seq<Matrix>, density: Matrix, subsystem: int, dims: seq<nat>, i: nat)
    requires Fit(ops, density, subsystem, dims) && i < |ops|
    ensures Probs(ops, density, subsystem, dims)[..i + 1] ==
      Probs(ops, density, subsystem, dims)[..i] + [OutcomeProbability(density, MeasurementMatrix(ops[i], subsystem, dims))]
  {
    var all := Probs(ops, density, subsystem, dims);
    assert all[..i + 1] == all[..i] + [all[i]];
  }

  /** The map probabilities() fills, one label at a time. */
  method BuildProbabilityMap(labels: seq<string>, ps: seq<real>) returns (res: map<string, real>)
    requires |labels| == |ps|
    ensures res == ProbabilityMap(labels, ps)
  {
    res := map[];
    for i := 0 to |labels|
      invariant res == ProbabilityMap(labels[..i], ps[..i])
    {
      assert labels[..i + 1][..i] == labels[..i] && ps[..i + 1][..i] == ps[..i];
      res := res[labels[i] := ps[i]];
    }
    assert labels[..|labels|] == labels && ps[..|ps|] == ps;
  }

  /** The walk of performOn, bounded at the last outcome. */
  method SelectOutcome(ps: seq<real>, r: real) returns (k: nat)
    requires |ps| > 0
    ensures k == Selected(ps, r) && k < |ps|
  {
    k := 0;
    var probSum := ps[0];
    while r > probSum && k + 1 < |ps|
      invariant 0 <= k < |ps| && probSum == CumSum(ps, k + 1)
      invariant SelectedFrom(ps, r, k) == Selected(ps, r)
      decreases |ps| - k
    {
      k := k + 1;
      probSum := probSum + ps[k];
    }
  }

  /** Perform in terms of the outcome probabilities and the selected
      outcome. */
  lemma PerformSelects(ops: seq<Matrix>, density: Matrix, dims: seq<nat>, subsystem: int, r: real, num: Routines)
    requires |ops| > 0 && SameSize(ops) && Shaped(num)
    requires IsSquare(density) && density.rows == HilbertSpaces.Product(dims)
    requires DimsError(ops[0].cols, dims, density.rows, subsystem).None?
    ensures Fit(ops, density, subsystem, dims)
    ensures var ps := Probs(ops, density, subsystem, dims);
      var k := Selected(ps, r);
      var m := MeasurementMatrix(ops[k], subsystem, dims);
      IsSquare(m) && m.rows == density.rows &&
      num.operatorSqrt(m).rows == m.rows && num.operatorSqrt(m).cols == m.rows &&
      Perform(ops, density, dims, subsystem, r, num) ==
        if ps[k] == 0.0 then Err(QuantumStates.NotSelfAdjoint)
        else Ok(Selection(k, DivReal(Mul(Mul(num.operatorSqrt(m), density), num.operatorSqrt(m)), ps[k])))
  {
    DimsMatchFit(ops, density, subsystem, dims);
  }
}
