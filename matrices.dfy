/** Dense complex matrices, the value type Eigen's MatrixXcd provides to the
    simulator: a row count, a column count and the entries row by row.  A
    matrix keeps its shape even when it has no rows, as Eigen's does. */
module Matrices {
  import C = ComplexNumbers

  datatype Dense = Dense(rows: nat, cols: nat, at: seq<seq<C.Complex>>)

  predicate Rectangular(m: Dense) {
    |m.at| == m.rows && forall i :: 0 <= i < m.rows ==> |m.at[i]| == m.cols
  }

  type Matrix = m: Dense | Rectangular(m) witness Dense(0, 0, [])

  /** Entry (i, j); reads outside the shape are never made by the model and
      give zero only so that the definitions below need no bounds. */
  function At(m: Matrix, i: int, j: int): C.Complex {
    if 0 <= i < m.rows && 0 <= j < m.cols then m.at[i][j] else C.Zero
  }

  /** The r x c matrix whose entry (i, j) is f(i, j). */
  function Build(r: nat, c: nat, f: (int, int) -> C.Complex): (m: Matrix)
    ensures m.rows == r && m.cols == c
    ensures forall i, j :: 0 <= i < r && 0 <= j < c ==> At(m, i, j) == f(i, j)
  {
    Dense(r, c, seq(r, i => seq(c, j => f(i, j))))
  }

  /** Two matrices of one shape that agree entrywise are equal. */
  lemma Ext(a: Matrix, b: Matrix)
    requires a.rows == b.rows && a.cols == b.cols
    requires forall i, j :: 0 <= i < a.rows && 0 <= j < a.cols ==> At(a, i, j) == At(b, i, j)
    ensures a == b
  {
    forall i | 0 <= i < a.rows
      ensures a.at[i] == b.at[i]
    {
      forall j | 0 <= j < a.cols
        ensures a.at[i][j] == b.at[i][j]
      {
        assert At(a, i, j) == At(b, i, j);
      }
    }
  }

  predicate IsSquare(m: Matrix) { m.rows == m.cols }

  function Zeros(r: nat, c: nat): Matrix {
    Build(r, c, (i, j) => C.Zero)
  }

  /** The n x n identity (Eigen's setIdentity). */
  function Identity(n: nat): Matrix {
    Build(n, n, (i, j) => if i == j then C.One else C.Zero)
  }

  lemma IdentityAt(n: nat, i: int, j: int)
    requires 0 <= i < n && 0 <= j < n
    ensures At(Identity(n), i, j) == (if i == j then C.One else C.Zero)
  {
  }

  function Add(a: Matrix, b: Matrix): Matrix
    requires a.rows == b.rows && a.cols == b.cols
  {
    Build(a.rows, a.cols, (i, j) => C.Add(At(a, i, j), At(b, i, j)))
  }

  /** Conjugate transpose (MatrixBase::adjoint). */
  function Adjoint(a: Matrix): Matrix {
    Build(a.cols, a.rows, (i, j) => C.Conj(At(a, j, i)))
  }

  lemma AdjointAt(a: Matrix, i: int, j: int)
    requires 0 <= i < a.cols && 0 <= j < a.rows
    ensures At(Adjoint(a), i, j) == C.Conj(At(a, j, i))
  {
  }

  /** Plain transpose (MatrixBase::transpose), no conjugation. */
  function Transpose(a: Matrix): Matrix {
    Build(a.cols, a.rows, (i, j) => At(a, j, i))
  }

  function DivReal(a: Matrix, k: real): Matrix
    requires k != 0.0
  {
    Build(a.rows, a.cols, (i, j) => C.DivReal(At(a, i, j), k))
  }

  /** The sum over t < n of a(i, t) * b(t, j). */
  function Dot(a: Matrix, b: Matrix, i: int, j: int, n: nat): C.Complex {
    if n == 0 then C.Zero else C.Add(Dot(a, b, i, j, n - 1), C.Mul(At(a, i, n - 1), At(b, n - 1, j)))
  }

  function Mul(a: Matrix, b: Matrix): Matrix
    requires a.cols == b.rows
  {
    Build(a.rows, b.cols, (i, j) => Dot(a, b, i, j, a.cols))
  }

  lemma MulAt(a: Matrix, b: Matrix, i: int, j: int)
    requires a.cols == b.rows && 0 <= i < a.rows && 0 <= j < b.cols
    ensures At(Mul(a, b), i, j) == Dot(a, b, i, j, a.cols)
  {
  }

  /** The sum of the first n diagonal entries. */
  function DiagSum(a: Matrix, n: nat): C.Complex {
    if n == 0 then C.Zero else C.Add(DiagSum(a, n - 1), At(a, n - 1, n - 1))
  }

  function Trace(a: Matrix): C.Complex {
    DiagSum(a, a.rows)
  }

  /** Self-adjointness decided by exact equality, as `matr == matr.adjoint()`. */
  predicate IsHermitian(a: Matrix) {
    a == Adjoint(a)
  }

  /** A column vector as an n x 1 matrix (Eigen's VectorXcd). */
  function Column(v: seq<C.Complex>): Matrix {
    Build(|v|, 1, (i, j) => if 0 <= i < |v| then v[i] else C.Zero)
  }

  /** Column j of a matrix, as a vector. */
  function Col(a: Matrix, j: int): seq<C.Complex> {
    seq(a.rows, i => At(a, i, j))
  }

  /** The sum of a list of n x n matrices, accumulated left to right from
      the zero matrix. */
  function Sum(ops: seq<Matrix>, n: nat): (s: Matrix)
    requires forall k :: 0 <= k < |ops| ==> ops[k].rows == n && ops[k].cols == n
    ensures s.rows == n && s.cols == n
  {
    if |ops| == 0 then Zeros(n, n) else Add(Sum(ops[..|ops| - 1], n), ops[|ops| - 1])
  }

  // ---------------------------------------------------------------------
  // Algebraic facts used by the rest of the model.

  lemma {:induction false} DotIdentityPrefix(a: Matrix, i: int, j: int, n: nat, k: nat)
    requires a.cols == n && k <= n
    ensures 0 <= j < n ==> Dot(a, Identity(n), i, j, k) == (if j < k then At(a, i, j) else C.Zero)
  {
    if k > 0 && 0 <= j < n {
      var t := k - 1;
      DotIdentityPrefix(a, i, j, n, t);
      var prev, x := Dot(a, Identity(n), i, j, t), At(a, i, t);
      IdentityAt(n, t, j);
      if t == j {
        assert Dot(a, Identity(n), i, j, k) == C.Add(prev, C.Mul(x, C.One));
        C.AddMulOne(prev, x);
      } else {
        assert Dot(a, Identity(n), i, j, k) == C.Add(prev, C.Mul(x, C.Zero));
        C.AddMulZero(prev, x);
      }
    }
  }

  /** The identity is a right unit of the matrix product. */
  lemma MulIdentityRight(a: Matrix)
    ensures Mul(a, Identity(a.cols)) == a
  {
    var m := Mul(a, Identity(a.cols));
    forall i, j | 0 <= i < a.rows && 0 <= j < a.cols
      ensures At(m, i, j) == At(a, i, j)
    {
      DotIdentityPrefix(a, i, j, a.cols, a.cols);
    }
    Ext(m, a);
  }

  /** Summing a column against a row that is 1 at i and 0 elsewhere picks
      entry i of the column once the sum has reached it. */
  lemma {:induction false} DotUnitRowPrefix(e: Matrix, b: Matrix, i: int, j: int, k: nat)
    requires 0 <= i
    requires forall t :: 0 <= t < k ==> At(e, i, t) == (if t == i then C.One else C.Zero)
    ensures Dot(e, b, i, j, k) == (if i < k then At(b, i, j) else C.Zero)
  {
    if k > 0 {
      var t := k - 1;
      DotUnitRowPrefix(e, b, i, j, t);
      var prev, y := Dot(e, b, i, j, t), At(b, t, j);
      if t == i {
        assert At(e, i, t) == C.One;
        assert Dot(e, b, i, j, k) == C.Add(prev, C.Mul(C.One, y));
        C.AddOneMul(prev, y);
      } else {
        assert At(e, i, t) == C.Zero;
        assert Dot(e, b, i, j, k) == C.Add(prev, C.Mul(C.Zero, y));
        C.AddZeroMul(prev, y);
      }
    }
  }

  /** The identity is a left unit of the matrix product. */
  lemma MulIdentityLeft(b: Matrix)
    ensures Mul(Identity(b.rows), b) == b
  {
    var m := Mul(Identity(b.rows), b);
    forall i, j | 0 <= i < b.rows && 0 <= j < b.cols
      ensures At(m, i, j) == At(b, i, j)
    {
      forall t | 0 <= t < b.rows
        ensures At(Identity(b.rows), i, t) == (if t == i then C.One else C.Zero)
      {
        IdentityAt(b.rows, i, t);
      }
      DotUnitRowPrefix(Identity(b.rows), b, i, j, b.rows);
    }
    Ext(m, b);
  }

  /** The identity is its own adjoint. */
  lemma AdjointIdentity(n: nat)
    ensures Adjoint(Identity(n)) == Identity(n)
  {
    forall i, j | 0 <= i < n && 0 <= j < n
      ensures At(Adjoint(Identity(n)), i, j) == At(Identity(n), i, j)
    {
      IdentityAt(n, j, i);
      IdentityAt(n, i, j);
    }
    Ext(Adjoint(Identity(n)), Identity(n));
  }

  lemma {:induction false} DotAddRight(a: Matrix, b: Matrix, c: Matrix, i: int, j: int, n: nat)
    requires b.rows == c.rows && b.cols == c.cols
    ensures Dot(a, Add(b, c), i, j, n) == C.Add(Dot(a, b, i, j, n), Dot(a, c, i, j, n))
  {
    if n > 0 {
      var t := n - 1;
      DotAddRight(a, b, c, i, j, t);
      var x, y, z := At(a, i, t), At(b, t, j), At(c, t, j);
      var db, dc := Dot(a, b, i, j, t), Dot(a, c, i, j, t);
      assert At(Add(b, c), t, j) == C.Add(y, z);
      C.MulAddDistrib(x, y, z);
      assert Dot(a, Add(b, c), i, j, n) == C.Add(C.Add(db, dc), C.Add(C.Mul(x, y), C.Mul(x, z)));
      C.AddShuffle(db, dc, C.Mul(x, y), C.Mul(x, z));
    } else {
      C.AddUnits(C.Zero);
    }
  }

  lemma {:induction false} DotZerosRight(a: Matrix, r: nat, c: nat, i: int, j: int, n: nat)
    ensures Dot(a, Zeros(r, c), i, j, n) == C.Zero
  {
    if n > 0 {
      DotZerosRight(a, r, c, i, j, n - 1);
    }
  }

  lemma {:induction false} DotZerosLeft(b: Matrix, r: nat, c: nat, i: int, j: int, n: nat)
    ensures Dot(Zeros(r, c), b, i, j, n) == C.Zero
  {
    if n > 0 {
      DotZerosLeft(b, r, c, i, j, n - 1);
    }
  }

  /** A zero matrix absorbs the product from either side. */
  lemma MulZeros(a: Matrix, n: nat)
    ensures a.rows == n ==> Mul(Zeros(n, n), a) == Zeros(n, a.cols)
    ensures a.cols == n ==> Mul(a, Zeros(n, n)) == Zeros(a.rows, n)
  {
    if a.rows == n {
      forall i, j | 0 <= i < n && 0 <= j < a.cols
        ensures At(Mul(Zeros(n, n), a), i, j) == At(Zeros(n, a.cols), i, j)
      {
        DotZerosLeft(a, n, n, i, j, n);
      }
      Ext(Mul(Zeros(n, n), a), Zeros(n, a.cols));
    }
    if a.cols == n {
      forall i, j | 0 <= i < a.rows && 0 <= j < n
        ensures At(Mul(a, Zeros(n, n)), i, j) == At(Zeros(a.rows, n), i, j)
      {
        DotZerosRight(a, n, n, i, j, n);
      }
      Ext(Mul(a, Zeros(n, n)), Zeros(a.rows, n));
    }
  }

  lemma AdjointZeros(n: nat)
    ensures Adjoint(Zeros(n, n)) == Zeros(n, n)
  {
    Ext(Adjoint(Zeros(n, n)), Zeros(n, n));
  }

  lemma {:induction false} DiagSumAdd(a: Matrix, b: Matrix, n: nat)
    requires a.rows == b.rows && a.cols == b.cols
    ensures DiagSum(Add(a, b), n) == C.Add(DiagSum(a, n), DiagSum(b, n))
  {
    if n > 0 {
      var t := n - 1;
      DiagSumAdd(a, b, t);
      var x, y := At(a, t, t), At(b, t, t);
      assert At(Add(a, b), t, t) == C.Add(x, y);
      C.AddShuffle(DiagSum(a, t), DiagSum(b, t), x, y);
    } else {
      C.AddUnits(C.Zero);
    }
  }

  lemma {:induction false} DiagSumZeros(r: nat, c: nat, n: nat)
    ensures DiagSum(Zeros(r, c), n) == C.Zero
  {
    if n > 0 {
      DiagSumZeros(r, c, n - 1);
    }
  }

  /** Trace(a * (b + c)) = Trace(a * b) + Trace(a * c). */
  lemma TraceMulAddRight(a: Matrix, b: Matrix, c: Matrix)
    requires a.cols == b.rows && b.rows == c.rows && b.cols == c.cols
    ensures Trace(Mul(a, Add(b, c))) == C.Add(Trace(Mul(a, b)), Trace(Mul(a, c)))
  {
    var l := Mul(a, Add(b, c));
    var r := Add(Mul(a, b), Mul(a, c));
    forall i, j | 0 <= i < l.rows && 0 <= j < l.cols
      ensures At(l, i, j) == At(r, i, j)
    {
      DotAddRight(a, b, c, i, j, a.cols);
    }
    Ext(l, r);
    DiagSumAdd(Mul(a, b), Mul(a, c), a.rows);
  }

  lemma TraceMulZeros(a: Matrix, c: nat)
    ensures Trace(Mul(a, Zeros(a.cols, c))) == C.Zero
  {
    var m := Mul(a, Zeros(a.cols, c));
    forall i, j | 0 <= i < m.rows && 0 <= j < m.cols
      ensures At(m, i, j) == At(Zeros(a.rows, c), i, j)
    {
      DotZerosRight(a, a.cols, c, i, j, a.cols);
    }
    Ext(m, Zeros(a.rows, c));
    DiagSumZeros(a.rows, c, a.rows);
  }
}
