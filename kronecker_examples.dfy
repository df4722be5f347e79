/** The worked example of the Kronecker product unit test. */
module KroneckerExamples {
  import C = ComplexNumbers
  import opened Matrices
  import opened KroneckerTensor

  /** The product the unit test expects of [[1, 2], [3, 4]] (x) [[0, 5], [6, 7]]. */
  function Expected(): Matrix {
    Dense(4, 4, [
      [C.Of(0.0), C.Of(5.0), C.Of(0.0), C.Of(10.0)],
      [C.Of(6.0), C.Of(7.0), C.Of(12.0), C.Of(14.0)],
      [C.Of(0.0), C.Of(15.0), C.Of(0.0), C.Of(20.0)],
      [C.Of(18.0), C.Of(21.0), C.Of(24.0), C.Of(28.0)]])
  }

  /** The unit test's Kronecker product: all sixteen entries agree. */
  lemma KronExample(a: Matrix, b: Matrix)
    requires a == Dense(2, 2, [[C.Of(1.0), C.Of(2.0)], [C.Of(3.0), C.Of(4.0)]])
    requires b == Dense(2, 2, [[C.Of(0.0), C.Of(5.0)], [C.Of(6.0), C.Of(7.0)]])
    ensures Kron(a, b) == Expected()
  {
    RowAgrees(a, b, 0, 0, 0, 1.0, 2.0, 0.0, 5.0);
    RowAgrees(a, b, 1, 0, 1, 1.0, 2.0, 6.0, 7.0);
    RowAgrees(a, b, 2, 1, 0, 3.0, 4.0, 0.0, 5.0);
    RowAgrees(a, b, 3, 1, 1, 3.0, 4.0, 6.0, 7.0);
    forall p, q | 0 <= p < 4 && 0 <= q < 4
      ensures At(Kron(a, b), p, q) == At(Expected(), p, q)
    {
      assert p == 0 || p == 1 || p == 2 || p == 3;
    }
    Ext(Kron(a, b), Expected());
  }

  /** Row p = 2i + k of a product of 2 x 2 matrices is row i of a times row k
      of b, here the row the test expects. */
  lemma RowAgrees(a: Matrix, b: Matrix, p: int, i: int, k: int, x0: real, x1: real, y0: real, y1: real)
    requires a.rows == 2 && a.cols == 2 && b.rows == 2 && b.cols == 2
    requires 0 <= i < 2 && 0 <= k < 2 && p == 2 * i + k
    requires At(a, i, 0) == C.Of(x0) && At(a, i, 1) == C.Of(x1)
    requires At(b, k, 0) == C.Of(y0) && At(b, k, 1) == C.Of(y1)
    requires At(Expected(), p, 0) == C.Of(x0 * y0) && At(Expected(), p, 1) == C.Of(x0 * y1)
    requires At(Expected(), p, 2) == C.Of(x1 * y0) && At(Expected(), p, 3) == C.Of(x1 * y1)
    ensures forall q :: 0 <= q < 4 ==> At(Kron(a, b), p, q) == At(Expected(), p, q)
  {
    EntryOf(a, b, i, 0, k, 0, x0, y0);
    EntryOf(a, b, i, 0, k, 1, x0, y1);
    EntryOf(a, b, i, 1, k, 0, x1, y0);
    EntryOf(a, b, i, 1, k, 1, x1, y1);
    forall q | 0 <= q < 4
      ensures At(Kron(a, b), p, q) == At(Expected(), p, q)
    {
      assert q == 0 || q == 1 || q == 2 || q == 3;
    }
  }

  /** Entry (2i + k, 2j + l) of a product of 2 x 2 matrices is
      a(i, j) * b(k, l). */
  lemma EntryOf(a: Matrix, b: Matrix, i: int, j: int, k: int, l: int, x: real, y: real)
    requires a.rows == 2 && a.cols == 2 && b.rows == 2 && b.cols == 2
    requires 0 <= i < 2 && 0 <= j < 2 && 0 <= k < 2 && 0 <= l < 2
    requires At(a, i, j) == C.Of(x) && At(b, k, l) == C.Of(y)
    ensures At(Kron(a, b), 2 * i + k, 2 * j + l) == C.Of(x * y)
  {
    KronEntryAt(a, b, i, j, k, l);
    C.MulOf(x, y);
  }
}
