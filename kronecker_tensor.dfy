/** The Kronecker (tensor) product of matrices and the lifting of an
    operator on one subsystem to the whole composite space. */
module KroneckerTensor {
  import C = ComplexNumbers
  import opened Matrices
  import Arith
  import HilbertSpaces

  // ---------------------------------------------------------------------
  // Specification on values.

  /** Position of entry k of block i when blocks have side d. */
  function Cell(i: int, d: int, k: int): int { i * d + k }

  /** Entry (p, q) of a (x) b: block (p / rb, q / cb) of a times entry
      (p mod rb, q mod cb) of b. */
  function KronEntry(a: Matrix, b: Matrix, p: int, q: int): C.Complex {
    if b.rows == 0 || b.cols == 0 then C.Zero
    else C.Mul(At(a, p / b.rows, q / b.cols), At(b, p % b.rows, q % b.cols))
  }

  function Kron(a: Matrix, b: Matrix): (m: Matrix)
    ensures m.rows == a.rows * b.rows && m.cols == a.cols * b.cols
  {
    Build(a.rows * b.rows, a.cols * b.cols, (p, q) => KronEntry(a, b, p, q))
  }

  /** The factor expand places at subsystem i. */
  function Factor(initial: Matrix, index: int, dims: seq<nat>, i: nat): Matrix
    requires i < |dims|
  {
    if i == index then initial else Identity(dims[i])
  }

  /** The product of the first n factors, starting from the 1 x 1 matrix [1]. */
  function ExpandPrefix(initial: Matrix, index: int, dims: seq<nat>, n: nat): Matrix
    requires n <= |dims|
  {
    if n == 0 then Identity(1)
    else Kron(ExpandPrefix(initial, index, dims, n - 1), Factor(initial, index, dims, n - 1))
  }

  function Expanded(initial: Matrix, index: int, dims: seq<nat>): Matrix {
    ExpandPrefix(initial, index, dims, |dims|)
  }

  /** The sides of the factors: the given size at the chosen subsystem and
      the subsystem's dimension elsewhere. */
  function Sides(size: nat, index: int, dims: seq<nat>): (s: seq<nat>)
    ensures |s| == |dims|
  {
    seq(|dims|, i requires 0 <= i < |dims| => if i == index then size else dims[i])
  }

  // ---------------------------------------------------------------------
  // The C++ operations.

  /** Snapshot of a buffer as a matrix value. */
  function Contents(res: array2<C.Complex>): (m: Matrix)
    reads res
    ensures m.rows == res.Length0 && m.cols == res.Length1
    ensures forall p, q :: 0 <= p < res.Length0 && 0 <= q < res.Length1 ==> At(m, p, q) == res[p, q]
  {
    Dense(res.Length0, res.Length1,
      seq(res.Length0, p requires 0 <= p < res.Length0 reads res =>
        seq(res.Length1, q requires 0 <= q < res.Length1 reads res => res[p, q])))
  }

  /** How many cells the four loops of product have written when they
      reach a(i, j) and b(k, l). */
  function Visited(i: int, j: int, k: int, l: int, ac: int, br: int, bc: int): int {
    ((i * ac + j) * br + k) * bc + l
  }

  /** The visit number of cell (p, q): the loops write it at a(p / br, q / bc)
      and b(p mod br, q mod bc). */
  function VisitOf(p: int, q: int, ac: int, br: int, bc: int): int {
    if br > 0 && bc > 0 then Visited(p / br, q / bc, p % br, q % bc, ac, br, bc) else 0
  }

  /** The cells of the buffer visited before the n-th hold the product's
      entries. */
  ghost predicate Filled(res: array2<C.Complex>, a: Matrix, b: Matrix, n: int)
    reads res
  {
    forall p, q :: 0 <= p < res.Length0 && 0 <= q < res.Length1 && 0 <= VisitOf(p, q, a.cols, b.rows, b.cols) < n ==>
      res[p, q] == KronEntry(a, b, p, q)
  }

  /** The statement in the innermost loop of product:
      res(i * br + k, j * bc + l) = a(i, j) * b(k, l), which fills the n-th
      visited cell. */
  method Put(res: array2<C.Complex>, a: Matrix, b: Matrix, i: int, j: int, k: int, l: int, ghost n: int)
    requires res.Length0 == a.rows * b.rows && res.Length1 == a.cols * b.cols
    requires 0 <= i < a.rows && 0 <= j < a.cols && 0 <= k < b.rows && 0 <= l < b.cols
    requires n == Visited(i, j, k, l, a.cols, b.rows, b.cols)
    requires Filled(res, a, b, n)
    modifies res
    ensures Filled(res, a, b, n + 1)
  {
    var p0, q0 := Cell(i, b.rows, k), Cell(j, b.cols, l);
    WrittenCell(a, b, i, j, k, l);
    res[p0, q0] := C.Mul(At(a, i, j), At(b, k, l));
    forall p, q | 0 <= p < res.Length0 && 0 <= q < res.Length1 && 0 <= VisitOf(p, q, a.cols, b.rows, b.cols) < n + 1
      ensures res[p, q] == KronEntry(a, b, p, q)
    {
      if VisitOf(p, q, a.cols, b.rows, b.cols) == n {
        VisitInjective(p, q, p0, q0, a.rows, a.cols, b.rows, b.cols);
      }
    }
  }

  /** KroneckerTensor::product: fills an (ar * br) x (ac * bc) buffer by four
      nested loops, writing a(i, j) * b(k, l) at (i * br + k, j * bc + l). */
  method Product(a: Matrix, b: Matrix) returns (m: Matrix)
    ensures m == Kron(a, b)
  {
    var ar, ac, br, bc := a.rows, a.cols, b.rows, b.cols;
    var res := new C.Complex[ar * br, ac * bc]((_, _) => C.Zero);
    ghost var n := 0;
    for i := 0 to ar
      invariant n == Visited(i, 0, 0, 0, ac, br, bc)
      invariant Filled(res, a, b, n)
    {
      for j := 0 to ac
        invariant n == Visited(i, j, 0, 0, ac, br, bc)
        invariant Filled(res, a, b, n)
      {
        for k := 0 to br
          invariant n == Visited(i, j, k, 0, ac, br, bc)
          invariant Filled(res, a, b, n)
        {
          for l := 0 to bc
            invariant n == Visited(i, j, k, l, ac, br, bc)
            invariant Filled(res, a, b, n)
          {
            Put(res, a, b, i, j, k, l, n);
            n := n + 1;
          }
          NextRow(i, j, k, ac, br, bc);
        }
        NextColumn(i, j, ac, br, bc);
      }
      NextBlockRow(i, ac, br, bc);
    }
    m := Contents(res);
    forall p, q | 0 <= p < res.Length0 && 0 <= q < res.Length1
      ensures At(m, p, q) == At(Kron(a, b), p, q)
    {
      assert Filled(res, a, b, n);
      VisitBound(p, q, ar, ac, br, bc);
    }
    Ext(m, Kron(a, b));
  }

  /** The cell the loops write at a(i, j) and b(k, l) is in range, holds
      the entry of the product, and is visited n-th when n cells came
      before it. */
  lemma WrittenCell(a: Matrix, b: Matrix, i: int, j: int, k: int, l: int)
    requires 0 <= i < a.rows && 0 <= j < a.cols && 0 <= k < b.rows && 0 <= l < b.cols
    ensures 0 <= Cell(i, b.rows, k) < a.rows * b.rows && 0 <= Cell(j, b.cols, l) < a.cols * b.cols
    ensures KronEntry(a, b, Cell(i, b.rows, k), Cell(j, b.cols, l)) == C.Mul(At(a, i, j), At(b, k, l))
    ensures VisitOf(Cell(i, b.rows, k), Cell(j, b.cols, l), a.cols, b.rows, b.cols)
         == Visited(i, j, k, l, a.cols, b.rows, b.cols)
  {
    Arith.CellBound(i, k, b.rows, a.rows);
    Arith.CellBound(j, l, b.cols, a.cols);
    Arith.DivModUnique(Cell(i, b.rows, k), b.rows, i, k);
    Arith.DivModUnique(Cell(j, b.cols, l), b.cols, j, l);
  }

  /** No two cells of the product share a visit number. */
  lemma VisitInjective(p: int, q: int, p': int, q': int, ar: nat, ac: nat, br: nat, bc: nat)
    requires 0 <= p < ar * br && 0 <= q < ac * bc && 0 <= p' < ar * br && 0 <= q' < ac * bc
    requires VisitOf(p, q, ac, br, bc) == VisitOf(p', q', ac, br, bc)
    ensures p == p' && q == q'
  {
    assert br > 0 && bc > 0;
    Arith.DivBound(q, bc, ac);
    Arith.DivBound(q', bc, ac);
    var x := VisitOf(p, q, ac, br, bc);
    Arith.DivModUnique(x, bc, (p / br * ac + q / bc) * br + p % br, q % bc);
    Arith.DivModUnique(x, bc, (p' / br * ac + q' / bc) * br + p' % br, q' % bc);
    var y := x / bc;
    Arith.DivModUnique(y, br, p / br * ac + q / bc, p % br);
    Arith.DivModUnique(y, br, p' / br * ac + q' / bc, p' % br);
    var z := y / br;
    Arith.DivModUnique(z, ac, p / br, q / bc);
    Arith.DivModUnique(z, ac, p' / br, q' / bc);
    Arith.DivModSplit(p, br);
    Arith.DivModSplit(p', br);
    Arith.DivModSplit(q, bc);
    Arith.DivModSplit(q', bc);
  }

  /** Every cell of the product is visited before the loops end. */
  lemma VisitBound(p: int, q: int, ar: nat, ac: nat, br: nat, bc: nat)
    requires 0 <= p < ar * br && 0 <= q < ac * bc
    ensures 0 <= VisitOf(p, q, ac, br, bc) < Visited(ar, 0, 0, 0, ac, br, bc)
  {
    assert br > 0 && bc > 0;
    Arith.DivBound(p, br, ar);
    Arith.DivBound(q, bc, ac);
    Arith.CellBound(p / br, q / bc, ac, ar);
    Arith.CellBound(p / br * ac + q / bc, p % br, br, ar * ac);
    Arith.CellBound((p / br * ac + q / bc) * br + p % br, q % bc, bc, ar * ac * br);
  }

  lemma NextRow(i: int, j: int, k: int, ac: int, br: int, bc: int)
    ensures Visited(i, j, k, bc, ac, br, bc) == Visited(i, j, k + 1, 0, ac, br, bc)
  {
    Arith.MulDistrib((i * ac + j) * br + k, 1, bc);
  }

  lemma NextColumn(i: int, j: int, ac: int, br: int, bc: int)
    ensures Visited(i, j, br, 0, ac, br, bc) == Visited(i, j + 1, 0, 0, ac, br, bc)
  {
    Arith.MulDistrib(i * ac + j, 1, br);
  }

  lemma NextBlockRow(i: int, ac: int, br: int, bc: int)
    ensures Visited(i, ac, 0, 0, ac, br, bc) == Visited(i + 1, 0, 0, 0, ac, br, bc)
  {
    Arith.MulDistrib(i, 1, ac);
  }

  /** KroneckerTensor::getIdentityMatrix. */
  function IdentityMatrix(d: nat): (m: Matrix)
    ensures m.rows == d && m.cols == d
    ensures forall i, j :: 0 <= i < d && 0 <= j < d ==> At(m, i, j) == (if i == j then C.One else C.Zero)
  {
    Identity(d)
  }

  /** KroneckerTensor::expand: starting from [1], multiplies in turn by the
      given operator at the chosen subsystem and by the identity of each
      other subsystem's dimension.  The operator's size is not compared with
      the dimension it replaces. */
  method Expand(initial: Matrix, index: int, dims: seq<nat>) returns (res: Matrix)
    ensures res == Expanded(initial, index, dims)
  {
    res := Identity(1);
    for i := 0 to |dims|
      invariant res == ExpandPrefix(initial, index, dims, i)
    {
      if i == index {
        res := Product(res, initial);
      } else {
        res := Product(res, IdentityMatrix(dims[i]));
      }
    }
  }

  // ---------------------------------------------------------------------
  // Properties of the product.

  /** (i, k) |-> i * d + k maps [0, n) x [0, d) one to one onto [0, n * d):
      the cell is in range and gives back i and k by division and
      remainder, and every position in range is the cell of its quotient
      and remainder. */
  lemma CellBijection(n: int, d: int)
    requires n >= 0 && d > 0
    ensures forall i, k :: 0 <= i < n && 0 <= k < d ==>
      0 <= Cell(i, d, k) < n * d && Cell(i, d, k) / d == i && Cell(i, d, k) % d == k
    ensures forall p :: 0 <= p < n * d ==> 0 <= p / d < n && Cell(p / d, d, p % d) == p
  {
    forall i, k | 0 <= i < n && 0 <= k < d
      ensures 0 <= Cell(i, d, k) < n * d && Cell(i, d, k) / d == i && Cell(i, d, k) % d == k
    {
      Arith.CellBound(i, k, d, n);
      Arith.DivModUnique(Cell(i, d, k), d, i, k);
    }
    forall p | 0 <= p < n * d
      ensures 0 <= p / d < n && Cell(p / d, d, p % d) == p
    {
      Arith.DivBound(p, d, n);
      Arith.DivModSplit(p, d);
    }
  }

  /** Entry (i * br + k, j * bc + l) of a (x) b is a(i, j) * b(k, l), the
      value the four loops of product write there. */
  lemma KronEntryAt(a: Matrix, b: Matrix, i: int, j: int, k: int, l: int)
    requires 0 <= i < a.rows && 0 <= j < a.cols && 0 <= k < b.rows && 0 <= l < b.cols
    ensures At(Kron(a, b), Cell(i, b.rows, k), Cell(j, b.cols, l)) == C.Mul(At(a, i, j), At(b, k, l))
  {
    Arith.CellBound(i, k, b.rows, a.rows);
    Arith.CellBound(j, l, b.cols, a.cols);
    Arith.DivModUnique(Cell(i, b.rows, k), b.rows, i, k);
    Arith.DivModUnique(Cell(j, b.cols, l), b.cols, j, l);
  }

  /** Entry (p, q) of a (x) b, for (p, q) within its shape, with the block
      and the position inside the block in range. */
  lemma KronAt(a: Matrix, b: Matrix, p: int, q: int)
    requires 0 <= p < a.rows * b.rows && 0 <= q < a.cols * b.cols
    ensures b.rows > 0 && b.cols > 0
    ensures 0 <= p / b.rows < a.rows && 0 <= q / b.cols < a.cols
    ensures 0 <= p % b.rows < b.rows && 0 <= q % b.cols < b.cols
    ensures At(Kron(a, b), p, q) == C.Mul(At(a, p / b.rows, q / b.cols), At(b, p % b.rows, q % b.cols))
  {
    Arith.DivBound(p, b.rows, a.rows);
    Arith.DivBound(q, b.cols, a.cols);
    Arith.DivModSplit(p, b.rows);
    Arith.DivModSplit(q, b.cols);
  }

  /** [1] (x) m == m. */
  lemma KronLeftUnit(m: Matrix)
    ensures Kron(Identity(1), m) == m
  {
    var k := Kron(Identity(1), m);
    forall p, q | 0 <= p < m.rows && 0 <= q < m.cols
      ensures At(k, p, q) == At(m, p, q)
    {
      Arith.DivModUnique(p, m.rows, 0, p);
      Arith.DivModUnique(q, m.cols, 0, q);
      C.MulUnits(At(m, p, q));
    }
    Ext(k, m);
  }

  /** I_m (x) I_n == I_(m * n). */
  lemma KronIdentity(m: nat, n: nat)
    ensures Kron(Identity(m), Identity(n)) == Identity(m * n)
  {
    var k := Kron(Identity(m), Identity(n));
    forall p, q | 0 <= p < m * n && 0 <= q < m * n
      ensures At(k, p, q) == At(Identity(m * n), p, q)
    {
      KronIdentityAt(m, n, p, q);
    }
    Ext(k, Identity(m * n));
  }

  lemma KronIdentityAt(m: nat, n: nat, p: int, q: int)
    requires 0 <= p < m * n && 0 <= q < m * n
    ensures At(Kron(Identity(m), Identity(n)), p, q) == (if p == q then C.One else C.Zero)
  {
    KronAt(Identity(m), Identity(n), p, q);
    BlockUnits(m, n, p, q);
  }

  /** Entry (p, q) of I_m (x) I_n is the product of the identity entries
      of its block and of its place in the block, which is 1 exactly on
      the diagonal. */
  lemma BlockUnits(m: nat, n: nat, p: int, q: int)
    requires n > 0 && 0 <= p / n < m && 0 <= q / n < m && 0 <= p % n < n && 0 <= q % n < n
    ensures C.Mul(At(Identity(m), p / n, q / n), At(Identity(n), p % n, q % n)) == (if p == q then C.One else C.Zero)
  {
    IdentityAt(m, p / n, q / n);
    IdentityAt(n, p % n, q % n);
    Arith.DivModEq(p, q, n);
    UnitMul(At(Identity(m), p / n, q / n), At(Identity(n), p % n, q % n), p / n == q / n, p % n == q % n, p == q);
  }

  /** A product of two units is 1 exactly when both are. */
  lemma UnitMul(x: C.Complex, y: C.Complex, a: bool, b: bool, c: bool)
    requires c <==> a && b
    requires x == (if a then C.One else C.Zero) && y == (if b then C.One else C.Zero)
    ensures C.Mul(x, y) == (if c then C.One else C.Zero)
  {
    C.MulUnits(y);
  }

  /** a (x) (b + c) == a (x) b + a (x) c. */
  lemma KronAddRight(a: Matrix, b: Matrix, c: Matrix)
    requires b.rows == c.rows && b.cols == c.cols
    ensures Kron(a, Add(b, c)) == Add(Kron(a, b), Kron(a, c))
  {
    var l, r := Kron(a, Add(b, c)), Add(Kron(a, b), Kron(a, c));
    forall p, q | 0 <= p < l.rows && 0 <= q < l.cols
      ensures At(l, p, q) == At(r, p, q)
    {
      KronAt(a, Add(b, c), p, q);
      KronAt(a, b, p, q);
      KronAt(a, c, p, q);
      var x := At(a, p / b.rows, q / b.cols);
      var s, t := p % b.rows, q % b.cols;
      assert At(Add(b, c), s, t) == C.Add(At(b, s, t), At(c, s, t));
      C.MulAddDistrib(x, At(b, s, t), At(c, s, t));
    }
    Ext(l, r);
  }

  /** (a + b) (x) c == a (x) c + b (x) c. */
  lemma KronAddLeft(a: Matrix, b: Matrix, c: Matrix)
    requires a.rows == b.rows && a.cols == b.cols
    ensures Kron(Add(a, b), c) == Add(Kron(a, c), Kron(b, c))
  {
    var l, r := Kron(Add(a, b), c), Add(Kron(a, c), Kron(b, c));
    forall p, q | 0 <= p < l.rows && 0 <= q < l.cols
      ensures At(l, p, q) == At(r, p, q)
    {
      KronAt(Add(a, b), c, p, q);
      KronAt(a, c, p, q);
      KronAt(b, c, p, q);
      var y := At(c, p % c.rows, q % c.cols);
      var i, j := p / c.rows, q / c.cols;
      assert At(Add(a, b), i, j) == C.Add(At(a, i, j), At(b, i, j));
      C.MulAddDistrib(y, At(a, i, j), At(b, i, j));
    }
    Ext(l, r);
  }

  /** (a (x) b)* == a* (x) b*. */
  lemma KronAdjoint(a: Matrix, b: Matrix)
    ensures Adjoint(Kron(a, b)) == Kron(Adjoint(a), Adjoint(b))
  {
    var l, r := Adjoint(Kron(a, b)), Kron(Adjoint(a), Adjoint(b));
    forall p, q | 0 <= p < l.rows && 0 <= q < l.cols
      ensures At(l, p, q) == At(r, p, q)
    {
      KronAt(a, b, q, p);
      KronAt(Adjoint(a), Adjoint(b), p, q);
      C.ConjMul(At(a, q / b.rows, p / b.cols), At(b, q % b.rows, p % b.cols));
    }
    Ext(l, r);
  }

  /** a (x) 0 == 0 and 0 (x) b == 0. */
  lemma KronZeros(a: Matrix, b: Matrix)
    ensures Kron(a, Zeros(b.rows, b.cols)) == Zeros(a.rows * b.rows, a.cols * b.cols)
    ensures Kron(Zeros(a.rows, a.cols), b) == Zeros(a.rows * b.rows, a.cols * b.cols)
  {
    var z := Zeros(a.rows * b.rows, a.cols * b.cols);
    var l, r := Kron(a, Zeros(b.rows, b.cols)), Kron(Zeros(a.rows, a.cols), b);
    forall p, q | 0 <= p < z.rows && 0 <= q < z.cols
      ensures At(l, p, q) == At(z, p, q) && At(r, p, q) == At(z, p, q)
    {
      KronAt(a, Zeros(b.rows, b.cols), p, q);
      KronAt(Zeros(a.rows, a.cols), b, p, q);
      C.MulUnits(At(a, p / b.rows, q / b.cols));
      C.MulUnits(At(b, p % b.rows, q % b.cols));
    }
    Ext(l, z);
    Ext(r, z);
  }

  // ---------------------------------------------------------------------
  // Properties of expand.

  /** The expanded operator is square over the product of the factor sides:
      the operator's size at the chosen subsystem and the dimension
      elsewhere. */
  lemma {:induction false} ExpandPrefixShape(initial: Matrix, index: int, dims: seq<nat>, n: nat)
    requires n <= |dims|
    ensures ExpandPrefix(initial, index, dims, n).rows == HilbertSpaces.Product(Sides(initial.rows, index, dims)[..n])
    ensures ExpandPrefix(initial, index, dims, n).cols == HilbertSpaces.Product(Sides(initial.cols, index, dims)[..n])
  {
    if n > 0 {
      ExpandPrefixShape(initial, index, dims, n - 1);
      assert Sides(initial.rows, index, dims)[..n][..n - 1] == Sides(initial.rows, index, dims)[..n - 1];
      assert Sides(initial.cols, index, dims)[..n][..n - 1] == Sides(initial.cols, index, dims)[..n - 1];
    }
  }

  lemma ExpandShape(initial: Matrix, index: int, dims: seq<nat>)
    ensures Expanded(initial, index, dims).rows == HilbertSpaces.Product(Sides(initial.rows, index, dims))
    ensures Expanded(initial, index, dims).cols == HilbertSpaces.Product(Sides(initial.cols, index, dims))
  {
    ExpandPrefixShape(initial, index, dims, |dims|);
    assert Sides(initial.rows, index, dims)[..|dims|] == Sides(initial.rows, index, dims);
    assert Sides(initial.cols, index, dims)[..|dims|] == Sides(initial.cols, index, dims);
  }

  /** For a single subsystem, expand returns the operator itself. */
  lemma ExpandSingle(initial: Matrix, d: nat)
    ensures Expanded(initial, 0, [d]) == initial
  {
    assert ExpandPrefix(initial, 0, [d], 1) == Kron(Identity(1), initial);
    KronLeftUnit(initial);
  }

  /** When every factor is an identity, the product of the first n factors
      is the identity of the product of the first n dimensions. */
  lemma {:induction false} ExpandPrefixIdentity(initial: Matrix, index: int, dims: seq<nat>, n: nat)
    requires n <= |dims|
    requires 0 <= index < n ==> initial == Identity(dims[index])
    ensures ExpandPrefix(initial, index, dims, n) == Identity(HilbertSpaces.Product(dims[..n]))
  {
    if n == 0 {
      assert dims[..0] == [];
    } else {
      ExpandPrefixIdentity(initial, index, dims, n - 1);
      assert dims[..n][..n - 1] == dims[..n - 1];
      KronIdentity(HilbertSpaces.Product(dims[..n - 1]), dims[n - 1]);
    }
  }

  /** An index outside [0, rank) expands to the identity of the whole
      space. */
  lemma ExpandOutside(initial: Matrix, index: int, dims: seq<nat>)
    requires index < 0 || index >= |dims|
    ensures Expanded(initial, index, dims) == Identity(HilbertSpaces.Product(dims))
  {
    ExpandPrefixIdentity(initial, index, dims, |dims|);
    assert dims[..|dims|] == dims;
  }

  /** Expanding the identity of a subsystem gives the identity of the whole
      space. */
  lemma ExpandIdentity(index: int, dims: seq<nat>)
    requires 0 <= index < |dims|
    ensures Expanded(Identity(dims[index]), index, dims) == Identity(HilbertSpaces.Product(dims))
  {
    ExpandPrefixIdentity(Identity(dims[index]), index, dims, |dims|);
    assert dims[..|dims|] == dims;
  }

  /** Before the chosen subsystem every factor is an identity, so the
      prefix does not depend on the operator. */
  lemma {:induction false} ExpandPrefixBefore(b: Matrix, c: Matrix, index: int, dims: seq<nat>, n: nat)
    requires n <= index && n <= |dims|
    ensures ExpandPrefix(b, index, dims, n) == ExpandPrefix(c, index, dims, n)
  {
    if n > 0 {
      ExpandPrefixBefore(b, c, index, dims, n - 1);
    }
  }

  /** From the chosen subsystem on, the prefix is additive in the
      operator. */
  lemma {:induction false} ExpandPrefixAdd(b: Matrix, c: Matrix, index: int, dims: seq<nat>, n: nat)
    requires b.rows == c.rows && b.cols == c.cols
    requires 0 <= index < n <= |dims|
    ensures
      var pb, pc := ExpandPrefix(b, index, dims, n), ExpandPrefix(c, index, dims, n);
      pb.rows == pc.rows && pb.cols == pc.cols &&
      ExpandPrefix(Add(b, c), index, dims, n) == Add(pb, pc)
  {
    var m := n - 1;
    ExpandPrefixShape(b, index, dims, m);
    ExpandPrefixShape(c, index, dims, m);
    if m == index {
      ExpandPrefixBefore(b, Add(b, c), index, dims, m);
      ExpandPrefixBefore(b, c, index, dims, m);
      KronAddRight(ExpandPrefix(b, index, dims, m), b, c);
    } else {
      ExpandPrefixAdd(b, c, index, dims, m);
      KronAddLeft(ExpandPrefix(b, index, dims, m), ExpandPrefix(c, index, dims, m), Identity(dims[m]));
    }
  }

  /** Expansion at a subsystem in range is additive in the operator. */
  lemma ExpandAdd(b: Matrix, c: Matrix, index: int, dims: seq<nat>)
    requires b.rows == c.rows && b.cols == c.cols
    requires 0 <= index < |dims|
    ensures Expanded(b, index, dims).rows == Expanded(c, index, dims).rows
    ensures Expanded(b, index, dims).cols == Expanded(c, index, dims).cols
    ensures Expanded(Add(b, c), index, dims) == Add(Expanded(b, index, dims), Expanded(c, index, dims))
  {
    ExpandPrefixAdd(b, c, index, dims, |dims|);
  }

  /** Expanding the zero operator at a subsystem in range gives zero. */
  lemma {:induction false} ExpandPrefixZeros(r: nat, c: nat, index: int, dims: seq<nat>, n: nat)
    requires 0 <= index < |dims| && n <= |dims|
    ensures n > index ==> ExpandPrefix(Zeros(r, c), index, dims, n) == Zeros(
      ExpandPrefix(Zeros(r, c), index, dims, n).rows, ExpandPrefix(Zeros(r, c), index, dims, n).cols)
  {
    if n > index {
      var m := n - 1;
      var z := Zeros(r, c);
      ExpandPrefixZeros(r, c, index, dims, m);
      var pm := ExpandPrefix(z, index, dims, m);
      if m == index {
        KronZeros(pm, z);
      } else {
        KronZeros(Zeros(pm.rows, pm.cols), Identity(dims[m]));
      }
    }
  }

  lemma ExpandZeros(r: nat, c: nat, index: int, dims: seq<nat>)
    requires 0 <= index < |dims|
    ensures Expanded(Zeros(r, c), index, dims) ==
      Zeros(Expanded(Zeros(r, c), index, dims).rows, Expanded(Zeros(r, c), index, dims).cols)
  {
    ExpandPrefixZeros(r, c, index, dims, |dims|);
  }
}
