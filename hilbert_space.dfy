/** The composite-space indexer: a Hilbert space given by the ordered list of
    its subsystem dimensions, its total dimension (their product), and the
    conversion between a flat basis index and the tuple of subsystem indices,
    with the last subsystem varying fastest. */
module HilbertSpaces {
  import opened Wrappers
  import C = ComplexNumbers
  import Arith

  // ---------------------------------------------------------------------
  // Specification on values.

  /** The product of the dimensions, accumulated left to right from 1 as the
      constructor's loop does. */
  function Product(dims: seq<nat>): nat {
    if |dims| == 0 then 1 else Product(dims[..|dims| - 1]) * dims[|dims| - 1]
  }

  predicate AllPositive(dims: seq<nat>) {
    forall i :: 0 <= i < |dims| ==> dims[i] > 0
  }

  /** The mixed-radix digits of x: the last digit is x modulo the last
      dimension, the rest are the digits of the quotient over the remaining
      dimensions. */
  function Digits(dims: seq<nat>, x: nat): seq<int>
    requires AllPositive(dims)
  {
    if |dims| == 0 then []
    else
      var d := dims[|dims| - 1];
      Digits(dims[..|dims| - 1], x / d) + [x % d]
  }

  /** One step of Digits on the first i + 1 dimensions: the digit of the
      last of them is the remainder, the rest are the digits of the
      quotient. */
  lemma DigitsStep(dims: seq<nat>, i: int, x: nat)
    requires AllPositive(dims) && 0 <= i < |dims|
    ensures Digits(dims[..i + 1], x) == Digits(dims[..i], x / dims[i]) + [x % dims[i]]
  {
    assert dims[..i + 1][..i] == dims[..i];
  }

  /** The flat index of a tuple: Horner's rule over the dimensions, so that
      the last subsystem varies fastest. */
  function Index(dims: seq<nat>, v: seq<int>): int
    requires |v| == |dims|
  {
    if |dims| == 0 then 0
    else Index(dims[..|dims| - 1], v[..|v| - 1]) * dims[|dims| - 1] + v[|v| - 1]
  }

  predicate InRange(dims: seq<nat>, v: seq<int>)
    requires |v| == |dims|
  {
    forall j :: 0 <= j < |v| ==> 0 <= v[j] < dims[j]
  }

  /** The unit vector of length n with a one at position k. */
  function BasisVector(n: nat, k: int): seq<C.Complex> {
    seq(n, j => if j == k then C.One else C.Zero)
  }

  // ---------------------------------------------------------------------
  // Properties of the specification.

  lemma {:induction false} ProductAppend(a: seq<nat>, b: seq<nat>)
    ensures Product(a + b) == Product(a) * Product(b)
  {
    if |b| > 0 {
      var b' := b[..|b| - 1];
      assert (a + b)[..|a + b| - 1] == a + b';
      ProductAppend(a, b');
      Arith.MulAssoc(Product(a), Product(b'), b[|b| - 1]);
    } else {
      assert a + b == a;
    }
  }

  lemma {:induction false} ProductPositive(dims: seq<nat>)
    requires AllPositive(dims)
    ensures Product(dims) > 0
  {
    if |dims| > 0 {
      ProductPositive(dims[..|dims| - 1]);
      Arith.MulMonotone(1, Product(dims[..|dims| - 1]), dims[|dims| - 1]);
    }
  }

  /** Product of a list that starts with a. */
  lemma ProductCons(a: nat, dims: seq<nat>)
    ensures Product([a] + dims) == a * Product(dims)
  {
    ProductAppend([a], dims);
    assert [a][..0] == [];
  }

  /** Every digit lies within its subsystem's dimension, and there is one
      digit per subsystem. */
  lemma {:induction false} DigitsInRange(dims: seq<nat>, x: nat)
    requires AllPositive(dims)
    ensures |Digits(dims, x)| == |dims|
    ensures InRange(dims, Digits(dims, x))
  {
    if |dims| > 0 {
      var d := dims[|dims| - 1];
      DigitsInRange(dims[..|dims| - 1], x / d);
    }
  }

  /** Decoding then encoding gives back every flat index below the total. */
  lemma {:induction false} IndexOfDigits(dims: seq<nat>, x: nat)
    requires AllPositive(dims) && x < Product(dims)
    ensures |Digits(dims, x)| == |dims|
    ensures Index(dims, Digits(dims, x)) == x
  {
    DigitsInRange(dims, x);
    if |dims| > 0 {
      var n := |dims|;
      var d, dims' := dims[n - 1], dims[..n - 1];
      Arith.DivBound(x, d, Product(dims'));
      IndexOfDigits(dims', x / d);
      var v := Digits(dims, x);
      assert v[..n - 1] == Digits(dims', x / d);
    }
  }

  /** Encoding a tuple within range gives a flat index below the total, and
      decoding it gives the tuple back. */
  lemma {:induction false} DigitsOfIndex(dims: seq<nat>, v: seq<int>)
    requires AllPositive(dims) && |v| == |dims| && InRange(dims, v)
    ensures 0 <= Index(dims, v) < Product(dims)
    ensures Digits(dims, Index(dims, v)) == v
  {
    if |dims| > 0 {
      var n := |dims|;
      var d, dims', v' := dims[n - 1], dims[..n - 1], v[..n - 1];
      DigitsOfIndex(dims', v');
      var q := Index(dims', v');
      Arith.CellBound(q, v[n - 1], d, Product(dims'));
      Arith.DivModUnique(Index(dims, v), d, q, v[n - 1]);
      assert v == v' + [v[n - 1]];
    }
  }

  /** The flat index of a tuple that starts with x. */
  lemma {:induction false} IndexCons(a: nat, dims: seq<nat>, x: int, v: seq<int>)
    requires |v| == |dims|
    ensures Index([a] + dims, [x] + v) == x * Product(dims) + Index(dims, v)
  {
    var n := |dims|;
    if n == 0 {
      assert [a] + dims == [a] && [x] + v == [x];
      assert [a][..0] == [] && [x][..0] == [];
    } else {
      var dims', v' := dims[..n - 1], v[..n - 1];
      assert ([a] + dims)[..n] == [a] + dims';
      assert ([x] + v)[..n] == [x] + v';
      IndexCons(a, dims', x, v');
      Arith.MulDistrib(x * Product(dims'), Index(dims', v'), dims[n - 1]);
      Arith.MulAssoc(x, Product(dims'), dims[n - 1]);
    }
  }

  /** In the space [3, 4] the flat index 6 is the basis tuple (1, 2), and
      back. */
  lemma ThreeByFourExample()
    ensures Digits([3, 4], 6) == [1, 2]
    ensures Index([3, 4], [1, 2]) == 6
  {
    assert [3, 4][..1] == [3];
    assert [1, 2][..1] == [1];
    assert [3][..0] == [] && [1][..0] == [];
  }

  // ---------------------------------------------------------------------
  // Findings: getIndex on a rank-0 space.

  /** getIndex as written: it starts from vec[vec.size() - 1] and
      _dimensions[_rank - 1] before testing anything, so a tuple of length 0
      makes it read before the start of both vectors; None stands for that
      read. */
  function IndexAsWritten(dims: seq<nat>, v: seq<int>): Option<int>
    requires |v| == |dims|
  {
    if |v| == 0 then None else Some(Index(dims, v))
  }

  /** A space built from the empty dimension list has total dimension 1 and
      getVector(0) is the empty tuple, yet getIndex of that tuple reads out
      of bounds instead of returning 0: the round trip fails at rank 0. */
  lemma RankZeroRoundTripAsWritten()
    ensures Product([]) == 1 && Digits([], 0) == []
    ensures IndexAsWritten([], Digits([], 0)) == None
    ensures Index([], Digits([], 0)) == 0
  {
  }

  // ---------------------------------------------------------------------
  // The space as an object.

  class HilbertSpace {
    var rank: int
    var dimensions: seq<nat>
    var dim: int

    /** rank is the length of the list, every dimension is positive, and the
        total is their product, or 0 for a space descended from the empty
        placeholder. */
    ghost predicate Valid()
      reads this
    {
      rank == |dimensions| && AllPositive(dimensions) && (dim == Product(dimensions) || dim == 0)
    }

    /** The empty placeholder space: rank 0, total dimension 0. */
    constructor ()
      ensures Valid()
      ensures rank == 0 && dimensions == [] && dim == 0
    {
      rank := 0;
      dimensions := [];
      dim := 0;
    }

    /** Raw field initialiser used by the factory methods below. */
    constructor Of(rank: int, dimensions: seq<nat>, dim: int)
      ensures this.rank == rank && this.dimensions == dimensions && this.dim == dim
    {
      this.rank := rank;
      this.dimensions := dimensions;
      this.dim := dim;
    }

    /** HilbertSpace(uint dim): a single subsystem; zero is refused. */
    static method FromDimension(d: nat) returns (r: Result<HilbertSpace>)
      ensures d == 0 <==> r.Err?
      ensures r.Err? ==> r.error == InvalidArgument(ZeroDimension)
      ensures r.Ok? ==> fresh(r.value) && r.value.Valid()
      ensures r.Ok? ==> r.value.rank == 1 && r.value.dimensions == [d] && r.value.dim == d
    {
      if d == 0 {
        return Err(InvalidArgument(ZeroDimension));
      }
      assert Product([d]) == d by { assert [d][..0] == []; }
      var s := new HilbertSpace.Of(1, [d], d);
      return Ok(s);
    }

    /** HilbertSpace(vector<uint>): multiplies the dimensions in order and
        refuses the list at its first zero. */
    static method FromDimensions(dims: seq<nat>) returns (r: Result<HilbertSpace>)
      ensures r.Ok? <==> AllPositive(dims)
      ensures r.Err? ==> r.error == InvalidArgument(ZeroDimension)
      ensures r.Ok? ==> fresh(r.value) && r.value.Valid()
      ensures r.Ok? ==> r.value.rank == |dims| && r.value.dimensions == dims && r.value.dim == Product(dims)
    {
      var rank := |dims|;
      var dim := 1;
      for i := 0 to rank
        invariant AllPositive(dims[..i])
        invariant dim == Product(dims[..i])
      {
        if dims[i] == 0 {
          return Err(InvalidArgument(ZeroDimension));
        }
        assert dims[..i + 1][..i] == dims[..i];
        dim := dim * dims[i];
      }
      assert dims[..rank] == dims;
      var s := new HilbertSpace.Of(rank, dims, dim);
      return Ok(s);
    }

    /** The copy a C++ value assignment makes. */
    method Clone() returns (c: HilbertSpace)
      ensures fresh(c)
      ensures c.rank == rank && c.dimensions == dimensions && c.dim == dim
    {
      c := new HilbertSpace.Of(rank, dimensions, dim);
    }

    /** HilbertSpace::tensor: a copy of the first space tensored with the
        second; neither operand changes. */
    static method Tensor(first: HilbertSpace, second: HilbertSpace) returns (space: HilbertSpace)
      requires first.Valid() && second.Valid()
      ensures fresh(space) && space.Valid()
      ensures space.dimensions == first.dimensions + second.dimensions
      ensures space.rank == first.rank + second.rank
      ensures space.dim == first.dim * second.dim
    {
      space := first.Clone();
      space.TensorWith(second);
    }

    /** tensorWith: adds the other rank to this one, appends the other
        dimensions one by one and multiplies the totals.  The rank is
        updated before the loop reads the other space's rank, so when the
        other space is this very object the loop copies twice as many
        entries as it should. */
    method TensorWith(second: HilbertSpace)
      requires Valid() && second.Valid()
      modifies this
      ensures second != this ==> Valid()
      ensures second != this ==> dimensions == old(dimensions) + old(second.dimensions)
      ensures second != this ==> rank == old(rank) + old(second.rank)
      ensures second != this ==> dim == old(dim) * old(second.dim)
      ensures second == this ==> rank == 2 * old(rank)
      ensures second == this ==> dimensions == old(dimensions) + old(dimensions) + old(dimensions)
      ensures second == this ==> dim == old(dim) * old(dim)
    {
      ghost var d0, t0 := dimensions, dim;
      ghost var sd, st := second.dimensions, second.dim;
      ghost var src := if second == this then d0 + d0 else sd;
      rank := rank + second.rank;
      ghost var r1 := rank;
      var i := 0;
      while i < second.rank
        invariant 0 <= i <= |src| && second.rank == |src|
        invariant dimensions == d0 + src[..i]
        invariant dim == t0 && rank == r1
        invariant second != this ==> second.dimensions == sd && second.dim == st
      {
        assert second.dimensions[i] == src[i];
        dimensions := dimensions + [second.dimensions[i]];
        assert src[..i + 1] == src[..i] + [src[i]];
        i := i + 1;
      }
      assert src[..i] == src;
      dim := dim * second.dim;
      if second != this {
        ValidAfterTensor(d0, sd, t0, st);
      }
    }

    /** operator==: equality of the dimension lists, not of the totals. */
    predicate Equals(other: HilbertSpace)
      reads this, other
    {
      dimensions == other.dimensions
    }

    function Rank(): (r: int)
      reads this
      requires Valid()
      ensures r == |dimensions| && r >= 0
    {
      rank
    }

    function TotalDimension(): (d: int)
      reads this
      requires Valid()
      ensures d == Product(dimensions) || d == 0
      ensures d >= 0
    {
      dim
    }

    /** dimension(i): out_of_range for a negative index and for one at or
        past the rank; otherwise the i-th dimension. */
    function Dimension(index: int): (r: Result<int>)
      reads this
      requires Valid()
      ensures r.Ok? <==> 0 <= index < |dimensions|
      ensures r.Ok? ==> r.value == dimensions[index] && r.value > 0
      ensures index < 0 ==> r == Err(OutOfRange(NegativeDimensionIndex))
      ensures index >= |dimensions| ==> r == Err(OutOfRange(DimensionIndexTooBig))
    {
      if index < 0 then Err(OutOfRange(NegativeDimensionIndex))
      else if index >= rank then Err(OutOfRange(DimensionIndexTooBig))
      else Ok(dimensions[index])
    }

    /** getVector: refuses an index outside [0, total) and otherwise fills
        the tuple from the last subsystem to the first, taking the remainder
        and dividing the index down. */
    method GetVector(index: int) returns (r: Result<seq<int>>)
      requires Valid()
      ensures !(0 <= index < dim) ==> r == Err(InvalidArgument(IndexOutsideSpace))
      ensures 0 <= index < dim ==> r == Ok(Digits(dimensions, index))
    {
      if index < 0 || index >= dim {
        return Err(InvalidArgument(IndexOutsideSpace));
      }
      var dims := dimensions;
      var vec: seq<int> := [];
      var q: nat := index;
      var i := rank - 1;
      assert dims[..i + 1] == dims;
      while i >= 0
        invariant -1 <= i < |dims|
        invariant Digits(dims[..i + 1], q) + vec == Digits(dims, index)
      {
        DigitsStep(dims, i, q);
        vec := [q % dims[i]] + vec;
        q := q / dims[i];
        i := i - 1;
      }
      assert dims[..0] == [];
      assert Digits(dims[..0], q) == [];
      assert [] + vec == vec;
      assert vec == Digits(dimensions, index);
      return Ok(vec);
    }

    /** getIndex: refuses a tuple whose length is not the rank and otherwise
        accumulates index and multiplier from the last subsystem to the
        first.  A rank-0 space gives index 0 (see IndexAsWritten for what
        the C++ code does there). */
    method GetIndex(v: seq<int>) returns (r: Result<int>)
      requires Valid()
      ensures |v| != rank ==> r == Err(InvalidArgument(TupleSizeMismatch))
      ensures |v| == rank ==> r == Ok(Index(dimensions, v))
    {
      if |v| != rank {
        return Err(InvalidArgument(TupleSizeMismatch));
      }
      if rank == 0 {
        return Ok(0);
      }
      var n := |v|;
      var index := v[n - 1];
      var multiplier := dimensions[rank - 1];
      assert dimensions[n - 1..] == [dimensions[n - 1]] && v[n - 1..] == [v[n - 1]];
      assert [dimensions[n - 1]][..0] == [] && [v[n - 1]][..0] == [];
      var i := n - 2;
      while i >= 0
        invariant -1 <= i <= n - 2
        invariant index == Index(dimensions[i + 1..], v[i + 1..])
        invariant multiplier == Product(dimensions[i + 1..])
      {
        assert dimensions[i..] == [dimensions[i]] + dimensions[i + 1..];
        assert v[i..] == [v[i]] + v[i + 1..];
        IndexCons(dimensions[i], dimensions[i + 1..], v[i], v[i + 1..]);
        ProductCons(dimensions[i], dimensions[i + 1..]);
        index := index + v[i] * multiplier;
        multiplier := multiplier * dimensions[i];
        i := i - 1;
      }
      assert dimensions[0..] == dimensions && v[0..] == v;
      return Ok(index);
    }

    /** getBasisVector: refuses a tuple whose length is not the rank and
        otherwise returns the zero vector of length total with a one at the
        tuple's flat index.  The C++ code writes that position without a
        bounds test, so callers must pass a tuple whose index is in range. */
    method GetBasisVector(v: seq<int>) returns (r: Result<seq<C.Complex>>)
      requires Valid()
      requires |v| == |dimensions| ==> 0 <= Index(dimensions, v) < dim
      ensures |v| != rank ==> r == Err(InvalidArgument(BasisTupleSizeMismatch))
      ensures |v| == rank ==> r == Ok(BasisVector(dim, Index(dimensions, v)))
    {
      if |v| != rank {
        return Err(InvalidArgument(BasisTupleSizeMismatch));
      }
      var vec := new C.Complex[dim](_ => C.Zero);
      var index := GetIndex(v);
      vec[index.value] := C.One;
      assert vec[..] == BasisVector(dim, index.value);
      return Ok(vec[..]);
    }
  }

  /** The fields tensorWith leaves behind satisfy the space invariant. */
  lemma ValidAfterTensor(a: seq<nat>, b: seq<nat>, ta: int, tb: int)
    requires AllPositive(a) && AllPositive(b)
    requires ta == Product(a) || ta == 0
    requires tb == Product(b) || tb == 0
    ensures AllPositive(a + b)
    ensures ta * tb == Product(a + b) || ta * tb == 0
  {
    ProductAppend(a, b);
  }

  /** Equal spaces have the same rank and the same dimension at every
      position, and the same total unless one of them descends from the
      empty placeholder; the converse fails: [4] and [2, 2] have the same
      total but are different spaces. */
  lemma EqualsIsStructural(a: HilbertSpace, b: HilbertSpace)
    requires a.Valid() && b.Valid()
    ensures a.Equals(b) ==> a.rank == b.rank
    ensures a.Equals(b) && a.dim != 0 && b.dim != 0 ==> a.dim == b.dim
    ensures Product([4]) == Product([2, 2]) && [4] != [2, 2]
  {
    assert [4][..0] == [] && [2, 2][..1] == [2] && [2][..0] == [];
  }

  /** getVector then getIndex is the identity on [0, total), and every
      component of getVector lies within its subsystem's dimension. */
  lemma {:induction false} VectorIndexRoundTrip(s: HilbertSpace, x: int)
    requires s.Valid() && 0 <= x < s.dim
    ensures |Digits(s.dimensions, x)| == s.rank
    ensures InRange(s.dimensions, Digits(s.dimensions, x))
    ensures Index(s.dimensions, Digits(s.dimensions, x)) == x
  {
    DigitsInRange(s.dimensions, x);
    IndexOfDigits(s.dimensions, x);
  }

  /** Tensoring adds ranks, concatenates dimension lists and multiplies
      totals; the product of the concatenation is the product of the
      products. */
  lemma TensorTotals(a: seq<nat>, b: seq<nat>)
    requires AllPositive(a) && AllPositive(b)
    ensures AllPositive(a + b)
    ensures |a + b| == |a| + |b|
    ensures Product(a + b) == Product(a) * Product(b)
    ensures Product(a + b) > 0
  {
    ProductAppend(a, b);
    ProductPositive(a + b);
  }
}
