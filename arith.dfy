/** Integer facts behind the index arithmetic of the composite space and
    of the Kronecker product: the pair (q, r) with 0 <= r < d is recovered
    from q * d + r by division and remainder. */
module Arith {

  lemma MulAssoc(a: int, b: int, c: int)
    ensures (a * b) * c == a * (b * c)
  {
  }

  lemma MulDistrib(a: int, b: int, c: int)
    ensures (a + b) * c == a * c + b * c
  {
  }

  lemma MulMonotone(a: int, b: int, d: int)
    requires a <= b && d >= 0
    ensures a * d <= b * d
  {
    MulDistrib(b - a, a, d);
  }

  /** Division and remainder by a positive d are the unique (q, r). */
  lemma DivModUnique(x: int, d: int, q: int, r: int)
    requires d > 0 && 0 <= r < d && x == q * d + r
    ensures x / d == q && x % d == r
  {
    var q', r' := x / d, x % d;
    assert x == q' * d + r';
    if q' > q {
      MulMonotone(q + 1, q', d);
      MulDistrib(q, 1, d);
    } else if q' < q {
      MulMonotone(q' + 1, q, d);
      MulDistrib(q', 1, d);
    }
  }

  /** x is recovered from its quotient and remainder by a positive d. */
  lemma DivModSplit(x: int, d: int)
    requires d > 0
    ensures x == (x / d) * d + x % d && 0 <= x % d < d
  {
  }

  /** Two numbers are equal exactly when their quotients and remainders by
      a positive d are. */
  lemma DivModEq(x: int, y: int, d: int)
    requires d > 0
    ensures x == y <==> (x / d == y / d && x % d == y % d)
  {
    if x / d == y / d && x % d == y % d {
      DivModSplit(x, d);
      DivModSplit(y, d);
    }
  }

  /** q * d + r stays below p * d when q < p and r < d. */
  lemma CellBound(q: int, r: int, d: int, p: int)
    requires 0 <= q < p && 0 <= r < d
    ensures 0 <= q * d + r < p * d
  {
    MulMonotone(q + 1, p, d);
    MulDistrib(q, 1, d);
    MulMonotone(0, q, d);
  }

  /** x / d stays below p when x < p * d. */
  lemma DivBound(x: int, d: int, p: int)
    requires d > 0 && 0 <= x < p * d
    ensures 0 <= x / d < p
  {
    if x / d >= p {
      MulMonotone(p, x / d, d);
    }
  }
}
