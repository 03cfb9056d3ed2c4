/** The 128-bit multiply-and-divide that every fee, share and slash amount goes through. */
module SafeMath {
  import opened Words

  lemma MulMonotone(c: nat, x: int, y: int)
    requires x <= y
    ensures c * x <= c * y
  {
    assert c * (y - x) >= 0;
  }

  lemma MulCancel(c: int, x: int, y: int)
    requires c > 0 && c * x < c * y
    ensures x < y
  {
    if y <= x {
      MulMonotone(c, y, x);
    }
  }

  /** x / c lies below any bound whose c-fold exceeds x, and reaches any bound whose c-fold x reaches. */
  lemma DivBounds(x: nat, c: int, bound: int)
    requires c > 0
    ensures x < c * bound ==> x / c < bound
    ensures c * bound <= x ==> bound <= x / c
  {
    var q := x / c;
    assert x == c * q + x % c;
    if bound <= q {
      MulMonotone(c, bound, q);
    } else {
      MulMonotone(c, q + 1, bound);
    }
  }

  /** bits.Div64: the quotient of the 128-bit number hi:lo by c; it panics unless hi < c. */
  function Div64(hi: Uint64, lo: Uint64, c: Uint64): (q: Uint64)
    requires hi < c
  {
    assert hi * TWO64 + lo < c * TWO64;
    DivBounds(hi * TWO64 + lo, c, TWO64);
    (hi * TWO64 + lo) / c
  }

  /** a * b / c with a 128-bit product, clamped when the quotient does not fit. */
  function MulDiv(a: Uint64, b: Uint64, c: Uint64): (r: Uint64)
    requires c > 0
  {
    ProductFits(a, b);
    var hi, lo := a * b / TWO64, a * b % TWO64;
    if hi == 0 then lo / c
    else if hi >= c then MAX64
    else Div64(hi, lo, c)
  }

  lemma ProductFits(a: Uint64, b: Uint64)
    ensures 0 <= a * b / TWO64 < TWO64
  {
    MulMonotone(a, b, TWO64 - 1);
    MulMonotone(a, 0, b);
    assert a * (TWO64 - 1) < TWO64 * TWO64;
    DivBounds(a * b, TWO64, TWO64);
  }

  /** MulDiv is the exact floor of a * b / c, clamped at the largest uint64. */
  lemma MulDivIsClampedFloor(a: Uint64, b: Uint64, c: Uint64)
    requires c > 0
    ensures MulDiv(a, b, c) == Min(a * b / c, MAX64)
  {
    ProductFits(a, b);
    MulMonotone(a, 0, b);
    var product := a * b;
    var hi, lo := product / TWO64, product % TWO64;
    assert product == hi * TWO64 + lo;
    DivBounds(product, c, TWO64);
    if hi >= c {
      assert c * TWO64 <= product;
    }
  }

  /** A fraction b/c of at most one never clamps: the result is the exact floor and at most a. */
  lemma MulDivFraction(a: Uint64, b: Uint64, c: Uint64)
    requires b <= c && c > 0
    ensures MulDiv(a, b, c) == a * b / c
    ensures MulDiv(a, b, c) <= a
    ensures c * MulDiv(a, b, c) <= a * b < c * MulDiv(a, b, c) + c
  {
    MulDivIsClampedFloor(a, b, c);
    FloorFacts(a, b, c);
  }

  lemma FloorFacts(a: nat, b: nat, c: nat)
    requires b <= c && c > 0
    ensures a * b / c <= a
    ensures c * (a * b / c) <= a * b < c * (a * b / c) + c
  {
    MulMonotone(a, b, c);
    MulMonotone(a, 0, b);
    var x := a * b;
    assert x == c * (x / c) + x % c;
    assert c * (a + 1) == a * c + c;
    DivBounds(x, c, a + 1);
  }

  /** Quotient and remainder are determined. */
  lemma DivUnique(x: int, c: int, q: int, r: int)
    requires c > 0 && 0 <= r < c && x == c * q + r
    ensures x / c == q && x % c == r
  {
    var d := x / c - q;
    assert x == c * (x / c) + x % c;
    assert c * d == c * (x / c) - c * q;
    if d > 0 {
      MulMonotone(c, 1, d);
    } else if d < 0 {
      MulMonotone(c, d, -1);
    }
  }
}
