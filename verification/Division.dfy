/** When rounding a quotient to 28 digits and then flooring it is the true
    whole-number quotient. The argument is carried out on whole numbers: `n / d`
    is the quotient, `w` the power of ten it is scaled by before rounding. */
module Division {
  import opened Decimals

  lemma MulLe(a: int, b: int, c: int)
    requires a <= b && c >= 0
    ensures a * c <= b * c
  {
  }

  lemma Reorder(a: int, b: int, c: int)
    ensures (a * b) * c == (a * c) * b
  {
  }

  lemma RealProduct(a: int, b: int)
    ensures (a * b) as real == a as real * b as real
  {
  }

  lemma RealLe(a: real, b: real, c: real)
    requires a <= b && c >= 0.0
    ensures a * c <= b * c
  {
  }

  lemma RealLt(a: real, b: real, c: real)
    requires a < b && c > 0.0
    ensures a * c < b * c
  {
  }

  lemma QuotientBounds(n: nat, d: nat)
    requires d > 0
    ensures (n / d) * d <= n && n + 1 <= (n / d + 1) * d
  {
  }

  lemma HalfUnitLinear(md: int, nw: int, a: int, b: int, c: int, e: int, w: int, d: int)
    requires a <= md && c <= b && a == b && c == nw + w && e == 2 * md - d && e <= 2 * nw
    ensures 2 * w <= d
  {
  }

  /** A half-unit rounding error that reaches the next whole number needs a wide divisor. */
  lemma HalfUnit(n: nat, d: nat, w: nat, m: int, next: nat)
    requires (2 * m - 1) * d <= 2 * (n * w)
    requires n + 1 <= next * d && m >= next * w
    ensures 2 * w <= d
  {
    MulLe(next * w, m, d);
    MulLe(n + 1, next * d, w);
    Reorder(next, w, d);
    HalfUnitLinear(m * d, n * w, (next * w) * d, (next * d) * w, (n + 1) * w, (2 * m - 1) * d, w, d);
  }

  lemma NarrowDivisorLinear(nw: int, dt: int, a: int, b: int, c: int, w: int)
    requires dt <= nw && a <= dt && b <= c && b == nw + w && a == c
    ensures w <= 0
  {
  }

  /** Full precision with a numerator below `2 t` leaves no room for such a divisor. */
  lemma NarrowDivisor(n: nat, d: nat, w: nat, t: nat)
    requires t * d <= n * w && n < 2 * t && w > 0
    ensures d < 2 * w
  {
    if d >= 2 * w {
      MulLe(2 * w, d, t);
      MulLe(n + 1, 2 * t, w);
      NarrowDivisorLinear(n * w, d * t, (2 * w) * t, (n + 1) * w, (2 * t) * w, w);
      assert false;
    }
  }

  lemma DoubledError(y: real, n: nat, d: nat, w: nat, m: int)
    requires d > 0 && y * d as real == (n * w) as real
    requires m as real <= y + 0.5
    ensures (2 * m - 1) * d <= 2 * (n * w)
  {
    RealLe((2 * m - 1) as real, y + y, d as real);
    assert (y + y) * d as real == y * d as real + y * d as real;
    RealProduct(2 * m - 1, d);
  }

  lemma FromBelow(y: real, n: nat, d: nat, w: nat, t: nat)
    requires d > 0 && y * d as real == (n * w) as real && t as real <= y
    ensures t * d <= n * w
  {
    RealLe(t as real, y, d as real);
    RealProduct(t, d);
  }

  lemma WholeBelow(y: real, n: nat, d: nat, w: nat, f: nat)
    requires d > 0 && y * d as real == (n * w) as real && f * d <= n
    ensures (f * w) as real <= y
  {
    MulLe(f * d, n, w);
    Reorder(f, d, w);
    RealProduct(f * w, d);
    if (f * w) as real > y {
      RealLt(y, (f * w) as real, d as real);
      assert false;
    }
  }

  lemma RoundedBelowNext(y: real, n: nat, d: nat, w: nat, f: nat)
    requires d > 0 && w > 0 && y * d as real == (n * w) as real
    requires TEN27 as real <= y && n < 2 * TEN27 && n + 1 <= (f + 1) * d
    ensures RoundHalfEven(y) < (f + 1) * w
  {
    var m := RoundHalfEven(y);
    DoubledError(y, n, d, w, m);
    FromBelow(y, n, d, w, TEN27);
    NarrowDivisor(n, d, w, TEN27);
    if m >= (f + 1) * w {
      HalfUnit(n, d, w, m, f + 1);
      assert false;
    }
  }

  /** The scaled quotient rounds to something strictly between the whole multiples around it. */
  lemma RoundedBetween(y: real, n: nat, d: nat, w: nat, f: nat)
    requires d > 0 && w > 0 && y * d as real == (n * w) as real
    requires TEN27 as real <= y && n < 2 * TEN27 && f * d <= n && n + 1 <= (f + 1) * d
    ensures f * w <= RoundHalfEven(y) < (f + 1) * w
  {
    WholeBelow(y, n, d, w, f);
    RoundedBelowNext(y, n, d, w, f);
  }

  lemma FloorOfRatio(m: int, w: nat, f: nat)
    requires w > 0 && f * w <= m < (f + 1) * w
    ensures (m as real / w as real).Floor == f
  {
    var r := m as real / w as real;
    assert r * w as real == m as real;
    RealProduct(f, w);
    RealProduct(f + 1, w);
    NotBelow(r, f as real, w as real, m as real);
    NotReached(r, (f + 1) as real, w as real, m as real);
  }

  lemma NotBelow(r: real, f: real, w: real, m: real)
    requires w > 0.0 && r * w == m && f * w <= m
    ensures f <= r
  {
    if r < f {
      RealLt(r, f, w);
      assert false;
    }
  }

  lemma NotReached(r: real, g: real, w: real, m: real)
    requires w > 0.0 && r * w == m && m < g * w
    ensures r < g
  {
    if r >= g {
      RealLe(g, r, w);
      assert false;
    }
  }

  /** However often the quotient is scaled by ten before it is rounded, the
      rounded value stays between the same two whole numbers of `1 / w`. */
  lemma {:induction false} Round28Between(x: real, n: nat, d: nat, w: nat, f: nat)
    requires 0.0 < x < 10.0 * TEN27 as real && d > 0 && w > 0
    requires x * d as real == (n * w) as real && n < 2 * TEN27 && f * d <= n && n + 1 <= (f + 1) * d
    ensures (f * w) as real <= Round28Positive(x) < ((f + 1) * w) as real
    decreases (TEN27 as real / x).Floor
  {
    if x < TEN27 as real {
      CloserToFull(x);
      ScaledByTen(x, d as real);
      Round28Between(10.0 * x, n, d, 10 * w, f);
      TenfoldBounds(f, w);
    } else {
      RoundedBetween(x, n, d, w, f);
    }
  }

  lemma CloserToFull(x: real)
    requires 0.0 < x < TEN27 as real
    ensures (TEN27 as real / (10.0 * x)).Floor < (TEN27 as real / x).Floor
  {
    assert TEN27 as real / (10.0 * x) == (TEN27 as real / x) / 10.0;
    assert TEN27 as real / x > 1.0;
  }

  lemma ScaledByTen(x: real, d: real)
    ensures (10.0 * x) * d == 10.0 * (x * d)
  {
  }

  lemma TenfoldBounds(f: nat, w: nat)
    ensures f * (10 * w) == 10 * (f * w) && (f + 1) * (10 * w) == 10 * ((f + 1) * w)
  {
  }

  lemma QuotientAtMost(n: nat, d: nat)
    requires d > 0 && n > 0
    ensures (n as real / d as real) * d as real == n as real
    ensures 0.0 < n as real / d as real <= n as real
  {
    var q := n as real / d as real;
    assert q * d as real == n as real;
    if q <= 0.0 { RealLe(q, 0.0, d as real); assert false; }
    RealLe(1.0, d as real, q);
  }

  /** Rounding to 28 digits and then flooring is the true whole-number quotient
      for every numerator below `2 * 10^27`: no contract is rounded into existence. */
  lemma FloorDivExact(n: int, d: int)
    requires d > 0 && n < 2 * TEN27
    ensures FloorDiv(n as real, d as real) == if n <= 0 then 0 else n / d
  {
    if n > 0 {
      QuotientAtMost(n, d);
      QuotientBounds(n, d);
      Round28Between(n as real / d as real, n, d, 1, n / d);
    }
  }

  lemma SameQuotient(x: real, y: real, n: real, d: real, unit: real)
    requires unit > 0.0 && d > 0.0 && x == n * unit && y == d * unit
    ensures y > 0.0 && x / y == n / d
  {
    var q := n / d;
    assert q * d == n;
    assert q * y == (q * d) * unit;
  }

  /** The same for amounts that are whole multiples of a common unit. */
  lemma FloorDivOnGrid(x: real, y: real, n: int, d: int, unit: real)
    requires unit > 0.0 && 0 < d && n < 2 * TEN27
    requires x == n as real * unit && y == d as real * unit
    ensures FloorDiv(x, y) == if n <= 0 then 0 else n / d
  {
    if n > 0 {
      SameQuotient(x, y, n as real, d as real, unit);
      RealLt(0.0, n as real, unit);
      FloorDivExact(n, d);
      assert FloorDiv(x, y) == Div(x, y).Floor;
      assert FloorDiv(n as real, d as real) == Div(n as real, d as real).Floor;
    } else {
      RealLe(n as real, 0.0, unit);
    }
  }

  /** The bound is sharp: three above it, a contract is rounded into existence. */
  lemma FloorDivInexact()
    ensures FloorDiv((2 * TEN27 + 3) as real, 2.0) == (2 * TEN27 + 3) / 2 + 1
  {
    var q := (2 * TEN27 + 3) as real / 2.0;
    assert q == TEN27 as real + 1.5;
    assert RoundHalfEven(q) == TEN27 + 2;
  }

  // ----- quotients that are exact -----------------------------------------------

  /** Rounding to 28 digits leaves a whole number of at most 28 digits as it is. */
  lemma {:induction false} WholeIsExact(n: nat)
    requires 0 < n < 10 * TEN27
    ensures Round28Positive(n as real) == n as real
    decreases 10 * TEN27 - n
  {
    if n < TEN27 {
      WholeIsExact(10 * n);
      assert 10.0 * n as real == (10 * n) as real;
    }
  }

  /** And so does an amount in whole cents, below 10^24. */
  lemma CentsAreExact(x: real)
    requires Hundredths(x) && 0.0 < x < TEN27 as real / 1000.0
    ensures Round28(x) == x
  {
    var n := (100.0 * x).Floor;
    assert 100.0 * x == n as real && 10.0 * (10.0 * x) == n as real;
    WholeIsExact(n);
    assert Round28Positive(10.0 * x) == Round28Positive(100.0 * x) / 10.0;
    assert Round28Positive(x) == Round28Positive(10.0 * x) / 10.0;
  }
}
