/** Facts about products and quotients, one step each, that the solver should not have to find. */
module Arithmetic {

  // --------------------------------------------------------------- integers

  lemma DivBounds(n: nat, d: nat)
    requires d > 0
    ensures n / d * d <= n < (n / d + 1) * d
  {
  }

  lemma MulMono(x: int, y: int, d: nat)
    ensures x <= y ==> x * d <= y * d
  {
  }

  lemma MulAssoc(x: int, y: int, z: int)
    ensures (x * y) * z == x * (y * z)
  {
  }

  lemma UniqueQuotient(n: nat, d: nat, q: nat)
    requires d > 0 && q * d <= n < (q + 1) * d
    ensures n / d == q
  {
    DivBounds(n, d);
    MulMono(n / d + 1, q, d);
    MulMono(q + 1, n / d, d);
  }

  lemma QuotientBelow(n: nat, d: nat, k: nat)
    requires d > 0 && n < k * d
    ensures n / d < k
  {
    DivBounds(n, d);
    MulMono(k, n / d, d);
  }

  lemma NestedDivision(n: nat, a: nat, b: nat)
    requires a > 0 && b > 0
    ensures b * a > 0 && n / a / b == n / (b * a)
  {
    var q := n / a;
    var r := q / b;
    DivBounds(n, a);
    DivBounds(q, b);
    MulMono(r * b, q, a);
    MulMono(q + 1, (r + 1) * b, a);
    MulAssoc(r, b, a);
    MulAssoc(r + 1, b, a);
    assert b * a > 0;
    UniqueQuotient(n, b * a, r);
  }

  // ------------------------------------------------------------------ reals

  function Times(c: real, x: real): real { c * x }

  lemma Distribute(c: real, x: real, y: real)
    ensures Times(c, x + y) == Times(c, x) + Times(c, y)
  {
  }

  lemma DistributeFirst(x: real, y: real, c: real)
    ensures Times(x + y, c) == Times(x, c) + Times(y, c)
  {
  }

  lemma PositiveTimes(x: real, y: real)
    requires x > 0.0 && y > 0.0
    ensures Times(x, y) > 0.0
  {
  }

  lemma TimesAssoc(x: real, y: real, z: real)
    ensures Times(Times(x, y), z) == Times(x, Times(y, z))
  {
  }

  lemma ProductMonotone(d: real, x: real, y: real)
    requires d >= 0.0 && x <= y
    ensures d * x <= d * y
  {
  }

  lemma TimesMono(c: real, x: real, y: real)
    requires c >= 0.0 && x <= y
    ensures Times(c, x) <= Times(c, y)
  {
  }

  lemma FirstMono(c: real, d: real, x: real)
    requires c <= d && x >= 0.0
    ensures Times(c, x) <= Times(d, x)
  {
  }

  lemma NonnegProduct(x: real, y: real)
    requires x >= 0.0 && y >= 0.0
    ensures Times(x, y) >= 0.0
  {
  }

  lemma RealMulMono(x: real, y: real, m: real)
    requires m > 0.0
    ensures x <= y <==> x * m <= y * m
  {
    assert y * m - x * m == (y - x) * m;
  }

  lemma QuotientMonotone(x: real, y: real, d: real)
    requires x <= y && d > 0.0
    ensures x / d <= y / d
  {
  }

  lemma QuotientOfSum(x: real, y: real, d: real)
    requires d > 0.0
    ensures (x + y) / d == x / d + y / d
  {
  }

  lemma TimesQuotient(c: real, t: real)
    requires t > 0.0
    ensures Times(c / t, t) == c
  {
  }

  lemma SameQuotient(n: real, m: real, q: real)
    requires m > 0.0 && q * m == n
    ensures n / m == q
  {
    assert q * m / m == q;
  }

  lemma Cancel(a: real, b: real, g: real)
    requires g > 0.0 && a * g == b * g
    ensures a == b
  {
    assert a == a * g / g && b == b * g / g;
  }

  lemma FloorOfQuotient(n: nat, d: nat)
    requires d > 0
    ensures (n as real / d as real).Floor == n / d
  {
    DivBounds(n, d);
    var q := n / d;
    assert (q * d) as real <= n as real < ((q + 1) * d) as real;
    assert q as real <= n as real / d as real < (q + 1) as real;
  }

  lemma FloorAtMost(n: nat, d: nat, x: real, y: real)
    requires d > 0 && n as real <= x && d as real == y
    ensures (n / d) as real <= x / y
  {
    FloorOfQuotient(n, d);
    QuotientMonotone(n as real, x, y);
  }

  lemma FloorEquals(n: nat, d: nat, x: real, y: real)
    requires d > 0 && n as real == x && d as real == y
    ensures (x / y).Floor == n / d
  {
    FloorOfQuotient(n, d);
  }

  lemma ProductAsReal(x: nat, y: nat)
    ensures (x * y) as real == x as real * y as real
  {
  }

  /** An inequality between a fraction of `x` and `y`, cleared of its denominator. */
  lemma QuotientTimes(n: nat, m: nat, x: nat, y: nat)
    requires m > 0
    ensures Times(n as real / m as real, x as real) <= y as real <==> n * x <= m * y
  {
    var q := n as real / m as real;
    assert q * m as real == n as real;
    ProductAsReal(n, x);
    ProductAsReal(m, y);
    assert (n * x) as real == (q * x as real) * m as real;
    RealMulMono(q * x as real, y as real, m as real);
  }
}
