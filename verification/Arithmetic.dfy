/** Facts about quotients that the bucket grid and the address masks rest on. */
module Arithmetic {
  function Pow2(n: nat): (p: nat)
    ensures p >= 1
  {
    if n == 0 then 1 else 2 * Pow2(n - 1)
  }

  lemma MulMono(a: int, b: int, c: int)
    requires a <= b && c >= 0
    ensures a * c <= b * c
  {
    assert (b - a) * c >= 0;
  }

  /** The quotient is the largest number whose multiple fits. */
  lemma Quotient(x: int, c: int, q: int)
    requires c > 0
    ensures q <= x / c <==> q * c <= x
  {
    var d := x / c;
    assert x == d * c + x % c;
    if q <= d {
      MulMono(q, d, c);
    } else {
      MulMono(d + 1, q, c);
    }
  }

  lemma RealMulOrder(a: real, b: real, c: real)
    requires c > 0.0
    ensures a <= b <==> a * c <= b * c
  {
    if a <= b {
      assert (b - a) * c >= 0.0;
    } else {
      assert (a - b) * c > 0.0;
    }
  }

  lemma RealProduct(a: int, b: int)
    ensures (a * b) as real == a as real * b as real
  {
  }

  lemma FloorBetween(x: real, q: int)
    requires q as real <= x < (q + 1) as real
    ensures x.Floor == q
  {
  }

  lemma WithinRatio(x: real, n: int, c: int, q: int)
    requires c > 0 && x * c as real == n as real
    ensures q as real <= x <==> q * c <= n
  {
    RealProduct(q, c);
    RealMulOrder(q as real, x, c as real);
  }

  /** The floor of a real quotient of integers is their integer quotient. */
  lemma FloorOfRatio(x: real, n: int, c: int)
    requires c > 0 && x * c as real == n as real
    ensures x.Floor == n / c
  {
    var q := n / c;
    Quotient(n, c, q);
    Quotient(n, c, q + 1);
    WithinRatio(x, n, c, q);
    WithinRatio(x, n, c, q + 1);
    FloorBetween(x, q);
  }

  lemma QuotientIs(x: int, c: int, q: int)
    requires c > 0 && q * c <= x < (q + 1) * c
    ensures x / c == q
  {
    Quotient(x, c, q);
    Quotient(x, c, q + 1);
  }

  lemma RemainderIs(x: int, c: int, q: int, r: int)
    requires c > 0 && 0 <= r < c && x == q * c + r
    ensures x % c == r && x / c == q
  {
    assert (q + 1) * c == q * c + c;
    QuotientIs(x, c, q);
    assert x == x / c * c + x % c;
  }

  lemma HalfThenRest(a: nat, p: nat)
    requires p > 0
    ensures a / 2 / p == a / (2 * p)
  {
    var q := a / (2 * p);
    Quotient(a, 2 * p, q);
    Quotient(a, 2 * p, q + 1);
    assert q * (2 * p) == 2 * (q * p) && (q + 1) * (2 * p) == 2 * ((q + 1) * p);
    QuotientIs(a / 2, p, q);
  }

  lemma DivDiv(a: nat, p: nat, r: nat)
    requires p > 0 && r > 0
    ensures p * r > 0 && a / p / r == a / (p * r)
  {
    MulMono(1, p, r);
    var q := a / p / r;
    Quotient(a / p, r, q);
    Quotient(a / p, r, q + 1);
    Quotient(a, p, q * r);
    Quotient(a, p, (q + 1) * r);
    assert q * r * p == q * (p * r) && (q + 1) * r * p == (q + 1) * (p * r);
    QuotientIs(a, p * r, q);
  }

  lemma MeanTimesCount(total: real, n: real)
    requires n > 0.0
    ensures total / n * n == total
  {
  }
}
