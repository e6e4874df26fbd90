/** Decimal.quantize with the default rounding: to the nearest, ties to even. */
module Rounding {

  /** n / d to the nearest integer, ties to the even one. */
  function HalfEven(n: int, d: int): int
    requires d > 0
  {
    var q, r := n / d, n % d;
    if 2 * r < d || (2 * r == d && q % 2 == 0) then q else q + 1
  }

  /** What ROUND_HALF_EVEN promises, independently of how it is computed. */
  ghost predicate NearestEven(n: int, d: int, q: int)
    requires d > 0
  {
    -d <= 2 * (q * d - n) <= d && (2 * (q * d - n) in {-d, d} ==> q % 2 == 0)
  }

  /** HalfEven is the one integer that meets the promise. */
  lemma HalfEvenIsNearestEven(n: int, d: int, q: int)
    requires d > 0
    ensures NearestEven(n, d, q) <==> q == HalfEven(n, d)
  {
    var h := HalfEven(n, d);
    assert n == (n / d) * d + n % d;
    assert h * d == (n / d) * d + (if h == n / d then 0 else d) by {
      assert (n / d + 1) * d == (n / d) * d + d;
    }
    assert NearestEven(n, d, h);
    if NearestEven(n, d, q) {
      Nearest(n, d, q, h);
    }
  }

  lemma Multiples(x: int, d: int)
    requires d > 0
    ensures x >= 1 ==> x * d >= d
    ensures x >= 2 ==> x * d >= 2 * d
    ensures x <= -1 ==> x * d <= -d
    ensures x <= -2 ==> x * d <= -2 * d
  {
    if x >= 1 {
      assert (x - 1) * d >= 0;
      assert x >= 2 ==> (x - 2) * d >= 0;
    } else if x <= -1 {
      assert (-x - 1) * d >= 0;
      assert x <= -2 ==> (-x - 2) * d >= 0;
    }
  }

  lemma Nearest(n: int, d: int, q: int, h: int)
    requires d > 0 && NearestEven(n, d, q) && NearestEven(n, d, h)
    ensures q == h
  {
    assert (q - h) * d == q * d - h * d;
    Multiples(q - h, d);
  }

  /** Rounding is monotone. */
  lemma HalfEvenMonotone(m: int, n: int, d: int)
    requires d > 0 && m <= n
    ensures HalfEven(m, d) <= HalfEven(n, d)
  {
    var p, q := m / d, n / d;
    assert m == p * d + m % d && n == q * d + n % d;
    assert (p - q) * d == p * d - q * d;
    Multiples(p - q, d);
  }

  lemma HalfEvenExact(k: int, d: int)
    requires d > 0
    ensures HalfEven(k * d, d) == k
  {
    HalfEvenIsNearestEven(k * d, d, k);
  }
}
