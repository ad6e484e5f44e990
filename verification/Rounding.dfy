/** Rounding of an exact quotient n/d (d > 0) to a whole number of units, in the four
    modes of Python's decimal module that the shop uses. Each contract pins its result
    uniquely: how far it may be from n/d, and on which side a tie or a fraction goes. */
module Rounding {

  /** ROUND_DOWN: toward zero. */
  function RoundDown(n: int, d: int): (r: int)
    requires d > 0
    ensures n >= 0 ==> 0 <= n - r * d < d && r >= 0
    ensures n <= 0 ==> -d < n - r * d <= 0 && r <= 0
  {
    if n >= 0 then n / d else -((-n) / d)
  }

  /** ROUND_UP: away from zero. */
  function RoundUp(n: int, d: int): (r: int)
    requires d > 0
    ensures n >= 0 ==> 0 <= r * d - n < d
    ensures n <= 0 ==> -d < r * d - n <= 0
  {
    if n >= 0 then (n + d - 1) / d else -((-n + d - 1) / d)
  }

  /** ROUND_HALF_UP: to the nearest, ties away from zero. */
  function HalfUp(n: int, d: int): (r: int)
    requires d > 0
    ensures n >= 0 ==> -d < 2 * (r * d - n) <= d
    ensures n <= 0 ==> -d <= 2 * (r * d - n) < d
  {
    if n >= 0 then (2 * n + d) / (2 * d) else -((-2 * n + d) / (2 * d))
  }

  /** ROUND_HALF_EVEN, the decimal context's default: to the nearest, ties to the even unit. */
  function HalfEven(n: int, d: int): (r: int)
    requires d > 0
    ensures -d <= 2 * (r * d - n) <= d
    ensures 2 * (r * d - n) == d || 2 * (r * d - n) == -d ==> r % 2 == 0
  {
    var f := n / d;
    if 2 * (n % d) < d then f
    else if 2 * (n % d) > d then f + 1
    else if f % 2 == 0 then f
    else f + 1
  }

  lemma MulAtLeast(k: int, j: int, d: int)
    requires d > 0 && k >= j
    ensures k * d >= j * d
  {
    assert (k - j) * d >= 0;
  }

  lemma MulNonNeg(a: int, b: int)
    requires a >= 0 && b >= 0
    ensures a * b >= 0
  {
  }

  lemma Distribute(a: int, b: int, c: int)
    ensures (a + b) * c == a * c + b * c
    ensures (a - b) * c == a * c - b * c
  {
  }

  lemma Swap(a: int, b: int, c: int)
    ensures a * b * c == a * c * b
  {
  }

  /** A bound on multiples of d is a bound on the multipliers. */
  lemma MultiplesOrdered(a: int, b: int, d: int)
    requires d > 0
    requires a * d < b * d + d
    ensures a <= b
  {
    if a > b {
      MulAtLeast(a, b + 1, d);
    }
  }

  /** Two multiples of d less than d apart are the same multiple. */
  lemma MultiplesApart(a: int, b: int, d: int)
    requires d > 0
    requires -d < a * d - b * d < d
    ensures a == b
  {
    MultiplesOrdered(a, b, d);
    MultiplesOrdered(b, a, d);
  }

  /** p within half a unit of n/d, m within half a unit of -n/d, both even on a tie. */
  lemma Opposite(n: int, d: int, p: int, m: int, x: int, y: int)
    requires d > 0 && x == p * d && y == m * d
    requires -d <= 2 * (x - n) <= d && -d <= 2 * (y + n) <= d
    requires 2 * (x - n) == d || 2 * (x - n) == -d ==> p % 2 == 0
    requires 2 * (y + n) == d || 2 * (y + n) == -d ==> m % 2 == 0
    ensures m == -p
  {
    var s := p + m;
    Distribute(p, m, d);
    MultiplesOrdered(s, 1, d);
    MultiplesOrdered(-1, s, d);
    OppositeTies(n, d, p, m, x, y, s * d);
  }

  lemma OppositeTies(n: int, d: int, p: int, m: int, x: int, y: int, sd: int)
    requires d > 0 && -1 <= p + m <= 1
    requires sd == x + y && (p + m == 1 ==> sd == d) && (p + m == -1 ==> sd == -d)
    requires -d <= 2 * (x - n) <= d && -d <= 2 * (y + n) <= d
    requires 2 * (x - n) == d || 2 * (x - n) == -d ==> p % 2 == 0
    requires 2 * (y + n) == d || 2 * (y + n) == -d ==> m % 2 == 0
    ensures m == -p
  {
  }

  /** Rounding half-even commutes with negation: a mirrored payment row cancels exactly. */
  lemma HalfEvenOdd(n: int, d: int)
    requires d > 0
    ensures HalfEven(-n, d) == -HalfEven(n, d)
  {
    var p, m := HalfEven(n, d), HalfEven(-n, d);
    Opposite(n, d, p, m, p * d, m * d);
  }

  /** Whole quotients are not changed by any mode. */
  lemma Exact(k: int, d: int)
    requires d > 0
    ensures HalfUp(k * d, d) == k && HalfEven(k * d, d) == k
    ensures RoundUp(k * d, d) == k && RoundDown(k * d, d) == k
  {
    assert k >= 0 ==> k * d >= 0;
    assert k <= 0 ==> k * d <= 0;
    MultiplesApart(HalfUp(k * d, d), k, d);
    MultiplesApart(HalfEven(k * d, d), k, d);
    MultiplesApart(RoundUp(k * d, d), k, d);
    MultiplesApart(RoundDown(k * d, d), k, d);
  }

  lemma HalfUpMonotone(m: int, n: int, d: int)
    requires d > 0 && m <= n
    ensures HalfUp(m, d) <= HalfUp(n, d)
  {
    var a, b := HalfUp(m, d), HalfUp(n, d);
    if m < n {
      LessThanAUnit(m, n, d, a * d, b * d);
      MultiplesOrdered(a, b, d);
    }
  }

  /** Rounded values of m < n are less than a unit apart the wrong way round. */
  lemma LessThanAUnit(m: int, n: int, d: int, x: int, y: int)
    requires d > 0 && m < n
    requires 2 * (x - m) <= d && -d <= 2 * (y - n)
    ensures x < y + d
  {
  }

  /** Adding a whole number of units before rounding adds it after: on one side of zero. */
  lemma HalfUpShift(n: int, k: nat, d: int)
    requires d > 0 && n >= 0
    ensures HalfUp(n + k * d, d) == HalfUp(n, d) + k
  {
    var a, b := HalfUp(n + k * d, d), HalfUp(n, d) + k;
    assert k * d >= 0;
    assert b * d == HalfUp(n, d) * d + k * d;
    MultiplesApart(a, b, d);
  }
}
