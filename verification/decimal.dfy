/** Exact fixed-point arithmetic for the money fields.

    Every amount is held as an integer number of hundredths (cents), and
    the interest rate as an integer number of hundredths of a percent, so
    the Decimal arithmetic of the loans backend is exact here. The one
    rounding the backend performs, Python's round(x, 2) on a Decimal, is
    round-half-to-even; it is defined here on a rational n/d and
    characterised independently of its definition. */
module Decimal {

  /** 10 to the power k. */
  function Pow10(k: nat): (r: nat)
    ensures r >= 1
  {
    if k == 0 then 1 else 10 * Pow10(k - 1)
  }

  /** r is an integer nearest to n/d (d > 0), and when n/d lies exactly
      halfway between two integers, r is the even one. Stated without
      division: d * (n/d - r) is n - r*d. */
  predicate IsHalfEven(n: int, d: int, r: int)
    requires d > 0
  {
    var err := n - r * d;
    && -d <= 2 * err <= d
    && ((2 * err == d || 2 * err == -d) ==> r % 2 == 0)
  }

  /** r is n/d rounded half-to-even, for a divisor of either sign. */
  predicate RoundsTo(n: int, d: int, r: int)
    requires d != 0
  {
    if d > 0 then IsHalfEven(n, d, r) else IsHalfEven(-n, -d, r)
  }

  /** n/d rounded to an integer, ties to even. */
  function RoundHalfEven(n: int, d: int): (r: int)
    requires d != 0
    ensures RoundsTo(n, d, r)
  {
    var num := if d > 0 then n else -n;
    var den := if d > 0 then d else -d;
    var q := num / den;
    var m := num % den;
    assert num - q * den == m;
    assert num - (q + 1) * den == m - den;
    if 2 * m < den then q
    else if 2 * m > den then q + 1
    else if q % 2 == 0 then q
    else q + 1
  }

  lemma MulMonotone(a: int, b: int, k: int)
    requires a <= b && k >= 0
    ensures a * k <= b * k
  {
  }

  /** Two multiples of d whose factors differ by at least k are at least
      k*d apart. */
  lemma MulGap(a: int, b: int, k: int, d: int)
    requires d > 0 && k >= 0 && a + k <= b
    ensures b * d - a * d >= k * d
  {
  }

  /** At most one integer satisfies the half-even characterisation, so it
      determines RoundHalfEven completely. */
  lemma HalfEvenUnique(n: int, d: int, r1: int, r2: int)
    requires d > 0
    requires IsHalfEven(n, d, r1) && IsHalfEven(n, d, r2)
    ensures r1 == r2
  {
    if r1 != r2 {
      var lo := if r1 < r2 then r1 else r2;
      var hi := if r1 < r2 then r2 else r1;
      assert IsHalfEven(n, d, lo) && IsHalfEven(n, d, hi);
      var eLo := n - lo * d;
      var eHi := n - hi * d;
      MulGap(lo, hi, 1, d);
      // the errors are at least d apart but each within d/2 of zero: both are ties
      assert 2 * eLo == d && 2 * eHi == -d;
      assert lo % 2 == 0 && hi % 2 == 0;
      MulGap(lo, hi, 2, d);
      assert false;
    }
  }

  /** Any value meeting the characterisation is the computed rounding. */
  lemma RoundsToIsRoundHalfEven(n: int, d: int, r: int)
    requires d != 0
    requires RoundsTo(n, d, r)
    ensures RoundHalfEven(n, d) == r
  {
    var c := RoundHalfEven(n, d);
    if d > 0 {
      HalfEvenUnique(n, d, c, r);
    } else {
      HalfEvenUnique(-n, -d, c, r);
    }
  }

  /** Rounding is exact on whole multiples of the divisor. */
  lemma RoundExact(k: int, d: int)
    requires d > 0
    ensures RoundHalfEven(k * d, d) == k
  {
  }

  /** Rounding with a positive divisor is monotone in the dividend. */
  lemma RoundMonotone(n1: int, n2: int, d: int)
    requires d > 0 && n1 <= n2
    ensures RoundHalfEven(n1, d) <= RoundHalfEven(n2, d)
  {
    var r1 := RoundHalfEven(n1, d);
    var r2 := RoundHalfEven(n2, d);
    if r1 > r2 {
      assert IsHalfEven(n1, d, r1) && IsHalfEven(n2, d, r2);
      MulGap(r2, r1, 1, d);
      // n1 >= r1*d - d/2 >= r2*d + d/2 >= n2, so the dividends coincide
      // and so do their roundings
      assert false;
    }
  }
}
