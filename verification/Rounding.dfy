/** The two rounding rules: banker's rounding for money, half-up for statutory tax. */
module Rounding {
  import opened Outcome

  function Abs(x: int): nat { if x < 0 then -x else x }

  /** BigInt division truncates toward zero. */
  function TruncDiv(n: int, d: int): int
    requires d > 0
  {
    if n < 0 then -((-n) / d) else n / d
  }

  function TruncMod(n: int, d: int): int
    requires d > 0
  {
    n - d * TruncDiv(n, d)
  }

  lemma MulAtLeast(k: int, d: int)
    requires k >= 1 && d >= 0
    ensures k * d >= d
  {
    assert k * d == (k - 1) * d + d;
  }

  lemma MulGap(p: int, q: int, d: int)
    requires p < q && d >= 0
    ensures q * d - p * d >= d
    ensures q >= p + 2 ==> q * d - p * d >= 2 * d
  {
    assert q * d - p * d == (q - p) * d;
    MulAtLeast(q - p, d);
    if q >= p + 2 {
      MulAtLeast(q - p - 1, d);
      assert (q - p) * d == (q - p - 1) * d + d;
    }
  }

  lemma FloorBelow(n: nat, d: int, a: int)
    requires d > 0 && n <= a * d
    ensures 0 <= n / d <= a
    ensures n % d != 0 ==> n / d < a
  {
    var q := n / d;
    assert n == q * d + n % d;
    if q > a {
      MulGap(a, q, d);
    }
  }

  function DivideRoundHalfToEven(numerator: int, denominator: int): Result<int> {
    if denominator == 0 then Err(Validation)
    else
      var n := if denominator < 0 then -numerator else numerator;
      var d := if denominator < 0 then -denominator else denominator;
      var quotient := TruncDiv(n, d);
      var remainder := TruncMod(n, d);
      var twiceRemainder := (if remainder < 0 then -remainder else remainder) * 2;
      if twiceRemainder < d then Ok(quotient)
      else if twiceRemainder > d then Ok(if n < 0 then quotient - 1 else quotient + 1)
      else if quotient % 2 == 0 then Ok(quotient)
      else Ok(if n < 0 then quotient - 1 else quotient + 1)
  }

  /** `q` is an integer nearest to `n / d`, and the even one when two are equally near. */
  ghost predicate IsNearestEven(n: int, d: int, q: int) {
    && d != 0
    && 2 * Abs(n - q * d) <= Abs(d)
    && (2 * Abs(n - q * d) == Abs(d) ==> q % 2 == 0)
  }

  lemma NearestEvenUnique(n: int, d: int, p: int, q: int)
    requires IsNearestEven(n, d, p) && IsNearestEven(n, d, q)
    ensures p == q
  {
    if p < q {
      NearestEvenOrdered(n, d, p, q);
    } else if q < p {
      NearestEvenOrdered(n, d, q, p);
    }
  }

  /** Two nearest integers that differ are one denominator apart, and cannot both be even. */
  lemma NearestEvenOrdered(n: int, d: int, p: int, q: int)
    requires d != 0 && p < q && 2 * Abs(n - p * d) <= Abs(d) && 2 * Abs(n - q * d) <= Abs(d)
    ensures q == p + 1 && 2 * Abs(n - p * d) == Abs(d) == 2 * Abs(n - q * d)
  {
    if d > 0 {
      MulGap(p, q, d);
    } else {
      MulGap(p, q, -d);
      MulNegate(p, d);
      MulNegate(q, d);
    }
  }

  lemma MulNegate(x: int, d: int)
    ensures x * -d == -(x * d)
  {
  }

  lemma HalfToEvenIs(n: int, d: int, q: int)
    requires IsNearestEven(n, d, q)
    ensures DivideRoundHalfToEven(n, d) == Ok(q)
  {
    HalfToEvenIsNearest(n, d);
    NearestEvenUnique(n, d, q, DivideRoundHalfToEven(n, d).value);
  }

  lemma NearestEvenNegation(n: int, d: int, q: int)
    requires IsNearestEven(n, d, q)
    ensures IsNearestEven(-n, d, -q) && IsNearestEven(n, -d, -q) && IsNearestEven(-n, -d, q)
  {
    assert -n - (-q) * d == -(n - q * d);
    assert n - (-q) * (-d) == n - q * d;
    assert -n - q * (-d) == -(n - q * d);
  }

  /** For every sign combination the division returns the one nearest integer, ties to even. */
  lemma HalfToEvenIsNearest(numerator: int, denominator: int)
    ensures DivideRoundHalfToEven(numerator, denominator).Ok? <==> denominator != 0
    ensures denominator != 0 ==>
              IsNearestEven(numerator, denominator, DivideRoundHalfToEven(numerator, denominator).value)
  {
    if denominator != 0 {
      var n := if denominator < 0 then -numerator else numerator;
      var d := if denominator < 0 then -denominator else denominator;
      var q := DivideRoundHalfToEven(numerator, denominator).value;
      HalfToEvenPositive(n, d);
      NearestEvenNegation(n, d, q);
      if denominator < 0 {
        assert n == -numerator && d == -denominator;
      }
    }
  }

  lemma HalfToEvenPositive(n: int, d: int)
    requires d > 0
    ensures IsNearestEven(n, d, DivideRoundHalfToEven(n, d).value)
  {
    TruncDivBounds(n, d);
    StepsAround(TruncDiv(n, d), d);
  }

  lemma StepsAround(t: int, d: int)
    ensures (t + 1) * d == d * t + d && (t - 1) * d == d * t - d && t * d == d * t
  {
  }

  lemma TruncDivBounds(n: int, d: int)
    requires d > 0
    ensures Abs(TruncMod(n, d)) < d
    ensures n >= 0 ==> TruncMod(n, d) >= 0 && TruncDiv(n, d) >= 0
    ensures n <= 0 ==> TruncMod(n, d) <= 0 && TruncDiv(n, d) <= 0
  {
    if n < 0 {
      var t := (-n) / d;
      assert d * (-t) == -(d * t);
      assert -n == d * t + (-n) % d;
    }
  }

  /** Negating either operand negates the result; negating both keeps it. */
  lemma HalfToEvenSymmetric(n: int, d: int)
    requires d != 0
    ensures DivideRoundHalfToEven(-n, d) == Ok(-DivideRoundHalfToEven(n, d).value)
    ensures DivideRoundHalfToEven(n, -d) == Ok(-DivideRoundHalfToEven(n, d).value)
    ensures DivideRoundHalfToEven(-n, -d) == DivideRoundHalfToEven(n, d)
  {
    HalfToEvenIsNearest(n, d);
    NearestEvenNegated(n, d, DivideRoundHalfToEven(n, d).value);
  }

  lemma NearestEvenNegated(n: int, d: int, q: int)
    requires IsNearestEven(n, d, q)
    ensures DivideRoundHalfToEven(-n, d) == Ok(-q) == DivideRoundHalfToEven(n, -d)
    ensures DivideRoundHalfToEven(-n, -d) == Ok(q)
  {
    NearestEvenNegation(n, d, q);
    HalfToEvenIs(-n, d, -q);
    HalfToEvenIs(n, -d, -q);
    HalfToEvenIs(-n, -d, q);
  }

  lemma ScaledDistance(e: int, d: int, k: int)
    requires k > 0 && d > 0 && 2 * Abs(e) <= d
    ensures 2 * Abs(k * e) <= k * d
    ensures 2 * Abs(k * e) == k * d ==> 2 * Abs(e) == d
  {
    var a := if e < 0 then -e else e;
    assert k * e == if e < 0 then -(k * a) else k * a;
    assert k * a >= 0;
    var slack := d - 2 * a;
    assert k * d - 2 * (k * a) == k * slack;
    if slack > 0 {
      MulAtLeast(k, slack);
    }
  }

  /** A common positive factor does not change the rounding. */
  lemma HalfToEvenScale(n: int, d: int, k: int)
    requires d > 0 && k > 0
    ensures k * d != 0
    ensures DivideRoundHalfToEven(k * n, k * d) == DivideRoundHalfToEven(n, d)
  {
    HalfToEvenIsNearest(n, d);
    var q := DivideRoundHalfToEven(n, d).value;
    NearestEvenScaled(n, d, k, q);
    HalfToEvenIs(k * n, k * d, q);
  }

  lemma NearestEvenScaled(n: int, d: int, k: int, q: int)
    requires d > 0 && k > 0 && IsNearestEven(n, d, q)
    ensures k * d > 0 && IsNearestEven(k * n, k * d, q)
  {
    MulAtLeast(k, d);
    ScaledError(n, d, k, q);
    ScaledDistance(n - q * d, d, k);
  }

  lemma ScaledError(n: int, d: int, k: int, q: int)
    ensures k * n - q * (k * d) == k * (n - q * d)
  {
    assert q * (k * d) == k * (q * d);
  }

  lemma HalfToEvenExact(q: int, d: int)
    requires d > 0
    ensures DivideRoundHalfToEven(q * d, d) == Ok(q)
  {
    HalfToEvenIs(q * d, d, q);
  }

  /** Half-up on a non-negative numerator. */
  function HalfUp(numerator: int, denominator: int): int
    requires numerator >= 0 && denominator > 0
  {
    numerator / denominator + (if (numerator % denominator) * 2 >= denominator then 1 else 0)
  }

  function RoundTaxHalfUp(numerator: int, denominator: int): Result<int> {
    if numerator < 0 || denominator <= 0 then Err(Validation) else Ok(HalfUp(numerator, denominator))
  }

  /** `q` is `n / d` rounded to the nearest integer, upward on a tie. */
  ghost predicate IsNearestUp(n: int, d: int, q: int) {
    2 * n - d < 2 * (q * d) <= 2 * n + d
  }

  lemma HalfUpIsNearest(n: int, d: int)
    requires n >= 0 && d > 0
    ensures IsNearestUp(n, d, HalfUp(n, d))
  {
    var t := n / d;
    assert n == t * d + n % d;
    assert (t + 1) * d == t * d + d;
  }

  lemma NearestUpUnique(n: int, d: int, p: int, q: int)
    requires d > 0 && IsNearestUp(n, d, p) && IsNearestUp(n, d, q)
    ensures p == q
  {
    if p < q {
      MulGap(p, q, d);
    } else if q < p {
      MulGap(q, p, d);
    }
  }

  /** Statutory rounding is defined on non-negative numerators and is the one nearest integer, ties upward. */
  lemma RoundTaxIsNearest(numerator: int, denominator: int)
    ensures RoundTaxHalfUp(numerator, denominator).Ok? <==> numerator >= 0 && denominator > 0
    ensures RoundTaxHalfUp(numerator, denominator).Ok? ==>
              forall q :: IsNearestUp(numerator, denominator, q) <==> q == RoundTaxHalfUp(numerator, denominator).value
  {
    if numerator >= 0 && denominator > 0 {
      HalfUpIsNearest(numerator, denominator);
      forall q | IsNearestUp(numerator, denominator, q) ensures q == HalfUp(numerator, denominator) {
        NearestUpUnique(numerator, denominator, q, HalfUp(numerator, denominator));
      }
    }
  }

  lemma HalfUpMonotone(n: int, m: int, d: int)
    requires 0 <= n <= m && d > 0
    ensures HalfUp(n, d) <= HalfUp(m, d)
  {
    HalfUpIsNearest(n, d);
    HalfUpIsNearest(m, d);
    var p, q := HalfUp(n, d), HalfUp(m, d);
    if q < p {
      MulGap(q, p, d);
    }
  }

  /** Whole multiples of the denominator pass through the rounding. */
  lemma HalfUpShift(k: int, n: int, d: int)
    requires k >= 0 && n >= 0 && d > 0
    ensures k * d + n >= 0
    ensures HalfUp(k * d + n, d) == k + HalfUp(n, d)
  {
    HalfUpIsNearest(n, d);
    assert k * d >= 0;
    HalfUpIsNearest(k * d + n, d);
    NearestUpShift(k, n, d, HalfUp(n, d));
    NearestUpUnique(k * d + n, d, k + HalfUp(n, d), HalfUp(k * d + n, d));
  }

  lemma NearestUpShift(k: int, n: int, d: int, q: int)
    requires IsNearestUp(n, d, q)
    ensures IsNearestUp(k * d + n, d, k + q)
  {
    assert (k + q) * d == k * d + q * d;
  }
}
