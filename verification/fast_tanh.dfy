/** fastTanh: a rational approximation of tanh that saturates at +-1
    outside [-3, 3]. */
module FastTanh {
  import opened Numeric

  /** The rational branch x (27 + x^2) / (27 + 9 x^2). */
  function Rational(x: real): real {
    (x * (27.0 + x * x)) / (27.0 + 9.0 * x * x)
  }

  function FastTanh(x: real): (y: real)
    ensures x < -3.0 ==> y == -1.0
    ensures x > 3.0 ==> y == 1.0
    ensures -3.0 <= x <= 3.0 ==> y == Rational(x)
    ensures -1.0 <= y <= 1.0
    ensures x >= 0.0 ==> y >= 0.0
    ensures x <= 0.0 ==> y <= 0.0
  {
    if x < -3.0 then -1.0
    else if x > 3.0 then 1.0
    else
      RationalBounded(x);
      Rational(x)
  }

  /** The distance of the rational branch from 1 is (3 - x)^3 over its
      (positive) denominator. */
  lemma RationalGap(x: real)
    ensures 27.0 + 9.0 * x * x > 0.0
    ensures (27.0 + 9.0 * x * x) - x * (27.0 + x * x) == (3.0 - x) * (3.0 - x) * (3.0 - x)
  {
  }

  lemma CubeNonNegative(d: real)
    requires d >= 0.0
    ensures d * d * d >= 0.0
  {
    MulMono(d, 0.0, d);
    MulMono(d * d, 0.0, d);
  }

  lemma QuotientAtMostOne(n: real, d: real)
    requires d > 0.0 && 0.0 <= n <= d
    ensures 0.0 <= n / d <= 1.0
  {
  }

  /** The rational branch is odd. */
  lemma RationalOdd(x: real)
    ensures Rational(-x) == -Rational(x)
  {
    assert (-x) * (-x) == x * x;
    assert (-x) * (27.0 + x * x) == -(x * (27.0 + x * x));
  }

  lemma RationalBounded(x: real)
    requires -3.0 <= x <= 3.0
    ensures -1.0 <= Rational(x) <= 1.0
    ensures x >= 0.0 ==> Rational(x) >= 0.0
    ensures x <= 0.0 ==> Rational(x) <= 0.0
  {
    if x >= 0.0 {
      RationalNonNegativeSide(x);
    } else {
      RationalNonNegativeSide(-x);
      RationalOdd(x);
    }
  }

  lemma RationalNonNegativeSide(x: real)
    requires 0.0 <= x <= 3.0
    ensures 0.0 <= Rational(x) <= 1.0
  {
    RationalGap(x);
    CubeNonNegative(3.0 - x);
    MulMono(x, 0.0, 27.0 + x * x);
    QuotientAtMostOne(x * (27.0 + x * x), 27.0 + 9.0 * x * x);
  }

  /** fastTanh is odd everywhere. */
  lemma FastTanhOdd(x: real)
    ensures FastTanh(-x) == -FastTanh(x)
  {
    RationalOdd(x);
  }

  /** The rational branch meets the saturation levels exactly at +-3, so the
      function is continuous there. */
  lemma FastTanhContinuousAtSaturation()
    ensures Rational(3.0) == 1.0 && Rational(-3.0) == -1.0
    ensures FastTanh(3.0) == 1.0 && FastTanh(-3.0) == -1.0
  {
  }
}
