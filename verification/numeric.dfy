/** Small numeric vocabulary shared by the whole model: the option type,
    positive reals for sample rates, and the JavaScript number operations the
    engine leans on (`Math.sign`, `x | 0`). */
module Wrappers {

  datatype Option<+T> = None | Some(value: T)
}

module Numeric {

  /** A strictly positive real: sample rates and durations that are divided by. */
  type PosReal = r: real | r > 0.0 witness 1.0

  /** `Math.sign` on a finite number. */
  function Sign(x: real): (s: int)
    ensures s == 1 <==> x > 0.0
    ensures s == -1 <==> x < 0.0
    ensures s == 0 <==> x == 0.0
  {
    if x > 0.0 then 1 else if x < 0.0 then -1 else 0
  }

  /** `x | 0` for values inside the 32-bit range: truncation toward zero. */
  function Trunc(x: real): (n: int)
    ensures x >= 0.0 ==> 0 <= n && n as real <= x < n as real + 1.0
    ensures x < 0.0 ==> n <= 0 && n as real - 1.0 < x <= n as real
  {
    if x >= 0.0 then x.Floor else -((-x).Floor)
  }

  /** `v` lies on the closed segment between `a` and `b`, in either order. */
  predicate Between(v: real, a: real, b: real) {
    (a <= v <= b) || (b <= v <= a)
  }

  function Abs(x: real): real {
    if x < 0.0 then -x else x
  }

  /** `m` steps of size `s`, added one at a time as a per-sample ramp does;
      it keeps products of a count and a step out of the proofs. */
  function Steps(s: real, m: nat): real
    decreases m
  {
    if m == 0 then 0.0 else Steps(s, m - 1) + s
  }

  lemma {:induction false} StepsSign(s: real, m: nat)
    requires m >= 1
    ensures Sign(Steps(s, m)) == Sign(s)
    decreases m
  {
    if m > 1 {
      StepsSign(s, m - 1);
    }
  }

  lemma {:induction false} StepsSplit(s: real, a: nat, b: nat)
    ensures Steps(s, a + b) == Steps(s, a) + Steps(s, b)
    decreases b
  {
    if b > 0 {
      StepsSplit(s, a, b - 1);
    }
  }

  lemma {:induction false} StepsIsProduct(s: real, m: nat)
    ensures Steps(s, m) == (m as real) * s
    decreases m
  {
    if m > 0 {
      StepsIsProduct(s, m - 1);
      assert ((m - 1) as real) * s + s == (m as real) * s;
    }
  }

  lemma MulStrictMono(a: real, x: real, y: real)
    requires a > 0.0 && x < y
    ensures a * x < a * y
  {
  }

  lemma MulMono(a: real, x: real, y: real)
    requires a >= 0.0 && x <= y
    ensures a * x <= a * y
  {
  }

  /** Truncation of non-negative values keeps their order. */
  lemma TruncMonotone(x: real, y: real)
    requires 0.0 <= x <= y
    ensures Trunc(x) <= Trunc(y)
  {
  }

  /** Truncating a non-negative value scaled by a non-negative factor stays
      within the same scaling of any upper bound. */
  lemma ScaledTruncWithin(a: real, x: real, hi: real)
    requires a >= 0.0 && 0.0 <= x <= hi
    ensures 0 <= Trunc(a * x) && Trunc(a * x) as real <= a * hi
  {
    MulMono(a, 0.0, x);
    MulMono(a, x, hi);
  }

  /** Truncation after a non-negative scaling keeps the order of the values. */
  lemma ScaledTruncMonotone(a: real, x: real, y: real)
    requires a >= 0.0 && 0.0 <= x <= y
    ensures Trunc(a * x) <= Trunc(a * y)
  {
    MulMono(a, 0.0, x);
    MulMono(a, x, y);
    TruncMonotone(a * x, a * y);
  }

  /** Dividing by a positive number keeps the order. */
  lemma DivMono(x: real, y: real, d: real)
    requires d > 0.0 && x <= y
    ensures x / d <= y / d
  {
    assert x / d == x * (1.0 / d) && y / d == y * (1.0 / d);
    MulMono(1.0 / d, x, y);
  }

  /** A positive factor can be cancelled from both sides of `<=`. */
  lemma MulCancel(a: real, x: real, y: real)
    requires a > 0.0 && x * a <= y * a
    ensures x <= y
  {
    if x > y {
      MulStrictMono(a, y, x);
    }
  }

  /** A value in [-1, 1] scaled by a non-negative level stays within that level. */
  lemma ScaleWithin(x: real, level: real)
    requires -1.0 <= x <= 1.0 && level >= 0.0
    ensures -level <= x * level <= level
  {
    var y := x * level;
    MulMono(level, x, 1.0);
    MulMono(level, -1.0, x);
    assert level * x == y;
    assert level * 1.0 == level && level * -1.0 == -level;
  }

  /** A level in [0, 1] times a value in [-1, 1] lies in [-1, 1]. */
  lemma UnitProduct(o: real, c: real, v: real)
    requires o == c * v && 0.0 <= c <= 1.0 && -1.0 <= v <= 1.0
    ensures -1.0 <= o <= 1.0
  {
    ScaleWithin(v, c);
  }

  lemma AboveQuotient(n: real, d: real, q: real)
    requires d > 0.0 && q > n / d
    ensures q * d > n
  {
    MulStrictMono(d, n / d, q);
  }

  lemma ZeroFactor(a: real, b: real)
    requires a * b == 0.0 && b != 0.0
    ensures a == 0.0
  {
  }

  /** A quotient by a positive divisor keeps the order of the numerator
      against multiples of the divisor. */
  lemma QuotientBelow(n: real, d: real, b: real)
    requires d > 0.0 && n < b * d
    ensures n / d < b
  {
    var q := n / d;
    assert (b - q) * d == b * d - n;
  }

  lemma QuotientAtLeast(n: real, d: real, b: real)
    requires d > 0.0 && b * d <= n
    ensures b <= n / d
  {
    var q := n / d;
    assert (b - q) * d == b * d - n;
  }

  lemma QuotientAbove(n: real, d: real, b: real)
    requires d > 0.0 && b * d < n
    ensures b < n / d
  {
    var q := n / d;
    assert (b - q) * d == b * d - n;
  }

  lemma QuotientAtMost(n: real, d: real, b: real)
    requires d > 0.0 && n <= b * d
    ensures n / d <= b
  {
    var q := n / d;
    assert (b - q) * d == b * d - n;
  }

  lemma ScaleByReciprocal(x: real, d: real)
    requires d != 0.0
    ensures x * (1.0 / d) * d == x
  {
  }
}
