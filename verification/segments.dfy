/** The four envelope segment kinds (AttackSegment, DecaySegment,
    DelaySegment, ShutdownSegment). A segment turns the envelope's previous
    value into a candidate with `Process`, and `IsComplete` judges the
    candidate afterwards. */
module Segments {
  import opened Wrappers
  import opened Numeric

  /** exp(-ln((1 + tco) / tco) / samples): the per-sample coefficient that a
      segment derives from its time-constant offset `tco` and its planned
      length in samples. The exponential and the logarithm are outside the
      model, so callers supply the whole map. */
  type TimeConstant = (real, real) -> real

  /** The coefficient for offset `tco` over `duration` seconds at
      `sampleRate`. */
  function Coefficient(tc: TimeConstant, tco: real, sampleRate: real, duration: real): real {
    tc(tco, sampleRate * duration)
  }

  datatype Segment =
    | Attack(sampleRate: PosReal, tco: real, target: real, sustainAtEnd: bool, coeff: real, offset: real)
    | Decay(sampleRate: PosReal, tco: real, target: real, sustainAtEnd: bool, coeff: real, offset: real)
    | Delay(sampleRate: PosReal, count: int, remaining: int)
    | Shutdown(rate: real)

  /** The candidate value and the segment after producing it (only a delay
      segment changes: its countdown). */
  datatype Output = Output(value: real, segment: Segment)

  /** Same kind, and the same fixed configuration apart from the delay countdown. */
  predicate SameKind(a: Segment, b: Segment) {
    match a
    case Attack(sr, tco, target, sus, _, _) => b.Attack? && b.sampleRate == sr && b.tco == tco && b.target == target && b.sustainAtEnd == sus
    case Decay(sr, tco, _, sus, _, _) => b.Decay? && b.sampleRate == sr && b.tco == tco && b.sustainAtEnd == sus
    case Delay(sr, _, _) => b.Delay? && b.sampleRate == sr
    case Shutdown(rate) => b == a
  }

  /** The constructors. The source leaves coefficient and offset unset until
      setDuration runs; the model starts them at 0. */
  function NewAttack(sampleRate: PosReal, tco: real, target: real, sustainAtEnd: bool): Segment {
    Attack(sampleRate, tco, target, sustainAtEnd, 0.0, 0.0)
  }

  function NewDecay(sampleRate: PosReal, tco: real, target: real, sustainAtEnd: bool): Segment {
    Decay(sampleRate, tco, target, sustainAtEnd, 0.0, 0.0)
  }

  function NewDelay(sampleRate: PosReal): Segment {
    Delay(sampleRate, 0, 0)
  }

  /** The shutdown segment falls from +1 to 0 in `seconds`. */
  function NewShutdown(sampleRate: PosReal, seconds: PosReal): (s: Segment)
    ensures s.Shutdown? && s.rate > 0.0
    ensures s.rate * (seconds * sampleRate as real) == 1.0
  {
    Shutdown(1.0 / (seconds * sampleRate as real))
  }

  /** setDuration. The shutdown segment has no such method. */
  function SetDuration(s: Segment, duration: real, tc: TimeConstant): (r: Segment)
    requires !s.Shutdown?
    ensures SameKind(s, r) && SameKind(r, s)
    ensures (r.Attack? || r.Decay?) ==> r.target == s.target && r.coeff == Coefficient(tc, s.tco, s.sampleRate as real, duration)
    ensures r.Attack? ==> r.offset == (1.0 + r.tco) * (1.0 - r.coeff)
    ensures r.Decay? ==> r.offset == (s.target - r.tco) * (1.0 - r.coeff)
    ensures r.Delay? ==> r.count == Trunc(s.sampleRate as real * duration)
    ensures r.Delay? ==> r.remaining - r.count == s.remaining - s.count
  {
    match s
    case Attack(sr, tco, target, sus, _, _) =>
      var c := Coefficient(tc, tco, sr as real, duration);
      Attack(sr, tco, target, sus, c, (1.0 + tco) * (1.0 - c))
    case Decay(sr, tco, target, sus, _, _) =>
      var c := Coefficient(tc, tco, sr as real, duration);
      Decay(sr, tco, target, sus, c, (target - tco) * (1.0 - c))
    case Delay(sr, count, remaining) =>
      var n := Trunc(sr as real * duration);
      Delay(sr, n, remaining + (n - count))
  }

  /** reset. Only the delay segment has state to reset; the decay segment has
      no such method. */
  function Reset(s: Segment): (r: Segment)
    requires !s.Decay?
    ensures s.Delay? ==> r == s.(remaining := s.count)
    ensures !s.Delay? ==> r == s
  {
    if s.Delay? then s.(remaining := s.count) else s
  }

  /** process(previousValue), with the decay segment's sustain clamp as
      intended (see `DecayValueAsWritten` for the clamp the source actually
      evaluates). */
  function Process(s: Segment, prev: real): (o: Output)
    ensures SameKind(s, o.segment) && SameKind(o.segment, s)
    ensures !s.Delay? ==> o.segment == s
    ensures s.Delay? ==> o.value == prev && o.segment.count == s.count && o.segment.remaining == s.remaining - 1
    ensures s.Attack? && s.sustainAtEnd ==> o.value <= s.target && !IsComplete(o.segment, o.value)
    ensures s.Decay? && s.sustainAtEnd ==> o.value >= s.target && !IsComplete(o.segment, o.value)
    ensures s.Attack? && !(s.sustainAtEnd && RawValue(s, prev) > s.target) ==> o.value == RawValue(s, prev)
    ensures s.Decay? && !(s.sustainAtEnd && RawValue(s, prev) < s.target) ==> o.value == RawValue(s, prev)
    ensures s.Shutdown? ==> o.value == prev - s.rate
  {
    match s
    case Attack(_, _, target, sus, _, _) =>
      var result := RawValue(s, prev);
      Output(if result > target && sus then target else result, s)
    case Decay(_, _, target, sus, _, _) =>
      var result := RawValue(s, prev);
      Output(if result < target && sus then target else result, s)
    case Delay(_, _, remaining) =>
      Output(prev, s.(remaining := remaining - 1))
    case Shutdown(rate) =>
      Output(prev - rate, s)
  }

  /** The one-pole recurrence shared by attack and decay segments. */
  function RawValue(s: Segment, prev: real): real
    requires s.Attack? || s.Decay?
  {
    prev * s.coeff + s.offset
  }

  /** isComplete(value). The delay segment ignores the value. */
  predicate IsComplete(s: Segment, value: real) {
    match s
    case Attack(_, _, target, _, _, _) => value > target
    case Decay(_, _, target, _, _, _) => value < target
    case Delay(_, _, remaining) => remaining <= 0
    case Shutdown(_) => value <= 0.0
  }

  /** The decay segment's process as the source writes it: the sustain clamp
      compares `this.value`, a field nothing assigns, so it never fires. */
  function DecayValueAsWritten(s: Segment, prev: real): (v: real)
    requires s.Decay?
    ensures v == RawValue(s, prev)
  {
    DecayValueWithField(s, prev, None)
  }

  /** The decay step with the clamp reading a field `field`; JavaScript's
      `undefined < t` is false, so an unassigned field never clamps. */
  function DecayValueWithField(s: Segment, prev: real, field: Option<real>): (v: real)
    requires s.Decay?
    ensures field.None? ==> v == RawValue(s, prev)
  {
    var result := RawValue(s, prev);
    if field.Some? && field.value < s.target && s.sustainAtEnd then s.target else result
  }

  /** A sustain-at-end decay segment with a positive time-constant offset:
      as written it produces a candidate below the sustain level, which
      completes the segment, so the envelope leaves its sustain phase; the
      intended clamp holds the sustain level and does not complete. */
  lemma DecaySustainClampAsWritten()
    ensures var s := Decay(48000.0, 0.1, 0.5, true, 0.5, (0.5 - 0.1) * (1.0 - 0.5));
      && IsComplete(s, DecayValueAsWritten(s, 0.5))
      && Process(s, 0.5).value == 0.5
      && !IsComplete(s, Process(s, 0.5).value)
  {
  }

  /** The attack recurrence's only fixed point is 1 + tco (for a coefficient
      other than 1): the segment charges towards a level above the one it
      completes at. */
  lemma AttackFixedPoint(s: Segment, duration: real, tc: TimeConstant, x: real)
    requires s.Attack?
    requires SetDuration(s, duration, tc).coeff != 1.0
    ensures var a := SetDuration(s, duration, tc); RawValue(a, x) == x <==> x == 1.0 + s.tco
  {
    var a := SetDuration(s, duration, tc);
    assert RawValue(a, x) - x == (x - (1.0 + s.tco)) * (a.coeff - 1.0);
    if RawValue(a, x) == x {
      ZeroFactor(x - (1.0 + s.tco), a.coeff - 1.0);
    }
  }

  /** The decay recurrence's only fixed point is target - tco, with the
      target the segment had when setDuration ran. */
  lemma DecayFixedPoint(s: Segment, duration: real, tc: TimeConstant, x: real)
    requires s.Decay?
    requires SetDuration(s, duration, tc).coeff != 1.0
    ensures var d := SetDuration(s, duration, tc); RawValue(d, x) == x <==> x == s.target - s.tco
  {
    var d := SetDuration(s, duration, tc);
    assert d.tco == s.tco;
    assert RawValue(d, x) - x == (x - (s.target - s.tco)) * (d.coeff - 1.0);
    if RawValue(d, x) == x {
      ZeroFactor(x - (s.target - s.tco), d.coeff - 1.0);
    }
  }

  /** With a coefficient in (0, 1), one step moves strictly towards the
      fixed point `f` without reaching it, from either side. */
  lemma RecurrenceApproaches(s: Segment, f: real, prev: real)
    requires s.Attack? || s.Decay?
    requires 0.0 < s.coeff < 1.0 && s.offset == f * (1.0 - s.coeff)
    ensures prev < f ==> prev < RawValue(s, prev) < f
    ensures prev > f ==> f < RawValue(s, prev) < prev
    ensures RawValue(s, prev) - f == s.coeff * (prev - f)
  {
    StepToward(prev, s.coeff, f);
  }

  /** The one-pole step x * c + f * (1 - c) in real arithmetic. */
  lemma StepToward(x: real, c: real, f: real)
    requires 0.0 < c < 1.0
    ensures x * c + f * (1.0 - c) - f == c * (x - f)
    ensures x < f ==> x < x * c + f * (1.0 - c) < f
    ensures x > f ==> f < x * c + f * (1.0 - c) < x
  {
    var e := x - f;
    var y := x * c + f * (1.0 - c);
    assert y - f == c * e;
    assert y - x == (1.0 - c) * (-e);
    if e < 0.0 {
      MulStrictMono(1.0 - c, 0.0, -e);
      MulStrictMono(c, e, 0.0);
    }
    if e > 0.0 {
      MulStrictMono(1.0 - c, -e, 0.0);
      MulStrictMono(c, 0.0, e);
    }
  }

  /** `k` successive process calls, each fed the previous candidate. */
  function Repeat(s: Segment, x: real, k: nat): Output
    decreases k
  {
    if k == 0 then Output(x, s) else var o := Process(s, x); Repeat(o.segment, o.value, k - 1)
  }

  lemma {:induction false} DelayRepeat(s: Segment, x: real, k: nat)
    requires s.Delay?
    ensures Repeat(s, x, k) == Output(x, s.(remaining := s.remaining - k))
    decreases k
  {
    if k > 0 {
      DelayRepeat(s.(remaining := s.remaining - 1), x, k - 1);
    }
  }

  /** After a reset of a delay of n >= 1 samples, calls 1 .. n-1 leave it
      incomplete, the n-th completes it, and the value passes through. */
  lemma DelayCompletesOnNthCall(s: Segment, x: real, k: nat)
    requires s.Delay? && s.count >= 1
    ensures var o := Repeat(Reset(s), x, k);
      o.value == x && (IsComplete(o.segment, o.value) <==> k >= s.count)
  {
    DelayRepeat(Reset(s), x, k);
  }

  lemma {:induction false} ShutdownRepeat(s: Segment, x: real, k: nat)
    requires s.Shutdown?
    ensures Repeat(s, x, k) == Output(x + Steps(-s.rate, k), s)
    decreases k
  {
    if k > 0 {
      ShutdownRepeat(s, x - s.rate, k - 1);
      StepsSplit(-s.rate, 1, k - 1);
    }
  }

  /** The shutdown segment brings any value not above +1 to 0 or below
      within ceil(seconds * sampleRate) calls. */
  lemma ShutdownCompletesWithin(sampleRate: PosReal, seconds: PosReal, prev: real)
    requires prev <= 1.0
    ensures var s := NewShutdown(sampleRate, seconds);
      var n := -((-(seconds * sampleRate as real)).Floor);
      n >= 1 && IsComplete(s, Repeat(s, prev, n).value)
  {
    var s := NewShutdown(sampleRate, seconds);
    var samples := seconds * sampleRate as real;
    var n := -((-samples).Floor);
    assert n as real >= samples;
    ShutdownRepeat(s, prev, n);
    StepsIsProduct(-s.rate, n);
    assert (n as real) * s.rate >= samples * s.rate;
  }

  function Power(c: real, k: nat): real
    decreases k
  {
    if k == 0 then 1.0 else c * Power(c, k - 1)
  }

  lemma {:induction false} Bernoulli(h: real, k: nat)
    requires h >= 0.0
    ensures Power(1.0 + h, k) >= 1.0 + (k as real) * h
    decreases k
  {
    if k > 0 {
      Bernoulli(h, k - 1);
      var p := Power(1.0 + h, k - 1);
      MulMono(1.0 + h, 1.0 + ((k - 1) as real) * h, p);
      assert (1.0 + h) * (1.0 + ((k - 1) as real) * h) == 1.0 + (k as real) * h + ((k - 1) as real) * h * h;
      assert ((k - 1) as real) * h * h >= 0.0;
    }
  }

  lemma {:induction false} PowerProduct(a: real, b: real, k: nat)
    ensures Power(a, k) * Power(b, k) == Power(a * b, k)
    decreases k
  {
    if k > 0 {
      PowerProduct(a, b, k - 1);
      var pa := Power(a, k - 1);
      var pb := Power(b, k - 1);
      assert (a * pa) * (b * pb) == (a * b) * (pa * pb);
    }
  }

  lemma {:induction false} PowerOfOne(k: nat)
    ensures Power(1.0, k) == 1.0
    decreases k
  {
    if k > 0 {
      PowerOfOne(k - 1);
    }
  }

  lemma PowerInverse(c: real, d: real, k: nat)
    requires c * d == 1.0
    ensures Power(c, k) * Power(d, k) == 1.0
  {
    PowerProduct(c, d, k);
    PowerOfOne(k);
  }

  lemma {:induction false} PowerPositive(c: real, k: nat)
    requires c > 0.0
    ensures Power(c, k) > 0.0
    decreases k
  {
    if k > 0 {
      PowerPositive(c, k - 1);
    }
  }

  /** A decay segment without the sustain clamp shrinks its distance to the
      fixed point `f` geometrically. */
  lemma {:induction false} DecayRepeat(s: Segment, f: real, x: real, k: nat)
    requires s.Decay? && !s.sustainAtEnd && s.offset == f * (1.0 - s.coeff)
    ensures Repeat(s, x, k).segment == s
    ensures Repeat(s, x, k).value - f == Shrunk(s.coeff, k, x - f)
    decreases k
  {
    if k > 0 {
      DecayRepeat(s, f, x, k - 1);
      RepeatSplit(s, x, k - 1);
      DecayStepShrinks(s, f, Repeat(s, x, k - 1).value);
    }
  }

  /** `d` scaled by `c` `k` times over. */
  function Shrunk(c: real, k: nat, d: real): real
    decreases k
  {
    if k == 0 then d else c * Shrunk(c, k - 1, d)
  }

  lemma {:induction false} ShrunkIsPower(c: real, k: nat, d: real)
    ensures Shrunk(c, k, d) == Power(c, k) * d
    decreases k
  {
    if k > 0 {
      ShrunkIsPower(c, k - 1, d);
      var p := Power(c, k - 1);
      assert c * (p * d) == (c * p) * d;
    }
  }

  /** `k + 1` calls are `k` calls and one more. */
  lemma {:induction false} RepeatSplit(s: Segment, x: real, k: nat)
    ensures Repeat(s, x, k + 1) == Process(Repeat(s, x, k).segment, Repeat(s, x, k).value)
    decreases k
  {
    if k > 0 {
      var o := Process(s, x);
      RepeatSplit(o.segment, o.value, k - 1);
    }
  }

  /** One call of such a segment keeps it and scales the distance to `f` by
      its coefficient. */
  lemma DecayStepShrinks(s: Segment, f: real, x: real)
    requires s.Decay? && !s.sustainAtEnd && s.offset == f * (1.0 - s.coeff)
    ensures Process(s, x).segment == s
    ensures Process(s, x).value - f == s.coeff * (x - f)
  {
    assert Process(s, x).value == RawValue(s, x);
    assert RawValue(s, x) - f == s.coeff * (x - f);
  }

  /** A distance shrinking by a factor c in (0, 1) per call falls below
      any positive bound. */
  lemma GeometricEventuallyBelow(c: real, d0: real, tco: real) returns (k: nat)
    requires 0.0 < c < 1.0 && tco > 0.0
    ensures k >= 1 && Power(c, k) * d0 < tco
  {
    if d0 <= 0.0 {
      k := 1;
      assert Power(c, 1) == c;
      MulMono(c, d0, 0.0);
    } else {
      var h := 1.0 / c - 1.0;
      ReciprocalGap(c);
      var th := tco * h;
      MulStrictMono(tco, 0.0, h);
      k := (d0 / th).Floor + 1;
      AboveQuotient(d0, th, k as real);
      PowerShrinks(c, h, k);
      SmallEnough(Power(c, k), d0, tco, h, k as real);
    }
  }

  /** c^k (1 + k h) <= 1 when c (1 + h) == 1: Bernoulli's inequality for
      the reciprocal. */
  lemma PowerShrinks(c: real, h: real, k: nat)
    requires c > 0.0 && h >= 0.0 && c * (1.0 + h) == 1.0
    ensures Power(c, k) > 0.0 && Power(c, k) * (1.0 + (k as real) * h) <= 1.0
  {
    var pc, ph, b := Power(c, k), Power(1.0 + h, k), 1.0 + (k as real) * h;
    Bernoulli(h, k);
    PowerPositive(c, k);
    PowerInverse(c, 1.0 + h, k);
    assert b <= ph && pc * ph == 1.0;
    MulMono(pc, b, ph);
  }

  /** With p (1 + k h) <= 1 and k tco h > d0 > 0, p d0 stays below tco. */
  lemma SmallEnough(p: real, d0: real, tco: real, h: real, kr: real)
    requires p > 0.0 && d0 > 0.0 && tco > 0.0 && h > 0.0 && kr >= 0.0
    requires p * (1.0 + kr * h) <= 1.0 && kr * (tco * h) > d0
    ensures p * d0 < tco
  {
    var m := kr * h;
    assert kr * (tco * h) == tco * m;
    MulStrictMono(p, d0, tco * m);
    assert p * (tco * m) == tco * (p * m);
    assert p * m <= 1.0 - p;
    MulMono(tco, p * m, 1.0 - p);
  }

  lemma ReciprocalGap(c: real)
    requires 0.0 < c < 1.0
    ensures 1.0 / c - 1.0 > 0.0 && c * (1.0 + (1.0 / c - 1.0)) == 1.0
  {
  }

  /** A release-style decay segment (no sustain clamp) configured by
      setDuration with a positive time-constant offset and a coefficient in
      (0, 1) falls below its target, and so completes, after finitely many
      calls from any starting value. */
  lemma DecayEventuallyCompletes(s: Segment, duration: real, tc: TimeConstant, x: real)
    requires s.Decay? && !s.sustainAtEnd && s.tco > 0.0
    requires 0.0 < SetDuration(s, duration, tc).coeff < 1.0
    ensures var d := SetDuration(s, duration, tc);
      exists k: nat :: 1 <= k && IsComplete(d, Repeat(d, x, k).value)
  {
    var d := SetDuration(s, duration, tc);
    var f := s.target - s.tco;
    assert d.Decay? && d.target == s.target && d.tco == s.tco && !d.sustainAtEnd;
    assert d.offset == f * (1.0 - d.coeff);
    var k := GeometricEventuallyBelow(d.coeff, x - f, s.tco);
    DecayRepeat(d, f, x, k);
    ShrunkIsPower(d.coeff, k, x - f);
    assert Repeat(d, x, k).value - f < s.tco;
    assert IsComplete(d, Repeat(d, x, k).value);
  }
}
