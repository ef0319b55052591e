/** The earlier stand-alone ADSR: a numbered phase (off, attack, decay,
    sustain, release, shutdown) and one-pole steps toward targets that lie
    past the levels where each phase ends. */
module PhaseEnvelope {
  import opened Numeric
  import opened Wrappers

  datatype Phase = Off | Attack | Decay | Sustain | Release | Shutdown

  /** The phase numbers the envelope stores. */
  function Number(p: Phase): (k: nat)
    ensures k <= 5
    ensures p == Off <==> k == 0
    ensures p == Sustain <==> k == 3
  {
    match p
    case Off => 0
    case Attack => 1
    case Decay => 2
    case Sustain => 3
    case Release => 4
    case Shutdown => 5
  }

  /** Attack charges toward 1.41 and stops at 1; decay and release discharge
      toward 0.024 below their level so that they reach it. */
  const TargetAboveOne: real := 1.41
  const TargetBelowZero: real := -0.024

  datatype Env = Env(
    phase: Phase,
    attackFactor: real,
    decayFactor: real,
    releaseFactor: real,
    sustainLevel: real,
    value: real,
    attackAnchorRate: real,
    decayAnchorRate: real)

  /** A new envelope: off, at 0, with no rates. */
  function New(sampleRate: PosReal): (e: Env)
    ensures e.phase == Off && e.value == 0.0 && e.sustainLevel == 0.0
    ensures e.attackFactor == 0.0 && e.decayFactor == 0.0 && e.releaseFactor == 0.0
    ensures e.attackAnchorRate * sampleRate == 882.0 && e.decayAnchorRate * sampleRate == 0.22
  {
    Env(Off, 0.0, 0.0, 0.0, 0.0, 0.0, 882.0 / sampleRate, 0.22 / sampleRate)
  }

  // ------------------------------------------------------------ rate setters

  /** The error a setter throws: which factor, the number its message
      reports, and the slider position. */
  datatype RateError =
    | InvalidAttack(reported: real, slider: real)
    | InvalidDecay(reported: real, slider: real)
    | InvalidRelease(reported: real, slider: real)

  /** A setter stores the factor before checking it, so the envelope changes
      even when it throws. */
  datatype Outcome = Outcome(env: Env, error: Option<RateError>)

  /** setAttackRate: anchor * 0.45738^slider; `pow` stands for Math.pow. */
  function SetAttackRate(e: Env, slider: real, pow: (real, real) -> real): (o: Outcome)
    ensures o.env == e.(attackFactor := o.env.attackFactor)
    ensures o.error.Some? <==> o.env.attackFactor <= 0.0
    ensures o.error.Some? ==> o.error.value == InvalidAttack(o.env.attackFactor, slider)
    ensures e.attackAnchorRate > 0.0 && pow(0.45738, slider) > 0.0 ==> o.error.None?
  {
    var factor := e.attackAnchorRate * pow(0.45738, slider);
    Outcome(e.(attackFactor := factor), if factor <= 0.0 then Some(InvalidAttack(factor, slider)) else None)
  }

  /** The decay and release curve: anchor * 13600^((10 - slider) * 0.07). */
  function DischargeFactor(anchor: real, slider: real, pow: (real, real) -> real): (f: real)
    ensures anchor > 0.0 && pow(13600.0, (10.0 - slider) * 0.07) > 0.0 ==> f > 0.0
  {
    anchor * pow(13600.0, (10.0 - slider) * 0.07)
  }

  /** setDecayRate. */
  function SetDecayRate(e: Env, slider: real, pow: (real, real) -> real): (o: Outcome)
    ensures o.env == e.(decayFactor := o.env.decayFactor)
    ensures o.error.Some? <==> o.env.decayFactor <= 0.0
    ensures o.error.Some? ==> o.error.value == InvalidDecay(o.env.decayFactor, slider)
  {
    var factor := DischargeFactor(e.decayAnchorRate, slider, pow);
    Outcome(e.(decayFactor := factor), if factor <= 0.0 then Some(InvalidDecay(factor, slider)) else None)
  }

  /** setReleaseRate as written: the check is on the release factor, but the
      message reports the decay factor. */
  function SetReleaseRateAsWritten(e: Env, slider: real, pow: (real, real) -> real): (o: Outcome)
    ensures o.env == e.(releaseFactor := o.env.releaseFactor)
    ensures o.error.Some? <==> o.env.releaseFactor <= 0.0
    ensures o.error.Some? ==> o.error.value == InvalidRelease(e.decayFactor, slider)
  {
    var factor := DischargeFactor(e.decayAnchorRate, slider, pow);
    Outcome(e.(releaseFactor := factor), if factor <= 0.0 then Some(InvalidRelease(e.decayFactor, slider)) else None)
  }

  /** setReleaseRate as evidently intended: the message reports the factor
      that failed. */
  function SetReleaseRate(e: Env, slider: real, pow: (real, real) -> real): (o: Outcome)
    ensures o.env == e.(releaseFactor := o.env.releaseFactor)
    ensures o.error.Some? <==> o.env.releaseFactor <= 0.0
    ensures o.error.Some? ==> o.error.value == InvalidRelease(o.env.releaseFactor, slider)
  {
    var factor := DischargeFactor(e.decayAnchorRate, slider, pow);
    Outcome(e.(releaseFactor := factor), if factor <= 0.0 then Some(InvalidRelease(factor, slider)) else None)
  }

  /** The two release setters store the same factor and fail on the same
      inputs; they differ only in the number the message reports. */
  lemma ReleaseSettersAgree(e: Env, slider: real, pow: (real, real) -> real)
    ensures SetReleaseRateAsWritten(e, slider, pow).env == SetReleaseRate(e, slider, pow).env
    ensures SetReleaseRateAsWritten(e, slider, pow).error.Some? <==> SetReleaseRate(e, slider, pow).error.Some?
  {
  }

  /** A curve that gives 0 at slider 10 makes the release setter throw with
      a message naming the decay factor (here 0.5) instead of the release
      factor (0). */
  lemma ReleaseMessageReportsDecayFactor()
    ensures var e := New(44100.0).(decayFactor := 0.5);
      var zero := (b: real, x: real) => 0.0;
      && SetReleaseRateAsWritten(e, 10.0, zero).error == Some(InvalidRelease(0.5, 10.0))
      && SetReleaseRate(e, 10.0, zero).error == Some(InvalidRelease(0.0, 10.0))
  {
  }

  // ------------------------------------------------------------ process

  /** One attack step from `from`. */
  function AttackStep(from: real, af: real): real {
    from + (TargetAboveOne - from) * af
  }

  /** One decay step from `from` toward 0.024 below the sustain level. */
  function DecayStep(from: real, sustain: real, df: real): real {
    from - ((from - sustain) - TargetBelowZero) * df
  }

  /** One release step from `from` toward -0.024. */
  function ReleaseStep(from: real, rf: real): real {
    from - (from - TargetBelowZero) * rf
  }

  /** The decay part of process, from the stored value. */
  function DecayFrom(e: Env): (r: Env)
    ensures r.phase == Decay || r.phase == Sustain
    ensures r.phase == Sustain ==> r.value == e.sustainLevel
    ensures r.phase == Decay ==> r.value > e.sustainLevel
    ensures r == e.(phase := r.phase, value := r.value)
  {
    var v := DecayStep(e.value, e.sustainLevel, e.decayFactor);
    if v <= e.sustainLevel then e.(phase := Sustain, value := e.sustainLevel)
    else e.(phase := Decay, value := v)
  }

  /** process: attack, then decay (which also runs on the sample the
      attack reaches 1, from the value before that sample), then release;
      every step starts from the stored value. Off, sustain and shutdown
      hold the value. */
  function Process(e: Env): (r: Env)
    ensures r == e.(phase := r.phase, value := r.value)
    ensures e.phase in {Off, Sustain, Shutdown} ==> r == e
    ensures e.phase == Attack ==> r.phase in {Attack, Decay, Sustain}
    ensures e.phase == Attack ==> (r.phase == Attack <==> AttackStep(e.value, e.attackFactor) < 1.0)
    ensures e.phase == Decay ==> r.phase in {Decay, Sustain}
    ensures e.phase in {Attack, Decay} && r.phase == Sustain ==> r.value == e.sustainLevel
    ensures e.phase == Release ==> r.phase in {Release, Off}
    ensures e.phase == Release && r.phase == Off ==> r.value == 0.0
    ensures e.phase == Release && r.phase == Release ==> r.value > 0.0
  {
    match e.phase
    case Attack =>
      var v := AttackStep(e.value, e.attackFactor);
      if v >= 1.0 then DecayFrom(e) else e.(value := v)
    case Decay => DecayFrom(e)
    case Release =>
      var v := ReleaseStep(e.value, e.releaseFactor);
      if v <= 0.0 then e.(phase := Off, value := 0.0) else e.(value := v)
    case _ => e
  }

  /** `n` samples. */
  function Run(e: Env, n: nat): (r: Env)
    decreases n
  {
    if n == 0 then e else Run(Process(e), n - 1)
  }

  // ------------------------------------------------------------ properties

  /** Rates in (0, 1], a sustain level and a value in [0, 1], and a decay
      that is still above its sustain level. */
  predicate Valid(e: Env) {
    && 0.0 < e.attackFactor <= 1.0
    && 0.0 < e.decayFactor <= 1.0
    && 0.0 < e.releaseFactor <= 1.0
    && 0.0 <= e.sustainLevel <= 1.0
    && 0.0 <= e.value <= 1.0
    && (e.phase == Decay ==> e.value >= e.sustainLevel)
  }

  /** A decay step from at or below the sustain level lands on it. */
  lemma DecayFromBelowClamps(from: real, s: real, df: real)
    requires from < s && 0.0 < df <= 1.0
    ensures DecayStep(from, s, df) <= s
  {
    var d := from - s;
    var k := (d + 0.024) * df;
    assert DecayStep(from, s, df) == from - k;
    ShrinkNegative(d, df);
    MulMono(df, d, d + 0.024);
    var m := d * df;
    assert d <= m;
    assert m <= k;
    assert d <= k;
    assert from - k <= s;
  }

  /** Scaling a negative number by a factor in (0, 1] does not lower it. */
  lemma ShrinkNegative(d: real, f: real)
    requires d < 0.0 && 0.0 < f <= 1.0
    ensures d * f >= d
  {
    MulMono(-d, f, 1.0);
  }

  /** A decay step from at or above the sustain level never rises. */
  lemma DecayFromAboveFalls(from: real, s: real, df: real)
    requires from >= s && 0.0 < df <= 1.0
    ensures DecayStep(from, s, df) <= from - 0.024 * df
  {
    MulMono(df, 0.024, from - s + 0.024);
  }

  /** The envelope never leaves [0, 1], and a decay stays above sustain. */
  lemma ProcessKeepsRange(e: Env)
    requires Valid(e)
    ensures Valid(Process(e))
  {
    match e.phase
    case Attack =>
      if AttackStep(e.value, e.attackFactor) >= 1.0 {
        DecayBounded(e);
      } else {
        AttackRises(e.value, e.attackFactor);
      }
    case Decay =>
      DecayBounded(e);
    case Release =>
      ReleaseFalls(e.value, e.releaseFactor);
    case _ =>
  }

  /** An attack step below the target rises. */
  lemma AttackRises(from: real, af: real)
    requires from <= 1.0 && 0.0 < af <= 1.0
    ensures AttackStep(from, af) > from
  {
    MulStrictMono(af, 0.0, TargetAboveOne - from);
  }

  /** A release step from a non-negative value falls by at least
      0.024 * releaseFactor. */
  lemma ReleaseFalls(from: real, rf: real)
    requires from >= 0.0 && 0.0 < rf <= 1.0
    ensures ReleaseStep(from, rf) <= from - 0.024 * rf
  {
    MulMono(rf, 0.024, from + 0.024);
  }

  /** The decay from a valid envelope stays in [sustain, max(value, sustain)]. */
  lemma DecayBounded(e: Env)
    requires Valid(e)
    ensures var r := DecayFrom(e); e.sustainLevel <= r.value <= 1.0 && r.value >= 0.0
  {
    if e.value < e.sustainLevel {
      DecayFromBelowClamps(e.value, e.sustainLevel, e.decayFactor);
    } else {
      DecayFromAboveFalls(e.value, e.sustainLevel, e.decayFactor);
    }
  }

  /** The sample that ends the attack returns the decay of the value before
      it: never above that value or the sustain level, so the attack's own
      peak is never output. */
  lemma AttackPeakIsSkipped(e: Env)
    requires Valid(e) && e.phase == Attack && AttackStep(e.value, e.attackFactor) >= 1.0
    ensures Process(e).value <= (if e.value < e.sustainLevel then e.sustainLevel else e.value)
    ensures Process(e).phase != Attack
  {
    if e.value < e.sustainLevel {
      DecayFromBelowClamps(e.value, e.sustainLevel, e.decayFactor);
    } else {
      DecayFromAboveFalls(e.value, e.sustainLevel, e.decayFactor);
    }
  }

  /** An envelope that is off, sustaining or shut down stays as it is. */
  lemma {:induction false} RunHolds(e: Env, n: nat)
    requires e.phase in {Off, Sustain, Shutdown}
    ensures Run(e, n) == e
    decreases n
  {
    if n > 0 {
      RunHolds(Process(e), n - 1);
    }
  }

  /** The release ends: once n * 0.024 * releaseFactor exceeds the value,
      n samples bring the envelope to off at 0. */
  lemma {:induction false} ReleaseEnds(e: Env, n: nat)
    requires Valid(e) && e.phase == Release
    requires (n as real) * 0.024 * e.releaseFactor > e.value
    ensures Run(e, n).phase == Off && Run(e, n).value == 0.0
    decreases n
  {
    var rf := e.releaseFactor;
    var p := Process(e);
    ProcessKeepsRange(e);
    if p.phase == Off {
      RunHolds(p, n - 1);
    } else {
      ReleaseFalls(e.value, rf);
      assert ((n - 1) as real) * 0.024 * rf == (n as real) * 0.024 * rf - 0.024 * rf;
      ReleaseEnds(p, n - 1);
    }
  }

  /** The decay ends: once n * 0.024 * decayFactor exceeds the distance to
      the sustain level, n samples bring the envelope to sustain at that
      level. */
  lemma {:induction false} DecayEnds(e: Env, n: nat)
    requires Valid(e) && e.phase == Decay
    requires (n as real) * 0.024 * e.decayFactor > e.value - e.sustainLevel
    ensures Run(e, n).phase == Sustain && Run(e, n).value == e.sustainLevel
    decreases n
  {
    var df := e.decayFactor;
    var p := Process(e);
    ProcessKeepsRange(e);
    if p.phase == Sustain {
      RunHolds(p, n - 1);
    } else {
      DecayFromAboveFalls(e.value, e.sustainLevel, df);
      assert ((n - 1) as real) * 0.024 * df == (n as real) * 0.024 * df - 0.024 * df;
      DecayEnds(p, n - 1);
    }
  }
}
