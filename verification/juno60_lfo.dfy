/** The Juno-60 LFO: a phase accumulator shaped into a waveform and scaled by
    a contour envelope (delay, attack held at 1, release, shutdown). */
module Juno60Lfo {
  import opened Numeric
  import Segments
  import Envelopes
  import Lookup

  /** The waveform names the LFO recognises; any other name is a triangle. */
  datatype Waveform = NoneWave | Triangle | Square | Sine | Random | Noise

  function WaveformNamed(name: string): (w: Waveform)
    ensures w == NoneWave <==> name == "none"
    ensures w == Triangle <==> name !in {"none", "sine", "square", "random", "noise"}
  {
    if name == "none" then NoneWave
    else if name == "sine" then Sine
    else if name == "square" then Square
    else if name == "random" then Random
    else if name == "noise" then Noise
    else Triangle
  }

  const DelayIndex: nat := 0
  const AttackIndex: nat := 1
  const ReleaseIndex: nat := 2
  const ShutdownIndex: nat := 3

  const ShutdownSeconds: PosReal := 0.001
  const ReleaseSeconds: real := 0.1

  /** Slider-to-value curves, each read at slider * 4. */
  const RateCurve: seq<real> := [0.3, 0.85, 3.39, 11.49, 22.22]
  const DelayCurve: seq<real> := [0.0, 0.0639, 0.85, 1.2, 2.685]
  const AttackCurve: seq<real> := [0.0, 0.053, 0.188, 0.348, 1.15]

  datatype Lfo = Lfo(
    env: Envelopes.Envelope,
    sampleRate: PosReal,
    phase: real,
    value: real,
    restarted: bool,
    waveform: string,
    increment: real)

  /** The contour envelope keeps the constructor's segment layout. */
  predicate Contour(env: Envelopes.Envelope, sr: PosReal) {
    && Envelopes.Valid(env) && |env.segments| == 4
    && var d := env.segments[DelayIndex];
       var a := env.segments[AttackIndex];
       var r := env.segments[ReleaseIndex];
    && d.Delay? && d.sampleRate == sr
    && a.Attack? && a.sampleRate == sr && a.tco == 0.03 && a.target == 1.0 && a.sustainAtEnd
    && r.Decay? && r.sampleRate == sr && r.tco == 0.025 && r.target == 0.0 && !r.sustainAtEnd
    && env.segments[ShutdownIndex] == Segments.NewShutdown(sr, ShutdownSeconds)
  }

  predicate Valid(l: Lfo) {
    Contour(l.env, l.sampleRate)
  }

  /** The constructor; the release segment is configured for 0.1 s once.
      The phase increment is unset until setValues, here 0. */
  function New(sr: PosReal, tc: Segments.TimeConstant): (l: Lfo)
    ensures Valid(l) && !IsActive(l)
    ensures l.phase == 1.0 && l.value == 0.0 && !l.restarted && l.waveform == "triangle"
    ensures l.env.segments[ReleaseIndex].coeff == Segments.Coefficient(tc, 0.025, sr as real, ReleaseSeconds)
  {
    var segs := [
      Segments.NewDelay(sr),
      Segments.NewAttack(sr, 0.03, 1.0, true),
      Segments.SetDuration(Segments.NewDecay(sr, 0.025, 0.0, false), ReleaseSeconds, tc),
      Segments.NewShutdown(sr, ShutdownSeconds)];
    Lfo(Envelopes.New(segs), sr, 1.0, 0.0, false, "triangle", 0.0)
  }

  predicate IsActive(l: Lfo) {
    Envelopes.IsActive(l.env)
  }

  /** doTrigger: an idle LFO restarts its cycle (phase 1, so the first
      sample wraps) and its held value; then the contour is retriggered
      with its segments reset, so the delay runs again in full. */
  function DoTrigger(l: Lfo): (r: Lfo)
    requires Valid(l)
    ensures Valid(r) && IsActive(r) && r.env.phase == DelayIndex
    ensures !IsActive(l) ==> r.phase == 1.0 && r.value == 0.0
    ensures IsActive(l) ==> r.phase == l.phase && r.value == l.value
    ensures r.env.segments[DelayIndex].remaining == r.env.segments[DelayIndex].count
    ensures r.env.value == l.env.value && r.increment == l.increment && r.waveform == l.waveform
  {
    var l' := if !IsActive(l) then l.(phase := 1.0, value := 0.0) else l;
    l'.(env := Envelopes.TriggerResetting(l.env))
  }

  /** doRelease: the contour moves to its release segment. The envelope's
      `release` method is hidden by the constructor's segment field of the
      same name; it is read as the base envelope's release. */
  function DoRelease(l: Lfo): (r: Lfo)
    requires Valid(l)
    ensures Valid(r) && r == l.(env := r.env)
    ensures IsActive(l) ==> r.env.phase == ReleaseIndex
    ensures !IsActive(l) ==> r == l
  {
    l.(env := Envelopes.Release(l.env))
  }

  /** shutdown: the contour moves to its shutdown segment. The envelope's
      `shutdown` method is hidden by the constructor's segment field of the
      same name, so the call throws as written; it is read as the base
      envelope's shutdown. */
  function Shutdown(l: Lfo): (r: Lfo)
    requires Valid(l)
    ensures Valid(r) && r == l.(env := r.env)
    ensures IsActive(l) ==> r.env.phase == ShutdownIndex
    ensures !IsActive(l) ==> r == l
  {
    l.(env := Envelopes.Shutdown(l.env))
  }

  /** The triangle: 4p, folded down above 1 and up below -1. */
  function TriangleWave(p: real): real {
    var v := p * 4.0;
    var v1 := if v > 1.0 then 2.0 - v else v;
    if v1 < -1.0 then -2.0 - v1 else v1
  }

  /** The same triangle drawn as three line pieces over one cycle. */
  function TriangleReference(p: real): real
    requires 0.0 <= p <= 1.0
  {
    if p <= 0.25 then 4.0 * p
    else if p <= 0.75 then 2.0 - 4.0 * p
    else 4.0 * p - 4.0
  }

  lemma TriangleMatchesReference(p: real)
    requires 0.0 <= p <= 1.0
    ensures TriangleWave(p) == TriangleReference(p)
    ensures -1.0 <= TriangleWave(p) <= 1.0
    ensures TriangleWave(0.0) == 0.0 && TriangleWave(1.0) == 0.0
    ensures TriangleWave(0.25) == 1.0 && TriangleWave(0.75) == -1.0
  {
  }

  lemma TriangleBounded(p: real)
    ensures 0.0 <= p <= 1.0 ==> -1.0 <= TriangleWave(p) <= 1.0
  {
  }

  /** The waveform value for one sample. `draw` is the sample's
      Math.random() value, `sine` stands for p |-> Math.sin(2 pi p). The
      "none" waveform yields the restart flag as a number. */
  function WaveValue(w: Waveform, p: real, restarted: bool, previous: real, draw: real, sine: real -> real): (v: real)
    ensures w == Square ==> (v == 1.0 <==> p <= 0.5) && (v == -1.0 <==> p > 0.5)
    ensures w == Random && !restarted ==> v == previous
    ensures w == NoneWave ==> (v == 1.0 <==> restarted) && (v == 0.0 <==> !restarted)
    ensures w == Triangle && 0.0 <= p <= 1.0 ==> -1.0 <= v <= 1.0
    ensures (w == Random && restarted) || w == Noise ==> (0.0 <= draw < 1.0 ==> -1.0 <= v < 1.0)
  {
    match w
    case NoneWave => if restarted then 1.0 else 0.0
    case Sine => sine(p)
    case Square => if p > 0.5 then -1.0 else 1.0
    case Random => if restarted then draw * 2.0 - 1.0 else previous
    case Noise => draw * 2.0 - 1.0
    case Triangle =>
      TriangleBounded(p);
      TriangleWave(p)
  }

  datatype Step = Step(output: real, lfo: Lfo)

  /** process: advance the phase (wrapping above 1), advance the contour,
      and scale the waveform by the contour value. */
  function Process(l: Lfo, draw: real, sine: real -> real): (s: Step)
    requires Valid(l)
    ensures Valid(s.lfo)
    ensures !IsActive(l) ==> s == Step(0.0, l)
    ensures IsActive(l) ==> s.lfo == Advance(l).(value := s.lfo.value)
    ensures IsActive(l) && s.lfo.env.value == 0.0 ==> s.output == 0.0 && s.lfo.value == l.value
    ensures IsActive(l) && s.lfo.env.value != 0.0 ==>
      s.lfo.value == WaveValue(WaveformNamed(l.waveform), s.lfo.phase, s.lfo.restarted, l.value, draw, sine)
      && s.output == s.lfo.env.value * s.lfo.value
  {
    if !IsActive(l) then Step(0.0, l)
    else
      var l1 := Advance(l);
      if l1.env.value == 0.0 then Step(0.0, l1)
      else
        var v := WaveValue(WaveformNamed(l.waveform), l1.phase, l1.restarted, l.value, draw, sine);
        Step(l1.env.value * v, l1.(value := v))
  }

  /** The part of process every active sample does: advance the phase,
      wrapping past 1, and run the contour once. */
  function Advance(l: Lfo): (r: Lfo)
    requires Valid(l)
    ensures Valid(r)
    ensures r == l.(phase := r.phase, restarted := r.restarted, env := r.env)
    ensures r.env == Envelopes.Process(l.env)
    ensures r.restarted <==> l.phase + l.increment > 1.0
    ensures r.phase == (if r.restarted then l.phase + l.increment - 1.0 else l.phase + l.increment)
  {
    var p := l.phase + l.increment;
    var env := Envelopes.Process(l.env);
    ContourShapeKept(l.env, env, l.sampleRate);
    l.(phase := if p > 1.0 then p - 1.0 else p, restarted := p > 1.0, env := env)
  }

  lemma ContourShapeKept(a: Envelopes.Envelope, b: Envelopes.Envelope, sr: PosReal)
    requires Contour(a, sr) && Envelopes.Valid(b) && Envelopes.OnlyDelaysMove(a.segments, b.segments)
    ensures Contour(b, sr)
  {
    assert Segments.SameKind(a.segments[DelayIndex], b.segments[DelayIndex]);
    assert Segments.SameKind(a.segments[AttackIndex], b.segments[AttackIndex]);
    assert Segments.SameKind(a.segments[ReleaseIndex], b.segments[ReleaseIndex]);
    assert Segments.SameKind(a.segments[ShutdownIndex], b.segments[ShutdownIndex]);
  }

  /** With an increment in [0, 1] the phase stays in [0, 1]. */
  lemma PhaseStaysInUnitInterval(l: Lfo, draw: real, sine: real -> real)
    requires Valid(l) && 0.0 <= l.phase <= 1.0 && 0.0 <= l.increment <= 1.0
    ensures 0.0 <= Process(l, draw, sine).lfo.phase <= 1.0
  {
  }

  /** The "random" waveform holds its value between restarts. */
  lemma RandomHoldsBetweenRestarts(l: Lfo, draw: real, sine: real -> real)
    requires Valid(l) && WaveformNamed(l.waveform) == Random
    requires !Process(l, draw, sine).lfo.restarted
    ensures Process(l, draw, sine).lfo.value == l.value
  {
  }

  /** With the triangle, a phase in [0, 1] and the contour in [0, 1], the
      output lies in [-1, 1]. */
  lemma TriangleOutputBounded(l: Lfo, draw: real, sine: real -> real)
    requires Valid(l) && WaveformNamed(l.waveform) == Triangle
    requires 0.0 <= l.phase <= 1.0 && 0.0 <= l.increment <= 1.0
    requires 0.0 <= Envelopes.Process(l.env).value <= 1.0
    ensures -1.0 <= Process(l, draw, sine).output <= 1.0
  {
    var s := Process(l, draw, sine);
    if !IsActive(l) {
      assert s.output == 0.0;
    } else if s.lfo.env.value == 0.0 {
      assert s.output == 0.0;
    } else {
      assert 0.0 <= s.lfo.phase <= 1.0;
      assert s.lfo.env == Envelopes.Process(l.env);
      UnitProduct(s.output, s.lfo.env.value, s.lfo.value);
    }
  }

  /** In its attack segment the contour is held: it never leaves the
      attack and never exceeds 1. */
  lemma ContourHeldInAttack(l: Lfo)
    requires Valid(l) && l.env.phase == AttackIndex
    ensures Envelopes.Process(l.env).phase == AttackIndex
    ensures Envelopes.Process(l.env).value <= 1.0
  {
  }

  /** setValues: increment = frequency / sampleRate; the delay and attack
      segments get their durations. */
  function SetValues(l: Lfo, frequency: real, delay: real, attack: real, tc: Segments.TimeConstant): (r: Lfo)
    requires Valid(l)
    ensures Valid(r) && r.env.phase == l.env.phase && r.env.value == l.env.value
    ensures r.increment * l.sampleRate as real == frequency
    ensures var d := r.env.segments[DelayIndex];
      && d.count == Trunc(l.sampleRate as real * delay)
      && d.remaining - d.count == l.env.segments[DelayIndex].remaining - l.env.segments[DelayIndex].count
    ensures r.env.segments[AttackIndex].coeff == Segments.Coefficient(tc, 0.03, l.sampleRate as real, attack)
    ensures r.env.segments[ReleaseIndex] == l.env.segments[ReleaseIndex]
    ensures r.phase == l.phase && r.value == l.value && r.waveform == l.waveform
  {
    var segs := l.env.segments;
    var d := Segments.SetDuration(segs[DelayIndex], delay, tc);
    var a := Segments.SetDuration(segs[AttackIndex], attack, tc);
    l.(increment := frequency / l.sampleRate as real,
       env := l.env.(segments := [d, a, segs[ReleaseIndex], segs[ShutdownIndex]]))
  }

  lemma CurvesNonDecreasing()
    ensures Lookup.NonDecreasing(RateCurve)
    ensures Lookup.NonDecreasing(DelayCurve)
    ensures Lookup.NonDecreasing(AttackCurve)
  {
  }

  /** Sliders run over [0, 1]; each curve is read at slider * 4. */
  function CurvePosition(slider: real): real {
    slider * 4.0
  }

  /** The rate the rate slider selects: the rate curve read at slider * 4,
      clamped at its ends, so always within [0.3, 22.22] Hz. */
  function SliderRate(slider: real): (f: real)
    ensures 0.3 <= f <= 22.22
  {
    CurvesNonDecreasing();
    Lookup.LookupWithinSortedTable(CurvePosition(slider), RateCurve);
    Lookup.Lookup(CurvePosition(slider), RateCurve)
  }

  /** The delay the delay slider selects, within [0, 2.685] s. */
  function SliderDelay(slider: real): (d: real)
    ensures 0.0 <= d <= 2.685
  {
    CurvesNonDecreasing();
    Lookup.LookupWithinSortedTable(CurvePosition(slider), DelayCurve);
    Lookup.Lookup(CurvePosition(slider), DelayCurve)
  }

  /** The attack the delay slider selects, within [0, 1.15] s. */
  function SliderAttack(slider: real): (a: real)
    ensures 0.0 <= a <= 1.15
  {
    CurvesNonDecreasing();
    Lookup.LookupWithinSortedTable(CurvePosition(slider), AttackCurve);
    Lookup.Lookup(CurvePosition(slider), AttackCurve)
  }

  /** setValuesFromJuno60Sliders, with the clamped lookup: the rate slider
      sets the frequency, the delay slider both the delay and the attack
      duration. */
  function SetValuesFromSliders(l: Lfo, rateSlider: real, delaySlider: real, tc: Segments.TimeConstant): (r: Lfo)
    requires Valid(l)
    ensures Valid(r) && r.env.phase == l.env.phase && r.env.value == l.env.value
    ensures r.env.segments[AttackIndex].coeff == Segments.Coefficient(tc, 0.03, l.sampleRate as real, SliderAttack(delaySlider))
    ensures r.env.segments[ReleaseIndex] == l.env.segments[ReleaseIndex]
    ensures r.phase == l.phase && r.value == l.value && r.waveform == l.waveform
  {
    SetValues(l, SliderRate(rateSlider), SliderDelay(delaySlider), SliderAttack(delaySlider), tc)
  }

  /** A higher frequency never gives a smaller phase increment. */
  lemma IncrementMonotone(l: Lfo, f1: real, f2: real, delay: real, attack: real, tc: Segments.TimeConstant)
    requires Valid(l) && f1 <= f2
    ensures SetValues(l, f1, delay, attack, tc).increment <= SetValues(l, f2, delay, attack, tc).increment
  {
    var sr := l.sampleRate as real;
    MulCancel(sr, SetValues(l, f1, delay, attack, tc).increment, SetValues(l, f2, delay, attack, tc).increment);
  }

  /** A longer delay never counts fewer samples, whatever the attack. */
  lemma DelayCountMonotone(l: Lfo, frequency: real, d1: real, d2: real, a1: real, a2: real, tc: Segments.TimeConstant)
    requires Valid(l) && 0.0 <= d1 <= d2
    ensures SetValues(l, frequency, d1, a1, tc).env.segments[DelayIndex].count
         <= SetValues(l, frequency, d2, a2, tc).env.segments[DelayIndex].count
  {
    var sr := l.sampleRate as real;
    assert SetValues(l, frequency, d1, a1, tc).env.segments[DelayIndex].count == Trunc(sr * d1);
    assert SetValues(l, frequency, d2, a2, tc).env.segments[DelayIndex].count == Trunc(sr * d2);
    ScaledTruncMonotone(sr, d1, d2);
  }

  /** A delay within the delay curve's range counts whole samples: at most
      2.685 s worth of them, and never a negative number. */
  lemma DelayCountWithin(l: Lfo, r: Lfo, frequency: real, delay: real, attack: real, tc: Segments.TimeConstant)
    requires Valid(l) && r == SetValues(l, frequency, delay, attack, tc) && 0.0 <= delay <= 2.685
    ensures var n := r.env.segments[DelayIndex].count;
      && n == Trunc(l.sampleRate as real * delay)
      && 0 <= n && n as real <= l.sampleRate as real * 2.685
  {
    ScaledTruncWithin(l.sampleRate as real, delay, 2.685);
  }

  /** A higher rate slider reads a rate no lower. */
  lemma SliderRateMonotone(low: real, high: real)
    requires low <= high
    ensures SliderRate(low) <= SliderRate(high)
  {
    CurvesNonDecreasing();
    Lookup.LookupMonotone(CurvePosition(low), CurvePosition(high), RateCurve);
  }

  /** A higher delay slider reads a delay no shorter. */
  lemma SliderDelayMonotone(low: real, high: real)
    requires low <= high
    ensures SliderDelay(low) <= SliderDelay(high)
  {
    CurvesNonDecreasing();
    Lookup.LookupMonotone(CurvePosition(low), CurvePosition(high), DelayCurve);
  }

  /** As written the lookup reads past the end of the rate curve when the
      rate slider is at its maximum. */
  lemma RateSliderAtMaximumAsWritten()
    ensures Lookup.LookupAsWritten(CurvePosition(1.0), RateCurve).None?
    ensures Lookup.Lookup(CurvePosition(1.0), RateCurve) == 22.22
  {
  }

  /** As written, trigger does not reset the segments: once the delay has
      counted down, a retrigger skips it on the very first sample and the
      contour is in its attack at once. */
  lemma TriggerSkipsElapsedDelay(l: Lfo)
    requires Valid(l) && l.env.segments[DelayIndex].remaining <= 0
    ensures Envelopes.Process(Envelopes.Trigger(l.env)).phase == AttackIndex
  {
    var t := Envelopes.Trigger(l.env);
    Envelopes.RunVisits(t.segments, t.phase, t.value);
  }

  /** With the reset, a delay of n >= 2 samples is still running after the
      first sample of a retrigger, whatever had elapsed before. */
  lemma DoTriggerRestartsDelay(l: Lfo)
    requires Valid(l) && l.env.segments[DelayIndex].count >= 2
    ensures Envelopes.Process(DoTrigger(l).env).phase == DelayIndex
    ensures Envelopes.Process(DoTrigger(l).env).value == l.env.value
  {
  }
}
