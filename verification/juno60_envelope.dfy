/** The Juno-60 note envelope: attack, decay (held at the sustain level),
    release and shutdown segments on the shared envelope machine. */
module Juno60Envelope {
  import opened Numeric
  import Segments
  import opened Envelopes

  const AttackTco: real := 0.632
  const DecayTco: real := -0.02
  const ShutdownSeconds: PosReal := 0.002

  const AttackIndex: nat := 0
  const DecayIndex: nat := 1
  const ReleaseIndex: nat := 2
  const ShutdownIndex: nat := 3

  /** The segment layout the constructor builds: every segment at the
      attack's sample rate, decay and release sharing one time-constant
      offset. */
  predicate Layout(e: Envelope) {
    && Valid(e) && |e.segments| == 4
    && var a := e.segments[AttackIndex];
       var d := e.segments[DecayIndex];
       var r := e.segments[ReleaseIndex];
    && a.Attack? && a.tco == AttackTco && a.target == 1.0 && !a.sustainAtEnd
    && d.Decay? && d.sampleRate == a.sampleRate && d.sustainAtEnd
    && r.Decay? && r.sampleRate == a.sampleRate && r.tco == d.tco && r.target == 0.0 && !r.sustainAtEnd
    && e.segments[ShutdownIndex] == Segments.NewShutdown(a.sampleRate, ShutdownSeconds)
  }

  /** The layout at sample rate `sr` with decay offset `decayTco`. */
  predicate LayoutWith(e: Envelope, sr: PosReal, decayTco: real) {
    Layout(e) && e.segments[AttackIndex].sampleRate == sr && e.segments[ReleaseIndex].tco == decayTco
  }

  /** The constructor: the decay segment starts with target 0 until
      setValues gives it the sustain level. */
  function New(sr: PosReal): (e: Envelope)
    ensures LayoutWith(e, sr, DecayTco) && Layout(e)
    ensures !IsActive(e) && e.value == 0.0
  {
    Envelopes.New([
      Segments.NewAttack(sr, AttackTco, 1.0, false),
      Segments.NewDecay(sr, DecayTco, 0.0, true),
      Segments.NewDecay(sr, DecayTco, 0.0, false),
      Segments.NewShutdown(sr, ShutdownSeconds)])
  }

  /** setValues: the decay target becomes the sustain level before the decay
      coefficients are recomputed; the shutdown segment is not touched. */
  function SetValues(e: Envelope, attack: real, decay: real, sustain: real, release: real, tc: Segments.TimeConstant): (r: Envelope)
    requires Layout(e)
    ensures Layout(r) && r.phase == e.phase && r.value == e.value
    ensures LayoutWith(r, e.segments[AttackIndex].sampleRate, e.segments[ReleaseIndex].tco)
    ensures r.segments[DecayIndex].target == sustain
    ensures r.segments[DecayIndex].offset == (sustain - r.segments[DecayIndex].tco) * (1.0 - r.segments[DecayIndex].coeff)
    ensures var sr := e.segments[AttackIndex].sampleRate as real;
      && r.segments[AttackIndex].coeff == Segments.Coefficient(tc, AttackTco, sr, attack)
      && r.segments[DecayIndex].coeff == Segments.Coefficient(tc, e.segments[DecayIndex].tco, sr, decay)
      && r.segments[ReleaseIndex].coeff == Segments.Coefficient(tc, e.segments[ReleaseIndex].tco, sr, release)
    ensures r.segments[ShutdownIndex] == e.segments[ShutdownIndex]
  {
    var segs := e.segments;
    var a := Segments.SetDuration(segs[AttackIndex], attack, tc);
    var d0 := segs[DecayIndex];
    var held := Segments.Decay(d0.sampleRate, d0.tco, sustain, d0.sustainAtEnd, d0.coeff, d0.offset);
    var d := Segments.SetDuration(held, decay, tc);
    var rel := Segments.SetDuration(segs[ReleaseIndex], release, tc);
    e.(segments := [a, d, rel, segs[ShutdownIndex]])
  }

  /** No segment of the layout is a delay, so process leaves every segment
      as it is and the layout holds afterwards. */
  lemma ProcessKeepsLayout(e: Envelope)
    requires Layout(e)
    ensures Layout(Process(e)) && Process(e).segments == e.segments
  {
    var r := Process(e);
    assert forall i :: 0 <= i < 4 ==> !e.segments[i].Delay?;
    assert r.segments == e.segments;
  }

  /** release lands on the release segment and shutdown on the shutdown
      segment. */
  lemma ReleaseAndShutdownTargets(e: Envelope)
    requires Layout(e) && IsActive(e)
    ensures var r := Release(e); r.phase == ReleaseIndex && r.segments[r.phase].Decay? && r.segments[r.phase].target == 0.0
    ensures var s := Shutdown(e); s.phase == ShutdownIndex && s.segments[s.phase].Shutdown?
  {
  }

  /** In the attack phase the candidate is never clamped: the envelope
      moves on to the decay phase exactly when the candidate exceeds 1. */
  lemma AttackCompletesAboveOne(e: Envelope)
    requires Layout(e) && e.phase == AttackIndex
    ensures var v := Segments.RawValue(e.segments[AttackIndex], e.value);
      && (v > 1.0 ==> Process(e).phase >= DecayIndex || !IsActive(Process(e)))
      && (v <= 1.0 ==> Process(e).phase == AttackIndex && Process(e).value == v)
  {
  }

  /** In the decay phase the (intended) sustain clamp keeps the value at or
      above the sustain level and the phase in decay. */
  lemma DecayHoldsAtSustain(e: Envelope)
    requires Layout(e) && e.phase == DecayIndex
    ensures Process(e).phase == DecayIndex
    ensures Process(e).value >= e.segments[DecayIndex].target
  {
  }

  /** As written, the decay and release segments carry the offset -0.02. The
      coefficient's logarithm then has the negative argument
      (1 - 0.02) / -0.02, so the source computes no real coefficient. For a
      real coefficient in (0, 1), which the source does not compute, the
      release recurrence settles at 0.02 above its target 0: a non-negative
      value never falls below 0, so the release phase never completes. */
  lemma ReleaseNeverCompletesAsWritten(e: Envelope)
    requires Layout(e) && e.segments[ReleaseIndex].tco == DecayTco
    requires var r := e.segments[ReleaseIndex];
      0.0 < r.coeff < 1.0 && r.offset == (r.target - r.tco) * (1.0 - r.coeff)
    requires e.phase == ReleaseIndex && e.value >= 0.0
    ensures (1.0 + DecayTco) / DecayTco < 0.0
    ensures Process(e).phase == ReleaseIndex && Process(e).value >= 0.0
  {
    var r := e.segments[ReleaseIndex];
    MulMono(r.coeff, 0.0, e.value);
  }

  /** The evidently intended offset: the same magnitude, positive. */
  const DecayTcoCorrected: real := 0.02

  function NewCorrected(sr: PosReal): (e: Envelope)
    ensures LayoutWith(e, sr, DecayTcoCorrected) && Layout(e)
    ensures !IsActive(e) && e.value == 0.0
  {
    Envelopes.New([
      Segments.NewAttack(sr, AttackTco, 1.0, false),
      Segments.NewDecay(sr, DecayTcoCorrected, 0.0, true),
      Segments.NewDecay(sr, DecayTcoCorrected, 0.0, false),
      Segments.NewShutdown(sr, ShutdownSeconds)])
  }

  /** With the positive offset the release segment, configured by
      setValues with a coefficient in (0, 1), completes from any value. */
  lemma ReleaseCompletesCorrected(sr: PosReal, attack: real, decay: real, sustain: real, release: real,
                                  tc: Segments.TimeConstant, x: real)
    requires var r := SetValues(NewCorrected(sr), attack, decay, sustain, release, tc).segments[ReleaseIndex];
      0.0 < r.coeff < 1.0
    ensures (1.0 + DecayTcoCorrected) / DecayTcoCorrected > 1.0
    ensures var r := SetValues(NewCorrected(sr), attack, decay, sustain, release, tc).segments[ReleaseIndex];
      exists k: nat :: 1 <= k && Segments.IsComplete(r, Segments.Repeat(r, x, k).value)
  {
    var e := NewCorrected(sr);
    Segments.DecayEventuallyCompletes(e.segments[ReleaseIndex], release, tc, x);
  }
}
