/** One Juno-60 voice (Juno60VoiceImplementation): the DCO and the noise
    source summed and shaped by the VCA envelope, with a second (modulation)
    envelope feeding the DCO's envelope input. The voice's patch drives the
    pitch ramps, the source levels and both envelopes' timings. `exp`
    stands for Math.exp, `tc` for the segments' time-constant curve and
    `tanh` for Math.tanh. The low-pass filter is not part of this model. */
module Juno60Voice {
  import opened Wrappers
  import opened Numeric
  import SmoothMoves
  import Segments
  import Envelopes
  import Juno60Envelope
  import NoteFrequency
  import Juno60Dco
  import Noise
  import BaseVoice

  type Envelope = Envelopes.Envelope
  type Ramp = SmoothMoves.Param<()>

  datatype DcoPatch = DcoPatch(
    saw: bool,
    pulse: bool,
    sub: bool,
    subAmount: real,
    noise: real,
    pwm: real,
    pwmMod: string,
    lfo: real)

  datatype EnvPatch = EnvPatch(attack: real, decay: real, sustain: real, release: real)

  datatype Patch = Patch(vcaType: string, dco: DcoPatch, env: EnvPatch)

  /** The shared voice bookkeeping (its envelopes are the VCA envelope and
      the modulation envelope, in that order), the two sources, and the
      sample rate. */
  datatype Voice = Voice(
    base: BaseVoice.Voice<Patch>,
    dco: Juno60Dco.Dco,
    noise: Noise.Noise,
    sampleRate: PosReal)

  predicate Valid(v: Voice) {
    && |v.base.envelopes| == 2
    && Juno60Envelope.Layout(v.base.envelopes[0])
    && Juno60Envelope.Layout(v.base.envelopes[1])
    && Juno60Dco.Valid(v.dco)
    && v.noise.bits != 0
  }

  function Vca(v: Voice): Envelope
    requires Valid(v)
  {
    v.base.envelopes[0]
  }

  function Mod(v: Voice): Envelope
    requires Valid(v)
  {
    v.base.envelopes[1]
  }

  function WithEnvelopes(v: Voice, vca: Envelope, mod: Envelope): (r: Voice)
    requires Juno60Envelope.Layout(vca) && Juno60Envelope.Layout(mod)
    requires Juno60Dco.Valid(v.dco) && v.noise.bits != 0
    ensures Valid(r) && Vca(r) == vca && Mod(r) == mod
  {
    v.(base := v.base.(envelopes := [vca, mod]))
  }

  /** A valid voice is a valid base voice. */
  lemma BaseValid(v: Voice)
    requires Valid(v)
    ensures BaseVoice.Valid(v.base)
  {
    assert Envelopes.Valid(v.base.envelopes[0]) && Envelopes.Valid(v.base.envelopes[1]);
  }

  predicate IsActive(v: Voice)
    requires Valid(v)
  {
    Envelopes.IsActive(Vca(v))
  }

  // ---------------------------------------------------------------- mixing

  datatype Levels = Levels(saw: real, pulse: real, sub: real, noise: real)

  /** Each source's relative level: 0.2 for a switched-on saw or pulse,
      0.195 of the sub amount for a switched-on sub, 0.21 of the noise
      amount. */
  function SourceLevels(p: DcoPatch): Levels {
    Levels(if p.saw then 0.2 else 0.0,
           if p.pulse then 0.2 else 0.0,
           if p.sub then p.subAmount * 0.195 else 0.0,
           p.noise * 0.21)
  }

  function Total(l: Levels): real {
    l.saw + l.pulse + l.sub + l.noise
  }

  /** The gain applied to every source: 2 up to a total relative level of
      0.3, falling by 1.5 per unit of total above it. */
  function MixFactor(total: real): (f: real)
    ensures f <= 2.0
    ensures total <= 0.3 <==> f == 2.0
  {
    if total > 0.3 then 2.0 - (total - 0.3) * 1.5 else 2.0
  }

  function Scale(l: Levels, f: real): Levels {
    Levels(l.saw * f, l.pulse * f, l.sub * f, l.noise * f)
  }

  /** The levels the four source ramps are sent to. */
  function MixedLevels(p: DcoPatch): Levels {
    var l := SourceLevels(p);
    Scale(l, MixFactor(Total(l)))
  }

  /** The more the sources add up to, the lower the gain. */
  lemma MixFactorNonIncreasing(a: real, b: real)
    requires a <= b
    ensures MixFactor(b) <= MixFactor(a)
  {
  }

  /** The gain has no jump at the knee: it changes by at most 1.5 times the
      change of the total. */
  lemma MixFactorLipschitz(a: real, b: real)
    ensures Abs(MixFactor(a) - MixFactor(b)) <= 1.5 * Abs(a - b)
  {
  }

  /** With the sub and noise amounts in [0, 1] every mixed level is
      non-negative and the mixed levels add up to at most 1.0002125 (all four
      sources full on). */
  lemma MixedLevelsBounded(p: DcoPatch)
    requires 0.0 <= p.subAmount <= 1.0 && 0.0 <= p.noise <= 1.0
    ensures var m := MixedLevels(p);
      && 0.0 <= m.saw && 0.0 <= m.pulse && 0.0 <= m.sub && 0.0 <= m.noise
      && Total(m) <= 1.0002125
  {
    var l := SourceLevels(p);
    var t := Total(l);
    assert 0.0 <= t <= 0.805;
    MixedTotalBound(t);
    ScaleNonNegative(l, MixFactor(t));
  }

  /** Scaling non-negative levels by a non-negative gain keeps them
      non-negative and scales their total. */
  lemma ScaleNonNegative(l: Levels, f: real)
    requires 0.0 <= l.saw && 0.0 <= l.pulse && 0.0 <= l.sub && 0.0 <= l.noise && 0.0 <= f
    ensures var m := Scale(l, f);
      && 0.0 <= m.saw && 0.0 <= m.pulse && 0.0 <= m.sub && 0.0 <= m.noise
      && Total(m) == Total(l) * f
  {
    MulMono(f, 0.0, l.saw);
    MulMono(f, 0.0, l.pulse);
    MulMono(f, 0.0, l.sub);
    MulMono(f, 0.0, l.noise);
  }

  lemma MixedTotalBound(t: real)
    requires 0.0 <= t <= 0.805
    ensures MixFactor(t) >= 0.0 && t * MixFactor(t) <= 1.0002125
  {
    if t > 0.3 {
      var f := MixFactor(t);
      assert f == 2.45 - 1.5 * t;
      MulMono(0.805 - t, 0.0, 1.2425 - 1.5 * t);
      assert (0.805 - t) * (1.2425 - 1.5 * t) == 1.0002125 - t * f;
    } else {
      MulMono(2.0, t, 0.3);
    }
  }

  // ------------------------------------------------------------ durations

  /** The attack slider (0 fast, 1 slow) as seconds: 1 ms plus up to 3.25 s
      along an exponential curve. */
  function AttackDuration(attack: real, exp: real -> real): real
    requires exp(5.0) > 1.0
  {
    0.001 + (exp(attack * 5.0) - 1.0) / (exp(5.0) - 1.0) * 3.25
  }

  /** The decay and release sliders as seconds: 2 ms plus up to 19.78 s,
      the exponential curve further weighted by the slider itself. */
  function DecayDuration(x: real, exp: real -> real): real
    requires exp(4.0) > 1.0
  {
    0.002 + (exp(x * 4.0) - 1.0) / (exp(4.0) - 1.0) * x * 19.78
  }

  /** With exp(0) = 1 and exp increasing, the attack spans [0.001, 3.251]
      seconds: 1 ms at 0 and 3.251 s at 1. */
  lemma AttackDurationRange(attack: real, exp: real -> real)
    requires exp(5.0) > 1.0 && 1.0 <= exp(attack * 5.0) <= exp(5.0)
    ensures 0.001 <= AttackDuration(attack, exp) <= 3.251
    ensures exp(0.0) == 1.0 ==> AttackDuration(0.0, exp) == 0.001
    ensures AttackDuration(1.0, exp) == 3.251
  {
    var q := (exp(attack * 5.0) - 1.0) / (exp(5.0) - 1.0);
    QuotientAtLeast(exp(attack * 5.0) - 1.0, exp(5.0) - 1.0, 0.0);
    QuotientAtMost(exp(attack * 5.0) - 1.0, exp(5.0) - 1.0, 1.0);
    assert 0.0 <= q <= 1.0;
  }

  /** With exp(0) = 1, exp increasing and the slider in [0, 1], a decay or
      release spans [0.002, 19.782] seconds: 2 ms at 0 and 19.782 s at 1. */
  lemma DecayDurationRange(x: real, exp: real -> real)
    requires 0.0 <= x <= 1.0
    requires exp(4.0) > 1.0 && 1.0 <= exp(x * 4.0) <= exp(4.0)
    ensures 0.002 <= DecayDuration(x, exp) <= 19.782
    ensures exp(0.0) == 1.0 ==> DecayDuration(0.0, exp) == 0.002
    ensures DecayDuration(1.0, exp) == 19.782
  {
    var q := (exp(x * 4.0) - 1.0) / (exp(4.0) - 1.0);
    QuotientAtLeast(exp(x * 4.0) - 1.0, exp(4.0) - 1.0, 0.0);
    QuotientAtMost(exp(x * 4.0) - 1.0, exp(4.0) - 1.0, 1.0);
    assert 0.0 <= q <= 1.0;
    MulMono(q, 0.0, x);
    MulMono(x, q, 1.0);
    assert x * q <= x * 1.0 == x;
    assert 0.0 <= q * x <= 1.0;
    SelfQuotient(exp(4.0) - 1.0);
  }

  lemma SelfQuotient(a: real)
    requires a > 0.0
    ensures a / a == 1.0
  {
  }

  // ---------------------------------------------------------------- update

  /** The glide of a patch change: 128 samples while the voice sounds,
      immediate while it is idle. */
  function ChangeDuration(v: Voice): (d: real)
    requires Valid(v)
    ensures IsActive(v) ==> d * v.sampleRate as real == 128.0
    ensures !IsActive(v) ==> d == 0.0
  {
    if IsActive(v) then
      ScaleByReciprocal(128.0, v.sampleRate as real);
      QuotientIsScaled(128.0, v.sampleRate as real);
      128.0 / v.sampleRate as real
    else 0.0
  }

  lemma QuotientIsScaled(a: real, b: real)
    requires b > 0.0
    ensures a / b == a * (1.0 / b)
  {
  }

  function Glide(p: Ramp, value: real, duration: real): Ramp {
    SmoothMoves.LinearRampTo(p, value, duration, None)
  }

  /** The pitch ramps of the DCO core: the note, no bend depth, the LFO
      depth from the patch, no transpose. */
  function RetunePitch(d: Juno60Dco.Dco, noteNumber: int, p: DcoPatch, duration: real): Juno60Dco.Dco
  {
    var c := d.core;
    d.(core := c.(note := Glide(c.note, noteNumber as real, duration),
                  bendDepth := Glide(c.bendDepth, 0.0, duration),
                  lfoDepth := Glide(c.lfoDepth, p.lfo, duration),
                  transpose := Glide(c.transpose, 0.0, duration)))
  }

  /** The pulse width (0.49 of the patch's width) and the three wave levels. */
  function Relevel(d: Juno60Dco.Dco, p: DcoPatch, mixed: Levels, duration: real): Juno60Dco.Dco
  {
    d.(pwmWidth := Glide(d.pwmWidth, p.pwm * 0.49, duration),
       sawLevel := Glide(d.sawLevel, mixed.saw, duration),
       pulseLevel := Glide(d.pulseLevel, mixed.pulse, duration),
       subLevel := Glide(d.subLevel, mixed.sub, duration))
  }

  datatype Envelopes2 = Envelopes2(vca: Envelope, mod: Envelope)

  /** The envelope timings: in gate mode the VCA envelope gets fixed
      3 ms / 1 s / full sustain / 6 ms values and a held (active, not
      released) note restarts its attack; otherwise it gets the slider
      values. The modulation envelope always gets the slider values. */
  function Reshape(vca: Envelope, mod: Envelope, p: Patch, exp: real -> real, tc: Segments.TimeConstant): (r: Envelopes2)
    requires Juno60Envelope.Layout(vca) && Juno60Envelope.Layout(mod)
    requires exp(4.0) > 1.0 && exp(5.0) > 1.0
    ensures Juno60Envelope.Layout(r.vca) && Juno60Envelope.Layout(r.mod)
    ensures r.vca.value == vca.value && r.mod.value == mod.value && r.mod.phase == mod.phase
    ensures p.vcaType == "gate" && Envelopes.IsActive(vca) && !Envelopes.IsReleased(vca) ==> r.vca.phase == 0
    ensures !(p.vcaType == "gate" && Envelopes.IsActive(vca) && !Envelopes.IsReleased(vca)) ==> r.vca.phase == vca.phase
  {
    var e := p.env;
    var attack := AttackDuration(e.attack, exp);
    var decay := DecayDuration(e.decay, exp);
    var release := DecayDuration(e.release, exp);
    var vca' :=
      if p.vcaType == "gate" then
        var g := Juno60Envelope.SetValues(vca, 0.003, 1.0, 1.0, 0.006, tc);
        if Envelopes.IsActive(g) && !Envelopes.IsReleased(g) then Envelopes.Trigger(g) else g
      else Juno60Envelope.SetValues(vca, attack, decay, e.sustain, release, tc);
    Envelopes2(vca', Juno60Envelope.SetValues(mod, attack, decay, e.sustain, release, tc))
  }

  /** update: store the patch (the base update), then retarget every ramp
      the patch drives over the change duration and re-time both envelopes.
      Nothing else of the voice changes. */
  function Update(v: Voice, patch: Patch, exp: real -> real, tc: Segments.TimeConstant): (r: Voice)
    requires Valid(v) && exp(4.0) > 1.0 && exp(5.0) > 1.0
    ensures Valid(r) && r.sampleRate == v.sampleRate
    ensures r.base == BaseVoice.Update(v.base, patch).(envelopes := r.base.envelopes)
    ensures var m := MixedLevels(patch.dco);
      && r.dco.core.note.target == v.base.noteNumber as real
      && r.dco.core.bendDepth.target == 0.0 && r.dco.core.transpose.target == 0.0
      && r.dco.core.lfoDepth.target == patch.dco.lfo
      && r.dco.pwmWidth.target == patch.dco.pwm * 0.49
      && r.dco.sawLevel.target == m.saw && r.dco.pulseLevel.target == m.pulse
      && r.dco.subLevel.target == m.sub && r.noise.level.target == m.noise
    ensures r.dco.core.envDepth == v.dco.core.envDepth && r.dco.core.offset == v.dco.core.offset
    ensures r.dco.pwmLfoDepth == v.dco.pwmLfoDepth && r.dco.pwmEnvDepth == v.dco.pwmEnvDepth
    ensures r.dco.phase == v.dco.phase && r.dco.sub == v.dco.sub && r.dco.threshold == v.dco.threshold
    ensures r.noise.bits == v.noise.bits
    ensures IsActive(r) <==> IsActive(v)
    ensures Vca(r).value == Vca(v).value && Mod(r).value == Mod(v).value && Mod(r).phase == Mod(v).phase
  {
    var duration := ChangeDuration(v);
    var m := MixedLevels(patch.dco);
    var d := Relevel(RetunePitch(v.dco, v.base.noteNumber, patch.dco, duration), patch.dco, m, duration);
    var n := v.noise.(level := Glide(v.noise.level, m.noise, duration));
    var envs := Reshape(Vca(v), Mod(v), patch, exp, tc);
    Voice(BaseVoice.Update(v.base, patch).(envelopes := [envs.vca, envs.mod]), d, n, v.sampleRate)
  }

  /** A ramp settled at `x`. */
  predicate At(r: Ramp, x: real) {
    SmoothMoves.Settled(r) && r.current == x
  }

  /** Every ramp an update drives is settled at the value the update sends
      it to. */
  predicate AtPatch(v: Voice, p: DcoPatch) {
    var m := MixedLevels(p);
    && At(v.dco.core.note, v.base.noteNumber as real) && At(v.dco.core.bendDepth, 0.0)
    && At(v.dco.core.lfoDepth, p.lfo) && At(v.dco.core.transpose, 0.0)
    && At(v.dco.pwmWidth, p.pwm * 0.49)
    && At(v.dco.sawLevel, m.saw) && At(v.dco.pulseLevel, m.pulse) && At(v.dco.subLevel, m.sub)
    && At(v.noise.level, m.noise)
  }

  /** Every ramp an update drives is settled. */
  predicate AtRest(v: Voice) {
    && Rests(v.dco.core.note) && Rests(v.dco.core.bendDepth) && Rests(v.dco.core.lfoDepth)
    && Rests(v.dco.core.transpose) && Rests(v.dco.pwmWidth) && Rests(v.dco.sawLevel)
    && Rests(v.dco.pulseLevel) && Rests(v.dco.subLevel) && Rests(v.noise.level)
  }

  predicate Rests(r: Ramp) {
    SmoothMoves.Settled(r)
  }

  /** Every ramp an update drives has never stepped. */
  predicate Unstarted(v: Voice) {
    && !v.dco.core.note.started && !v.dco.core.bendDepth.started && !v.dco.core.lfoDepth.started
    && !v.dco.core.transpose.started && !v.dco.pwmWidth.started && !v.dco.sawLevel.started
    && !v.dco.pulseLevel.started && !v.dco.subLevel.started && !v.noise.level.started
  }

  /** A glide from rest lands at once when it has no duration or the ramp
      has never stepped. */
  lemma GlideFromRest(p: Ramp, x: real, d: real)
    requires Rests(p) && (d == 0.0 || !p.started)
    ensures At(Glide(p, x, d), x)
  {
  }

  /** A patch change on an idle voice whose ramps are at rest, or on a voice
      whose ramps have never stepped, takes effect at once: every driven ramp
      is settled at its new value. */
  lemma IdleUpdateIsImmediate(v: Voice, patch: Patch, exp: real -> real, tc: Segments.TimeConstant)
    requires Valid(v) && exp(4.0) > 1.0 && exp(5.0) > 1.0
    requires AtRest(v) && (!IsActive(v) || Unstarted(v))
    ensures AtPatch(Update(v, patch, exp, tc), patch.dco)
  {
    var d := ChangeDuration(v);
    var m := MixedLevels(patch.dco);
    GlideFromRest(v.dco.core.note, v.base.noteNumber as real, d);
    GlideFromRest(v.dco.core.bendDepth, 0.0, d);
    GlideFromRest(v.dco.core.lfoDepth, patch.dco.lfo, d);
    GlideFromRest(v.dco.core.transpose, 0.0, d);
    GlideFromRest(v.dco.pwmWidth, patch.dco.pwm * 0.49, d);
    GlideFromRest(v.dco.sawLevel, m.saw, d);
    GlideFromRest(v.dco.pulseLevel, m.pulse, d);
    GlideFromRest(v.dco.subLevel, m.sub, d);
    GlideFromRest(v.noise.level, m.noise, d);
  }

  /** A retuning while the voice sounds glides: a note ramp at rest in
      another note arrives on the new note on exactly the 128th sample. */
  lemma ActiveRetuneGlides128Samples(v: Voice, patch: Patch, exp: real -> real, tc: Segments.TimeConstant)
    requires Valid(v) && exp(4.0) > 1.0 && exp(5.0) > 1.0 && IsActive(v)
    requires SmoothMoves.Settled(v.dco.core.note) && v.dco.core.note.started
    requires v.dco.core.note.sampleRate == v.sampleRate
    requires v.dco.core.note.target != v.base.noteNumber as real
    ensures var q := Update(v, patch, exp, tc).dco.core.note;
      && (forall k: nat :: k < 128 ==> SmoothMoves.Advance(q, k).current != v.base.noteNumber as real)
      && SmoothMoves.Advance(q, 128).current == v.base.noteNumber as real
  {
    var p := v.dco.core.note;
    SmoothMoves.RampArrivesAfterExactlyNSteps(p, v.base.noteNumber as real, ChangeDuration(v), None, 128);
  }

  // ------------------------------------------------------------- process

  datatype VoiceStep = VoiceStep(output: real, voice: Voice)

  /** The modulation envelope's next value, fed to the DCO. */
  function ModValue(v: Voice): real
    requires Valid(v)
  {
    Envelopes.Process(Mod(v)).value
  }

  /** The sounding half of process: the modulation envelope, the DCO and
      the noise source each advance once, and their sum is scaled by the VCA
      envelope's value. */
  function Sound(v: Voice, vca: Envelope, lfo: real, bend: real, noteTable: seq<real>, centTable: seq<real>,
                 tanh: real -> real): (s: VoiceStep)
    requires Valid(v) && Juno60Envelope.Layout(vca) && NoteFrequency.Tables(noteTable, centTable)
    requires 0.0 <= Juno60Dco.Increment(v.dco, lfo, ModValue(v), bend, noteTable, centTable).inc <= 1.0
    ensures Valid(s.voice) && Vca(s.voice) == vca && Mod(s.voice) == Envelopes.Process(Mod(v))
    ensures var d := Juno60Dco.Process(v.dco, lfo, ModValue(v), bend, noteTable, centTable, tanh);
      var n := Noise.Process(v.noise);
      && s.output == Gain(d.output + n.output, vca.value)
      && s.voice == WithEnvelopes(v, vca, Mod(s.voice)).(dco := d.dco, noise := n.noise)
  {
    var mod := Envelopes.Process(Mod(v));
    Juno60Envelope.ProcessKeepsLayout(Mod(v));
    var d := Juno60Dco.Process(v.dco, lfo, mod.value, bend, noteTable, centTable, tanh);
    var n := Noise.Process(v.noise);
    VoiceStep(Gain(d.output + n.output, vca.value),
              WithEnvelopes(v, vca, mod).(dco := d.dco, noise := n.noise))
  }

  function Gain(x: real, g: real): real {
    x * g
  }

  /** process: advance the VCA envelope; once it is idle the output is 0 and
      nothing else advances. Otherwise advance the modulation envelope, run
      the DCO (with the LFO, the modulation envelope and the bend) and the
      noise source, and scale their sum by the VCA envelope. */
  function Process(v: Voice, lfo: real, bend: real, noteTable: seq<real>, centTable: seq<real>,
                   tanh: real -> real): (s: VoiceStep)
    requires Valid(v) && NoteFrequency.Tables(noteTable, centTable)
    requires Envelopes.IsActive(Envelopes.Process(Vca(v))) ==>
      0.0 <= Juno60Dco.Increment(v.dco, lfo, ModValue(v), bend, noteTable, centTable).inc <= 1.0
    ensures Valid(s.voice) && Vca(s.voice) == Envelopes.Process(Vca(v))
    ensures !IsActive(s.voice) ==> s.output == 0.0 && s.voice == WithEnvelopes(v, Vca(s.voice), Mod(v))
    ensures IsActive(s.voice) ==> s == Sound(v, Vca(s.voice), lfo, bend, noteTable, centTable, tanh)
  {
    var vca := Envelopes.Process(Vca(v));
    Juno60Envelope.ProcessKeepsLayout(Vca(v));
    if !Envelopes.IsActive(vca) then
      VoiceStep(0.0, WithEnvelopes(v, vca, Mod(v)))
    else
      Sound(v, vca, lfo, bend, noteTable, centTable, tanh)
  }

  /** An idle voice is silent and does not change: the oscillator phases,
      the noise register and every ramp stand still until the next note. */
  lemma IdleVoiceStandsStill(v: Voice, lfo: real, bend: real, noteTable: seq<real>, centTable: seq<real>,
                             tanh: real -> real)
    requires Valid(v) && NoteFrequency.Tables(noteTable, centTable) && !IsActive(v)
    ensures var s := Process(v, lfo, bend, noteTable, centTable, tanh);
      s.output == 0.0 && s.voice == v
  {
    assert v.base.envelopes == [Vca(v), Mod(v)];
  }

  /** A sounding voice is silent while its VCA envelope reads 0. */
  lemma ClosedVcaIsSilent(v: Voice, lfo: real, bend: real, noteTable: seq<real>, centTable: seq<real>,
                          tanh: real -> real)
    requires Valid(v) && NoteFrequency.Tables(noteTable, centTable)
    requires Envelopes.IsActive(Envelopes.Process(Vca(v))) ==>
      0.0 <= Juno60Dco.Increment(v.dco, lfo, ModValue(v), bend, noteTable, centTable).inc <= 1.0
    requires Envelopes.Process(Vca(v)).value == 0.0
    ensures Process(v, lfo, bend, noteTable, centTable, tanh).output == 0.0
  {
  }

  // --------------------------------------------------------- note events

  /** The constructor: both envelopes idle, the DCO and the noise source
      (its register seeded from `draw`) built, then the patch applied. */
  function New(sampleRate: PosReal, patch: Patch, draw: bv16, exp: real -> real, tc: Segments.TimeConstant): (v: Voice)
    requires draw < 0x8000 && exp(4.0) > 1.0 && exp(5.0) > 1.0
    ensures Valid(v) && !IsActive(v) && !Envelopes.IsActive(Mod(v))
    ensures v.base.noteNumber == -1 && v.base.attackVelocity == 64 && v.base.releaseVelocity == 64
    ensures v.base.patch == patch && v.sampleRate == sampleRate && v.dco.core.note.sampleRate == sampleRate
    ensures AtPatch(v, patch.dco)
  {
    var envs := [Juno60Envelope.New(sampleRate), Juno60Envelope.New(sampleRate)];
    var v0 := Voice(BaseVoice.New(patch, envs), Juno60Dco.New(-1.0, sampleRate), Noise.New(sampleRate, draw), sampleRate);
    IdleUpdateIsImmediate(v0, patch, exp, tc);
    Update(v0, patch, exp, tc)
  }

  /** noteOn: record the note and velocities, re-apply the current patch
      (so the pitch ramps head for the new note), then trigger both
      envelopes. */
  function NoteOn(v: Voice, noteNumber: int, velocity: int, exp: real -> real, tc: Segments.TimeConstant): (r: Voice)
    requires Valid(v) && exp(4.0) > 1.0 && exp(5.0) > 1.0
    ensures Valid(r) && IsActive(r) && Vca(r).phase == 0 && Mod(r).phase == 0
    ensures r.base.noteNumber == noteNumber && r.base.attackVelocity == velocity && r.base.releaseVelocity == 64
    ensures r.base.patch == v.base.patch
    ensures r.dco.core.note.target == noteNumber as real
  {
    var u := Update(v.(base := v.base.(noteNumber := noteNumber, attackVelocity := velocity, releaseVelocity := 64)),
                    v.base.patch, exp, tc);
    WithEnvelopes(u, Envelopes.Trigger(Vca(u)), Envelopes.Trigger(Mod(u)))
  }

  /** noteOff: record the release velocity, re-apply the current patch, then
      release both envelopes. */
  function NoteOff(v: Voice, velocity: int, exp: real -> real, tc: Segments.TimeConstant): (r: Voice)
    requires Valid(v) && exp(4.0) > 1.0 && exp(5.0) > 1.0
    ensures Valid(r) && (IsActive(r) <==> IsActive(v))
    ensures r.base.noteNumber == v.base.noteNumber && r.base.attackVelocity == v.base.attackVelocity
    ensures r.base.releaseVelocity == velocity && r.base.patch == v.base.patch
    ensures IsActive(v) ==> Envelopes.IsReleased(Vca(r)) && !Envelopes.IsShuttingDown(Vca(r))
  {
    var u := Update(v.(base := v.base.(releaseVelocity := velocity)), v.base.patch, exp, tc);
    WithEnvelopes(u, Envelopes.Release(Vca(u)), Envelopes.Release(Mod(u)))
  }

  /** shutdown: only the VCA envelope is shut down. */
  function Shutdown(v: Voice): (r: Voice)
    requires Valid(v)
    ensures Valid(r) && (IsActive(r) <==> IsActive(v))
    ensures IsActive(v) ==> Envelopes.IsShuttingDown(Vca(r))
    ensures r == WithEnvelopes(v, Vca(r), Mod(v))
  {
    WithEnvelopes(v, Envelopes.Shutdown(Vca(v)), Mod(v))
  }

  /** The voice's note events keep the shared bookkeeping of the base voice:
      the same note, velocities, patch and envelope statuses. */
  lemma NoteEventsAgreeWithBase(v: Voice, noteNumber: int, velocity: int, exp: real -> real, tc: Segments.TimeConstant)
    requires Valid(v) && exp(4.0) > 1.0 && exp(5.0) > 1.0
    ensures (BaseValid(v); var on := NoteOn(v, noteNumber, velocity, exp, tc);
      var b := BaseVoice.NoteOn(v.base, noteNumber, velocity);
      && on.base.noteNumber == b.noteNumber && on.base.attackVelocity == b.attackVelocity
      && on.base.releaseVelocity == b.releaseVelocity && on.base.patch == b.patch
      && IsActive(on) == BaseVoice.IsActive(b) && Envelopes.IsReleased(Vca(on)) == BaseVoice.IsReleased(b))
    ensures (BaseValid(v); var off := NoteOff(v, velocity, exp, tc);
      var b := BaseVoice.NoteOff(v.base, velocity);
      && off.base == b.(envelopes := off.base.envelopes)
      && IsActive(off) == BaseVoice.IsActive(b) && Envelopes.IsReleased(Vca(off)) == BaseVoice.IsReleased(b))
  {
    BaseValid(v);
  }

  /** In gate mode the VCA envelope ignores the envelope sliders. */
  lemma GateIgnoresSliders(v: Voice, p: Patch, q: Patch, exp: real -> real, tc: Segments.TimeConstant)
    requires Valid(v) && exp(4.0) > 1.0 && exp(5.0) > 1.0
    requires p.vcaType == "gate" && q.vcaType == "gate"
    ensures Vca(Update(v, p, exp, tc)) == Vca(Update(v, q, exp, tc))
  {
  }

  /** In gate mode a patch change restarts a held note's attack; a released
      or idle note keeps its phase. In envelope mode no phase moves. */
  lemma GateRetriggersHeldNote(v: Voice, p: Patch, exp: real -> real, tc: Segments.TimeConstant)
    requires Valid(v) && exp(4.0) > 1.0 && exp(5.0) > 1.0
    ensures var r := Update(v, p, exp, tc);
      Vca(r).phase == (if p.vcaType == "gate" && IsActive(v) && !Envelopes.IsReleased(Vca(v)) then 0 else Vca(v).phase)
  {
  }
}
