/** The Juno-60 DCO: a phase accumulator in [0, 1] driving a "charging
    capacitor" sawtooth, a pulse from a comparator against a threshold that
    is re-read once per cycle, and a sub-oscillator one octave down; every
    discontinuity is softened with PolyBLEP and the three waves are mixed
    through level ramps. `tanh` stands for Math.tanh. */
module Juno60Dco {
  import opened Wrappers
  import opened Numeric
  import SmoothMoves
  import NoteFrequency
  import DcoCore

  type Ramp = DcoCore.Ramp

  const MinThreshold: real := 0.02
  const MaxThreshold: real := 0.98
  const SawScale: real := 2.626

  datatype Dco = Dco(
    core: DcoCore.Core,
    sawLevel: Ramp,
    pulseLevel: Ramp,
    subLevel: Ramp,
    pwmWidth: Ramp,
    pwmLfoDepth: Ramp,
    pwmEnvDepth: Ramp,
    phase: real,
    sub: real,
    threshold: real)

  /** The phase in [0, 1], the sub-oscillator at one of its two levels, the
      comparator threshold inside its clamp. */
  predicate Valid(d: Dco) {
    && 0.0 <= d.phase <= 1.0
    && (d.sub == 1.0 || d.sub == -1.0)
    && MinThreshold <= d.threshold <= MaxThreshold
  }

  /** The constructor: three quarters into the first cycle, sub low, square
      wave threshold, every level at 0.25. */
  function New(noteNumber: real, sampleRate: PosReal): (d: Dco)
    ensures Valid(d) && d.phase == 0.75 && d.sub == -1.0 && d.threshold == 0.5
    ensures d.sawLevel.current == 0.25 && d.pulseLevel.current == 0.25 && d.subLevel.current == 0.25
    ensures d.pwmWidth.current == 0.5 && d.pwmLfoDepth.current == 0.0 && d.pwmEnvDepth.current == 0.0
    ensures d.core == DcoCore.New(noteNumber, sampleRate)
  {
    Dco(DcoCore.New(noteNumber, sampleRate),
        SmoothMoves.New(0.25, sampleRate), SmoothMoves.New(0.25, sampleRate), SmoothMoves.New(0.25, sampleRate),
        SmoothMoves.New(0.5, sampleRate), SmoothMoves.New(0.0, sampleRate), SmoothMoves.New(0.0, sampleRate),
        0.75, -1.0, 0.5)
  }

  /** The threshold clamp. */
  function Clamp(x: real): (r: real)
    ensures MinThreshold <= r <= MaxThreshold
    ensures MinThreshold <= x <= MaxThreshold ==> r == x
  {
    if x < MinThreshold then MinThreshold else if x > MaxThreshold then MaxThreshold else x
  }

  datatype Comparison = Comparison(level: real, dco: Dco)

  /** calcPwmComparisonLevel: width plus the modulations, clamped. A depth
      ramp is advanced only when its modulation input is nonzero; the level
      is the same as if every depth were read. */
  function CalcPwmComparisonLevel(d: Dco, lfo: real, env: real): (c: Comparison)
    ensures c.level == Clamp(SmoothMoves.Next(d.pwmWidth).value
                             + lfo * SmoothMoves.Next(d.pwmLfoDepth).value
                             + env * SmoothMoves.Next(d.pwmEnvDepth).value)
    ensures MinThreshold <= c.level <= MaxThreshold
    ensures c.dco.pwmWidth == SmoothMoves.Next(d.pwmWidth).param
    ensures lfo == 0.0 ==> c.dco.pwmLfoDepth == d.pwmLfoDepth
    ensures lfo != 0.0 ==> c.dco.pwmLfoDepth == SmoothMoves.Next(d.pwmLfoDepth).param
    ensures env == 0.0 ==> c.dco.pwmEnvDepth == d.pwmEnvDepth
    ensures env != 0.0 ==> c.dco.pwmEnvDepth == SmoothMoves.Next(d.pwmEnvDepth).param
    ensures c.dco == d.(pwmWidth := c.dco.pwmWidth, pwmLfoDepth := c.dco.pwmLfoDepth, pwmEnvDepth := c.dco.pwmEnvDepth)
  {
    var width := SmoothMoves.Next(d.pwmWidth);
    var lfoDepth := if lfo != 0.0 then SmoothMoves.Next(d.pwmLfoDepth) else SmoothMoves.Tick(0.0, d.pwmLfoDepth, None);
    var envDepth := if env != 0.0 then SmoothMoves.Next(d.pwmEnvDepth) else SmoothMoves.Tick(0.0, d.pwmEnvDepth, None);
    var level := width.value;
    var level := if lfo != 0.0 then level + lfo * lfoDepth.value else level;
    var level := if env != 0.0 then level + env * envDepth.value else level;
    var level := if level < 0.02 then 0.02 else if level > 0.98 then 0.98 else level;
    Comparison(level, d.(pwmWidth := width.param, pwmLfoDepth := lfoDepth.param, pwmEnvDepth := envDepth.param))
  }

  /** The comparator's edge position: the phase minus the threshold,
      wrapped into [0, 1). */
  function EdgePhase(phase: real, threshold: real): (x: real)
    requires 0.0 <= phase <= 1.0 && 0.0 < threshold <= 1.0
    ensures 0.0 <= x < 1.0
    ensures x == phase - threshold || x == phase - threshold + 1.0
  {
    var x := phase - threshold;
    if x < 0.0 then x + 1.0 else x
  }

  /** No PolyBLEP window touches `p`. */
  predicate Quiet(p: real, inc: real) {
    inc <= p && p + inc <= 1.0
  }

  datatype Waves = Waves(saw: real, pulse: real, sub: real)

  /** The three corrected waveforms at the (already wrapped) phase. The sub
      correction's height is the sub level before this sample's flip. */
  function ShapeWaves(phase: real, inc: real, threshold: real, sub: real, origSub: real, tanh: real -> real): (w: Waves)
    requires 0.0 <= phase <= 1.0 && 0.0 < threshold <= 1.0
    ensures w.saw == tanh(phase) * SawScale - 1.0 - DcoCore.BlepShape(phase, inc)
    ensures w.sub == sub - origSub * DcoCore.BlepShape(phase, inc)
    ensures Quiet(phase, inc) ==> w.saw == tanh(phase) * SawScale - 1.0 && w.sub == sub
    ensures Quiet(phase, inc) && Quiet(EdgePhase(phase, threshold), inc) ==>
      (w.pulse == 1.0 <==> phase > threshold) && (w.pulse == -1.0 <==> phase <= threshold)
  {
    var saw := tanh(phase) * 2.626 - 1.0;
    var saw := saw - DcoCore.PolyBlep(phase, inc, 1.0);
    var pulse := if phase > threshold then 1.0 else -1.0;
    var pulse := pulse - DcoCore.PolyBlep(phase, inc, 1.0);
    var x := phase - threshold;
    var pulse := pulse + DcoCore.PolyBlep(if x < 0.0 then x + 1.0 else x, inc, 1.0);
    var subOut := sub - DcoCore.PolyBlep(phase, inc, origSub);
    Waves(saw, pulse, subOut)
  }

  datatype DcoStep = DcoStep(output: real, dco: Dco, inc: real, wrapped: bool, waves: Waves)

  /** The increment the core computes for this sample. */
  function Increment(d: Dco, lfo: real, env: real, bend: real, noteTable: seq<real>, centTable: seq<real>): DcoCore.Increment
    requires NoteFrequency.Tables(noteTable, centTable)
  {
    DcoCore.CalcPhaseIncrement(d.core, lfo, env, bend, noteTable, centTable)
  }

  /** The phase part of process for a given increment: advance, and on a
      wrap (strictly above 1) subtract 1, re-read the threshold and flip the
      sub-oscillator. */
  function AdvancePhase(d: Dco, inc: real, lfo: real, env: real): (r: Dco)
    requires Valid(d) && 0.0 <= inc <= 1.0
    ensures Valid(r) && r.core == d.core
    ensures r.sawLevel == d.sawLevel && r.pulseLevel == d.pulseLevel && r.subLevel == d.subLevel
    ensures d.phase + inc > 1.0 ==>
      && r.phase == d.phase + inc - 1.0 && r.sub == -d.sub
      && var c := CalcPwmComparisonLevel(d, lfo, env);
         r.threshold == c.level && r.pwmWidth == c.dco.pwmWidth
         && r.pwmLfoDepth == c.dco.pwmLfoDepth && r.pwmEnvDepth == c.dco.pwmEnvDepth
    ensures d.phase + inc <= 1.0 ==> r == d.(phase := d.phase + inc)
  {
    var phase := d.phase + inc;
    if phase > 1.0 then
      var c := CalcPwmComparisonLevel(d, lfo, env);
      c.dco.(phase := phase - 1.0, threshold := c.level, sub := if d.sub > 0.0 then -1.0 else 1.0)
    else
      d.(phase := phase)
  }

  /** The three waves through their levels. */
  function Mix(w: Waves, sawLevel: real, pulseLevel: real, subLevel: real): real {
    w.saw * sawLevel + w.pulse * pulseLevel + w.sub * subLevel
  }

  /** process: advance the phase, shape the three waves and mix them
      through the level ramps, each advanced once. Modelled for increments
      in [0, 1] (frequencies up to the sample rate). */
  function Process(d: Dco, lfo: real, env: real, bend: real, noteTable: seq<real>, centTable: seq<real>,
                   tanh: real -> real): (s: DcoStep)
    requires Valid(d) && NoteFrequency.Tables(noteTable, centTable)
    requires 0.0 <= Increment(d, lfo, env, bend, noteTable, centTable).inc <= 1.0
    ensures Valid(s.dco)
    ensures s.inc == Increment(d, lfo, env, bend, noteTable, centTable).inc
    ensures s.wrapped <==> d.phase + s.inc > 1.0
    ensures var a := AdvancePhase(d, s.inc, lfo, env);
      && s.dco == a.(core := Increment(d, lfo, env, bend, noteTable, centTable).core,
                     sawLevel := SmoothMoves.Next(d.sawLevel).param,
                     pulseLevel := SmoothMoves.Next(d.pulseLevel).param,
                     subLevel := SmoothMoves.Next(d.subLevel).param)
      && s.waves == ShapeWaves(a.phase, s.inc, a.threshold, a.sub, d.sub, tanh)
    ensures s.output == Mix(s.waves, SmoothMoves.Next(d.sawLevel).value,
                            SmoothMoves.Next(d.pulseLevel).value, SmoothMoves.Next(d.subLevel).value)
  {
    var step := Increment(d, lfo, env, bend, noteTable, centTable);
    var inc := step.inc;
    var a := AdvancePhase(d, inc, lfo, env);
    var waves := ShapeWaves(a.phase, inc, a.threshold, a.sub, d.sub, tanh);
    var saw := SmoothMoves.Next(d.sawLevel);
    var pulse := SmoothMoves.Next(d.pulseLevel);
    var sub := SmoothMoves.Next(d.subLevel);
    DcoStep(Mix(waves, saw.value, pulse.value, sub.value),
            a.(core := step.core, sawLevel := saw.param, pulseLevel := pulse.param, subLevel := sub.param),
            inc, d.phase + inc > 1.0, waves)
  }

  /** Over a run of samples without a wrap the threshold and the sub level
      stay as they are: both change only at the start of a cycle. */
  lemma {:induction false} ConstantWithinCycle(d: Dco, lfo: real, env: real, bend: real,
                                               noteTable: seq<real>, centTable: seq<real>, tanh: real -> real)
    requires Valid(d) && NoteFrequency.Tables(noteTable, centTable)
    requires 0.0 <= Increment(d, lfo, env, bend, noteTable, centTable).inc <= 1.0
    requires d.phase + Increment(d, lfo, env, bend, noteTable, centTable).inc <= 1.0
    ensures var s := Process(d, lfo, env, bend, noteTable, centTable, tanh);
      !s.wrapped && s.dco.threshold == d.threshold && s.dco.sub == d.sub && s.dco.phase >= d.phase
  {
  }

  /** A phase that reaches exactly 1 does not wrap: the wrap test is
      strict. */
  lemma ExactlyOneDoesNotWrap(d: Dco, lfo: real, env: real, bend: real,
                              noteTable: seq<real>, centTable: seq<real>, tanh: real -> real)
    requires Valid(d) && NoteFrequency.Tables(noteTable, centTable)
    requires 0.0 <= Increment(d, lfo, env, bend, noteTable, centTable).inc <= 1.0
    requires d.phase + Increment(d, lfo, env, bend, noteTable, centTable).inc == 1.0
    ensures var s := Process(d, lfo, env, bend, noteTable, centTable, tanh);
      !s.wrapped && s.dco.phase == 1.0 && s.dco.sub == d.sub
  {
  }

  /** A wrap lands the phase inside the window that follows the
      discontinuity (at most one increment past 0) with the sub-oscillator
      flipped. */
  lemma WrapLandsInWindow(d: Dco, inc: real, lfo: real, env: real)
    requires Valid(d) && 0.0 < inc <= 1.0 && d.phase + inc > 1.0
    ensures var a := AdvancePhase(d, inc, lfo, env);
      0.0 <= a.phase <= inc && a.sub == -d.sub
  {
  }

  /** Just after a wrap, inside that window, the corrected sub output is the
      new level plus the old level times (1 - t)^2: it starts at 0 and
      approaches the new level. */
  lemma SubCorrectionAfterWrap(phase: real, inc: real, threshold: real, origSub: real, tanh: real -> real)
    requires 0.0 <= phase < inc <= 1.0 && 0.0 < threshold <= 1.0
    ensures var w := ShapeWaves(phase, inc, threshold, -origSub, origSub, tanh);
      var t := phase / inc;
      && w.sub == -origSub + origSub * ((1.0 - t) * (1.0 - t))
      && (phase == 0.0 ==> w.sub == 0.0)
  {
    var t := phase / inc;
    assert DcoCore.BlepShape(phase, inc) == -((1.0 - t) * (1.0 - t));
  }
}
