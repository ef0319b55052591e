/** The oscillator core shared by the DCOs: six smoothed pitch parameters
    that give the phase increment, and the PolyBLEP correction that softens
    each waveform discontinuity. */
module DcoCore {
  import opened Numeric
  import SmoothMoves
  import NoteFrequency

  /** The core's ramps never carry a completion callback. */
  type Ramp = SmoothMoves.Param<()>

  datatype Core = Core(
    note: Ramp,
    lfoDepth: Ramp,
    envDepth: Ramp,
    transpose: Ramp,
    offset: Ramp,
    bendDepth: Ramp,
    sampleRate: PosReal)

  /** The constructor: the note ramp starts at `noteNumber`, every depth,
      the transpose and the Hz offset at 0. */
  function New(noteNumber: real, sampleRate: PosReal): (c: Core)
    ensures c.note.current == noteNumber && SmoothMoves.Settled(c.note)
    ensures c.lfoDepth.current == 0.0 && c.envDepth.current == 0.0 && c.bendDepth.current == 0.0
    ensures c.transpose.current == 0.0 && c.offset.current == 0.0
    ensures AllSettled(c)
  {
    Core(SmoothMoves.New(noteNumber, sampleRate), SmoothMoves.New(0.0, sampleRate),
         SmoothMoves.New(0.0, sampleRate), SmoothMoves.New(0.0, sampleRate),
         SmoothMoves.New(0.0, sampleRate), SmoothMoves.New(0.0, sampleRate), sampleRate)
  }

  predicate AllSettled(c: Core) {
    && SmoothMoves.Settled(c.note) && SmoothMoves.Settled(c.lfoDepth) && SmoothMoves.Settled(c.envDepth)
    && SmoothMoves.Settled(c.transpose) && SmoothMoves.Settled(c.offset) && SmoothMoves.Settled(c.bendDepth)
  }

  /** The effective (fractional) note number: note, transpose and the three
      modulation sources scaled by their depths. */
  function EffectiveNote(note: real, transpose: real, lfo: real, lfoDepth: real, env: real, envDepth: real,
                         bend: real, bendDepth: real): real
  {
    note + transpose + lfo * lfoDepth + env * envDepth + bend * bendDepth
  }

  datatype Increment = Increment(inc: real, core: Core)

  /** calcPhaseIncrement: each of the six ramps is advanced exactly once;
      the increment is the frequency of the effective note plus the Hz
      offset, in cycles per sample. */
  function CalcPhaseIncrement(c: Core, lfo: real, env: real, bend: real,
                              noteTable: seq<real>, centTable: seq<real>): (r: Increment)
    requires NoteFrequency.Tables(noteTable, centTable)
    ensures r.core == Core(SmoothMoves.Next(c.note).param, SmoothMoves.Next(c.lfoDepth).param,
                           SmoothMoves.Next(c.envDepth).param, SmoothMoves.Next(c.transpose).param,
                           SmoothMoves.Next(c.offset).param, SmoothMoves.Next(c.bendDepth).param, c.sampleRate)
    ensures r.inc * c.sampleRate as real
      == NoteFrequency.Frequency(
           EffectiveNote(SmoothMoves.Next(c.note).value, SmoothMoves.Next(c.transpose).value,
                         lfo, SmoothMoves.Next(c.lfoDepth).value, env, SmoothMoves.Next(c.envDepth).value,
                         bend, SmoothMoves.Next(c.bendDepth).value),
           noteTable, centTable)
         + SmoothMoves.Next(c.offset).value
  {
    var note := SmoothMoves.Next(c.note);
    var transpose := SmoothMoves.Next(c.transpose);
    var lfoDepth := SmoothMoves.Next(c.lfoDepth);
    var envDepth := SmoothMoves.Next(c.envDepth);
    var bendDepth := SmoothMoves.Next(c.bendDepth);
    var noteNumber := EffectiveNote(note.value, transpose.value, lfo, lfoDepth.value, env, envDepth.value,
                                    bend, bendDepth.value);
    var offset := SmoothMoves.Next(c.offset);
    var noteFreq := NoteFrequency.Frequency(noteNumber, noteTable, centTable) + offset.value;
    Increment(PerSample(noteFreq, c.sampleRate),
              Core(note.param, lfoDepth.param, envDepth.param, transpose.param, offset.param, bendDepth.param, c.sampleRate))
  }

  /** A frequency in Hz times the time per sample: cycles per sample. */
  function PerSample(freq: real, sampleRate: PosReal): (inc: real)
    ensures inc * sampleRate as real == freq
  {
    ScaleByReciprocal(freq, sampleRate as real);
    freq * (1.0 / sampleRate as real)
  }

  /** With every ramp settled the core does not change, and the increment is
      the frequency of the settled effective note: calling again gives the
      same increment. */
  lemma SettledIncrementIsSteady(c: Core, lfo: real, env: real, bend: real, noteTable: seq<real>, centTable: seq<real>)
    requires NoteFrequency.Tables(noteTable, centTable) && AllSettled(c)
    ensures var r := CalcPhaseIncrement(c, lfo, env, bend, noteTable, centTable);
      && r.core == c
      && r.inc * c.sampleRate as real
         == NoteFrequency.Frequency(
              EffectiveNote(c.note.current, c.transpose.current, lfo, c.lfoDepth.current,
                            env, c.envDepth.current, bend, c.bendDepth.current),
              noteTable, centTable)
            + c.offset.current
  {
  }

  /** The PolyBLEP shape for a unit step: -(1 - t)^2 just after the
      discontinuity (t = phase / inc) and (1 + t)^2 just before it
      (t = (phase - 1) / inc), zero elsewhere; the window after the
      discontinuity takes precedence. */
  function BlepShape(phase: real, inc: real): real
    requires inc != 0.0 || 0.0 <= phase <= 1.0
  {
    if phase < inc then
      var t := phase / inc;
      -((1.0 - t) * (1.0 - t))
    else if phase + inc > 1.0 then
      var t := (phase - 1.0) / inc;
      (1.0 + t) * (1.0 + t)
    else 0.0
  }

  /** calcPolyBLEP2. Division by a zero increment happens only for a phase
      outside [0, 1]; the source then produces a non-finite value, which is
      not modelled. */
  function PolyBlep(phase: real, inc: real, height: real): (r: real)
    requires inc != 0.0 || 0.0 <= phase <= 1.0
    ensures r == height * BlepShape(phase, inc)
    ensures inc <= phase && phase + inc <= 1.0 ==> r == 0.0
    ensures phase == 0.0 && inc > 0.0 ==> r == -height
    ensures 0.0 < inc && 0.0 <= phase <= 1.0 ==> Abs(r) <= Abs(height)
  {
    ExpandedIsShape(phase, inc);
    ShapeAtEdges(phase, inc, height);
    CorrectionBounded(phase, inc, height);
    height * Expanded(phase, inc)
  }

  /** The polynomials as the source writes them, expanded. */
  function Expanded(phase: real, inc: real): real
    requires inc != 0.0 || 0.0 <= phase <= 1.0
  {
    if phase < inc then
      var t := phase / inc;
      t + t - t * t - 1.0
    else if phase + inc > 1.0 then
      var t := (phase - 1.0) / inc;
      t * t + (t + t) + 1.0
    else 0.0
  }

  /** Away from both windows there is no correction; at the discontinuity
      itself the correction is a full step down. */
  lemma ShapeAtEdges(phase: real, inc: real, height: real)
    requires inc != 0.0 || 0.0 <= phase <= 1.0
    ensures inc <= phase && phase + inc <= 1.0 ==> height * BlepShape(phase, inc) == 0.0
    ensures phase == 0.0 && inc > 0.0 ==> height * BlepShape(phase, inc) == -height
  {
    if phase == 0.0 && inc > 0.0 {
      assert phase / inc == 0.0;
      assert BlepShape(phase, inc) == -1.0;
    }
  }

  lemma CorrectionBounded(phase: real, inc: real, height: real)
    requires inc != 0.0 || 0.0 <= phase <= 1.0
    ensures 0.0 < inc && 0.0 <= phase <= 1.0 ==> Abs(height * BlepShape(phase, inc)) <= Abs(height)
  {
    if 0.0 < inc && 0.0 <= phase <= 1.0 {
      ShapeBounded(phase, inc);
      ScaledBounded(height, BlepShape(phase, inc));
    }
  }

  /** The source's expanded polynomials are the squared forms. */
  lemma ExpandedIsShape(phase: real, inc: real)
    requires inc != 0.0 || 0.0 <= phase <= 1.0
    ensures Expanded(phase, inc) == BlepShape(phase, inc)
  {
    if phase < inc {
      var t := phase / inc;
      assert t + t - t * t - 1.0 == -((1.0 - t) * (1.0 - t));
    } else if phase + inc > 1.0 {
      var t := (phase - 1.0) / inc;
      assert t * t + (t + t) + 1.0 == (1.0 + t) * (1.0 + t);
    }
  }

  /** Inside [0, 1] with a positive increment the shape lies in [-1, 1]. */
  lemma ShapeBounded(phase: real, inc: real)
    requires 0.0 < inc && 0.0 <= phase <= 1.0
    ensures -1.0 <= BlepShape(phase, inc) <= 1.0
  {
    if phase < inc {
      var u := 1.0 - phase / inc;
      assert BlepShape(phase, inc) == -(u * u);
      UnitAfterDiscontinuity(phase, inc);
      SquareInUnit(u);
    } else if phase + inc > 1.0 {
      ShapeBeforeDiscontinuity(phase, inc);
    }
  }

  lemma ShapeBeforeDiscontinuity(phase: real, inc: real)
    requires 0.0 < inc <= phase <= 1.0 && phase + inc > 1.0
    ensures 0.0 <= BlepShape(phase, inc) <= 1.0
  {
    var u := 1.0 + (phase - 1.0) / inc;
    assert BlepShape(phase, inc) == u * u;
    UnitBeforeDiscontinuity(phase, inc);
    SquareInUnit(u);
  }

  lemma UnitAfterDiscontinuity(phase: real, inc: real)
    requires 0.0 <= phase < inc
    ensures 0.0 <= 1.0 - phase / inc <= 1.0
  {
    QuotientAtLeast(phase, inc, 0.0);
    QuotientBelow(phase, inc, 1.0);
  }

  lemma UnitBeforeDiscontinuity(phase: real, inc: real)
    requires 0.0 < inc && phase <= 1.0 && phase + inc > 1.0
    ensures 0.0 <= 1.0 + (phase - 1.0) / inc <= 1.0
  {
    QuotientAbove(phase - 1.0, inc, -1.0);
    QuotientAtMost(phase - 1.0, inc, 0.0);
  }

  lemma SquareInUnit(u: real)
    requires 0.0 <= u <= 1.0
    ensures 0.0 <= u * u <= 1.0
  {
    MulMono(u, 0.0, u);
    MulMono(u, u, 1.0);
    assert u * u <= u * 1.0;
    assert u * 1.0 == u;
  }

  lemma ScaledBounded(h: real, s: real)
    requires -1.0 <= s <= 1.0
    ensures Abs(h * s) <= Abs(h)
  {
    var a := if s >= 0.0 then s else -s;
    var m := if h >= 0.0 then h else -h;
    assert Abs(h * s) == m * a;
    MulMono(m, a, 1.0);
  }

  /** The correction is linear in its height. */
  lemma PolyBlepLinear(phase: real, inc: real, height: real)
    requires inc != 0.0 || 0.0 <= phase <= 1.0
    ensures PolyBlep(phase, inc, height) == height * PolyBlep(phase, inc, 1.0)
  {
  }

  /** Where both windows overlap (an increment above 1/2) the window after
      the discontinuity is the one applied. */
  lemma RightSideTakesPrecedence(phase: real, inc: real, height: real)
    requires 0.0 <= phase < inc && phase + inc > 1.0
    ensures var t := phase / inc; PolyBlep(phase, inc, height) == -height * ((1.0 - t) * (1.0 - t))
  {
  }
}
