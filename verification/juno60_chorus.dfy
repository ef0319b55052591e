/** The Juno-60 chorus: a ring-buffer delay line read at two positions that
    a triangle LFO sweeps in opposite directions, mixed with the dry input
    through a smoothed wet factor. A mode change first ramps the wet factor
    to 0; the ramp's completion callback installs the new settings and ramps
    the wet factor back up. */
module Juno60Chorus {
  import opened Wrappers
  import opened Numeric
  import SmoothMoves
  import Lookup

  /** A chorus mode: LFO sweep frequency (Hz), LFO depth (seconds of delay),
      mono flag and wet level. */
  datatype Mode = Mode(sweepFreq: real, maxDelaySeconds: real, isMono: bool, wet: real)

  const Off: Mode := Mode(0.0, 0.0, false, 0.0)
  const Mode1: Mode := Mode(0.513, 0.001845, false, 0.5)
  const Mode2: Mode := Mode(0.863, 0.001845, false, 0.5)
  const Mode3: Mode := Mode(15.175, 0.0002, true, 0.5)

  /** The buffer holds 5.4 ms; the read centre sits 3.505 ms ahead of the
      write position; the deepest preset sweeps 1.845 ms either way; wet
      ramps take 10 ms. */
  const BufferSeconds: real := 0.0054
  const ReadOffsetSeconds: real := 0.003505
  const MaxDepthSeconds: real := 0.001845
  const RampSeconds: real := 0.01

  /** The wet factor's completion callback carries the mode it installs. */
  type Wet = SmoothMoves.Param<Mode>

  /** The delay line: a buffer and the index the next input goes to. */
  datatype Ring = Ring(buffer: seq<real>, writeIndex: nat)

  predicate RingValid(r: Ring) {
    |r.buffer| >= 1 && r.writeIndex < |r.buffer|
  }

  datatype Chorus = Chorus(
    sampleRate: PosReal,
    ring: Ring,
    readOffset: real,
    wetFactor: Wet,
    isMono: bool,
    lfoOffset: real,
    rateFactor: real,
    direction: int,
    maxOffset: real,
    left: real,
    right: real)

  /** The mode number of setMode: 1, 2 and 3 are the presets, anything else
      is off. */
  function ModeFor(mode: int): (m: Mode)
    ensures mode == 1 ==> m == Mode1
    ensures mode == 2 ==> m == Mode2
    ensures mode == 3 ==> m == Mode3
    ensures mode != 1 && mode != 2 && mode != 3 ==> m == Off
  {
    match mode
    case 1 => Mode1
    case 2 => Mode2
    case 3 => Mode3
    case _ => Off
  }

  /** A mode whose LFO never moves more than its depth per sample and whose
      depth is within the deepest preset's. */
  predicate ModeFits(m: Mode, sampleRate: PosReal) {
    0.0 <= m.maxDelaySeconds <= MaxDepthSeconds && 0.0 <= m.sweepFreq && 4.0 * m.sweepFreq <= sampleRate as real
  }

  /** The state every call keeps: a usable ring, the read centre, the LFO
      inside the deepest sweep with a step no larger than its bound, a
      pending mode (if any) that fits, and a sample rate at which every
      preset fits. */
  predicate Valid(c: Chorus) {
    && RingValid(c.ring)
    && c.readOffset == ReadOffsetSeconds * c.sampleRate as real
    && c.wetFactor.sampleRate == c.sampleRate
    && (c.direction == 1 || c.direction == -1)
    && 0.0 <= c.rateFactor <= c.maxOffset <= MaxDepthSeconds * c.sampleRate as real
    && -(MaxDepthSeconds * c.sampleRate as real) <= c.lfoOffset <= MaxDepthSeconds * c.sampleRate as real
    && (c.wetFactor.onComplete.Some? ==> ModeFits(c.wetFactor.onComplete.value, c.sampleRate))
    && 4.0 * Mode3.sweepFreq <= c.sampleRate as real
  }

  /** Both read positions, swept to either extreme, stay inside the two
      copies of the buffer that the reads can address. */
  predicate ReadWindowFits(c: Chorus) {
    c.readOffset + MaxDepthSeconds * c.sampleRate as real < |c.ring.buffer| as real
  }

  /** The constructor: a zeroed buffer of `sampleRate * 0.0054 | 0` samples,
      wet factor 0, the LFO at rest. The LFO depth is `undefined` in the
      source until a mode is installed; with the rate factor and the offset
      both 0 the comparisons against it decide nothing, so it is 0 here. */
  function New(sampleRate: PosReal): (c: Chorus)
    ensures |c.ring.buffer| == Trunc(sampleRate as real * BufferSeconds) && c.ring.writeIndex == 0
    ensures forall i :: 0 <= i < |c.ring.buffer| ==> c.ring.buffer[i] == 0.0
    ensures c.wetFactor.current == 0.0 && SmoothMoves.Settled(c.wetFactor) && !c.wetFactor.started
    ensures c.wetFactor.onComplete == None
    ensures !c.isMono && c.lfoOffset == 0.0 && c.rateFactor == 0.0 && c.direction == 1
  {
    var n := Trunc(sampleRate as real * BufferSeconds);
    Chorus(sampleRate, Ring(seq(if n < 0 then 0 else n, _ => 0.0), 0), ReadOffsetSeconds * sampleRate as real,
           SmoothMoves.New(0.0, sampleRate), false, 0.0, 0.0, 1, 0.0, 0.0, 0.0)
  }

  /** From 20 kHz up every state the constructor builds is valid and both
      read positions fit. */
  lemma NewIsValid(sampleRate: PosReal)
    requires sampleRate as real >= 20000.0
    ensures Valid(New(sampleRate)) && ReadWindowFits(New(sampleRate))
  {
    var sr := sampleRate as real;
    var n := Trunc(sr * BufferSeconds);
    assert n as real > sr * BufferSeconds - 1.0;
    assert sr * BufferSeconds - 1.0 >= (ReadOffsetSeconds + MaxDepthSeconds) * sr;
  }

  // ---------------------------------------------------------------- delay line

  /** The slot after `w`, wrapping to 0 at the end. */
  function Succ(w: nat, n: nat): (s: nat)
    requires w < n
    ensures s < n
  {
    if w + 1 >= n then 0 else w + 1
  }

  /** The slot `k` places behind `w` in a ring of `n`. */
  function Behind(w: nat, k: nat, n: nat): (b: nat)
    requires w < n && 1 <= k <= n
    ensures b < n
  {
    if k <= w then w - k else w + n - k
  }

  /** _writeSampleToDelayLine: store at the write index and advance it,
      wrapping to 0 at the end. */
  function Write(r: Ring, value: real): (r': Ring)
    requires RingValid(r)
    ensures RingValid(r') && |r'.buffer| == |r.buffer|
    ensures r'.buffer == r.buffer[r.writeIndex := value]
    ensures r'.writeIndex == Succ(r.writeIndex, |r.buffer|)
  {
    var w := r.writeIndex + 1;
    Ring(r.buffer[r.writeIndex := value], if w >= |r.buffer| then 0 else w)
  }

  /** Successive writes of `xs`, oldest first. */
  function WriteAll(r: Ring, xs: seq<real>): (r': Ring)
    requires RingValid(r)
    ensures RingValid(r') && |r'.buffer| == |r.buffer|
    decreases |xs|
  {
    if |xs| == 0 then r else Write(WriteAll(r, xs[..|xs| - 1]), xs[|xs| - 1])
  }

  /** Stepping forward one slot and then back `j + 1` slots is stepping back
      `j` slots. */
  lemma SuccThenBehind(w: nat, j: nat, n: nat)
    requires w < n && j < n
    ensures j == 0 ==> Behind(Succ(w, n), 1, n) == w
    ensures j >= 1 ==> Behind(Succ(w, n), j + 1, n) == Behind(w, j, n) != w
  {
  }

  /** The input written `j` calls before the last of `xs`. */
  function Recent(xs: seq<real>, j: nat): real
    requires j < |xs|
  {
    xs[|xs| - 1 - j]
  }

  /** The delay line remembers the last |buffer| inputs: after writing `xs`
      the slot `j + 1` places behind the write index holds the input
      written `j` calls ago. */
  lemma {:induction false} History(r: Ring, xs: seq<real>)
    requires RingValid(r)
    ensures Remembers(WriteAll(r, xs), xs)
    decreases |xs|
  {
    var n := |r.buffer|;
    if |xs| > 0 {
      var ys := xs[..|xs| - 1];
      var x := xs[|xs| - 1];
      History(r, ys);
      var r1 := WriteAll(r, ys);
      var r' := WriteAll(r, xs);
      assert r' == Write(r1, x);
      assert r'.writeIndex == Succ(r1.writeIndex, n);
      forall j: nat | j < |xs| && j < n
        ensures r'.buffer[Behind(r'.writeIndex, j + 1, n)] == Recent(xs, j)
      {
        SuccThenBehind(r1.writeIndex, j, n);
        if j > 0 {
          assert r1.buffer[Behind(r1.writeIndex, j, n)] == Recent(ys, j - 1);
        }
      }
    }
  }

  /** An index below twice the length, wrapped once. */
  function Wrap(index: int, n: nat): (i: nat)
    requires 0 <= index < 2 * n
    ensures i < n
  {
    if index < n then index else index - n
  }

  /** _readSampleFromDelayLine: an index past the end wraps once. Modelled
      for indices below twice the length, the only ones the chorus reads. */
  function ReadSample(r: Ring, index: int): (v: real)
    requires RingValid(r) && 0 <= index < 2 * |r.buffer|
    ensures v == r.buffer[Wrap(index, |r.buffer|)]
  {
    var i := if index >= |r.buffer| then index - |r.buffer| else index;
    r.buffer[i]
  }

  /** _readInterpolatedValueFromDelayLine: linear interpolation between the
      samples at the truncated index and the next one. */
  function ReadInterpolated(r: Ring, index: real): (v: real)
    requires RingValid(r) && 0.0 <= index && Trunc(index) + 1 < 2 * |r.buffer|
    ensures var n := |r.buffer|;
      Between(v, r.buffer[Wrap(Trunc(index), n)], r.buffer[Wrap(Trunc(index) + 1, n)])
    ensures index == Trunc(index) as real ==> v == r.buffer[Wrap(Trunc(index), |r.buffer|)]
  {
    var i := Trunc(index);
    Lookup.Interpolate(ReadSample(r, i), ReadSample(r, i + 1), index - i as real)
  }

  /** The ring holds the last min(|xs|, |buffer|) inputs of `xs`: the slot
      `j + 1` places behind the write index holds the input written `j`
      calls ago. */
  predicate Remembers(r: Ring, xs: seq<real>)
    requires RingValid(r)
  {
    forall j: nat :: j < |xs| && j < |r.buffer| ==>
      r.buffer[Behind(r.writeIndex, j + 1, |r.buffer|)] == Recent(xs, j)
  }

  /** Reading `d` places ahead of the write index of a ring that remembers
      at least |buffer| inputs is reading the input written |buffer| - 1 - d
      calls ago: the oldest sample sits at the write index itself. */
  lemma ReadAheadIsDelayedInput(r: Ring, xs: seq<real>, d: nat)
    requires RingValid(r) && Remembers(r, xs) && d < |r.buffer| <= |xs|
    ensures ReadSample(r, r.writeIndex + d) == Recent(xs, |r.buffer| - 1 - d)
  {
    var n := |r.buffer|;
    assert r.buffer[Behind(r.writeIndex, (n - 1 - d) + 1, n)] == Recent(xs, n - 1 - d);
    AheadIsBehind(r.writeIndex, d, n);
  }

  /** `d` places ahead, read with one wrap, is `n - d` places behind. */
  lemma AheadIsBehind(w: nat, d: nat, n: nat)
    requires w < n && d < n
    ensures Behind(w, n - d, n) == Wrap(w + d, n)
  {
  }

  // ---------------------------------------------------------------- the LFO

  datatype Sweep = Sweep(offset: real, direction: int)

  /** _calculateLfoDelayOffset: a triangle that moves one rate step per call
      and turns back (from the old offset) when the step would pass the
      bound on its side. */
  function LfoStep(offset: real, direction: int, rate: real, bound: real): (s: Sweep)
    ensures s.offset == offset + s.direction as real * rate
    ensures direction == 1 ==> (s.direction == -1 <==> offset + rate > bound)
    ensures direction != 1 ==> (s.direction == 1 <==> offset - rate < -bound)
    ensures s.direction == 1 || s.direction == -1
  {
    if direction == 1 then
      if offset + rate > bound then Sweep(offset - rate, -1) else Sweep(offset + rate, 1)
    else
      if offset - rate < -bound then Sweep(offset + rate, 1) else Sweep(offset - rate, -1)
  }

  /** With a step no larger than the bound, an offset within any `limit` at
      least the bound stays within it; in particular, once inside its own
      bound the sweep never leaves it, and an offset left outside by a
      deeper mode only moves back towards it. */
  lemma LfoStaysWithin(offset: real, direction: int, rate: real, bound: real, limit: real)
    requires 0.0 <= rate <= bound <= limit && -limit <= offset <= limit
    ensures -limit <= LfoStep(offset, direction, rate, bound).offset <= limit
  {
  }

  // ---------------------------------------------------------------- modes

  /** The completion callback of initializeMode: install the mode's settings
      and ramp the wet factor to the mode's level with no further callback.
      The ramp is requested while getNextValue is still running, so it is
      computed from the value before that call's final step. */
  function ApplyMode(c: Chorus, m: Mode, wet: Wet): (c': Chorus)
    ensures c'.isMono == m.isMono
    ensures c'.maxOffset == m.maxDelaySeconds * c.sampleRate as real
    ensures c'.rateFactor == 4.0 * m.maxDelaySeconds * m.sweepFreq
    ensures c'.wetFactor == SmoothMoves.LinearRampTo(wet, m.wet, RampSeconds, None)
    ensures c' == c.(isMono := c'.isMono, maxOffset := c'.maxOffset, rateFactor := c'.rateFactor,
                     wetFactor := c'.wetFactor)
  {
    c.(isMono := m.isMono,
       maxOffset := m.maxDelaySeconds * c.sampleRate as real,
       rateFactor := 4.0 * m.maxDelaySeconds * m.sweepFreq,
       wetFactor := SmoothMoves.LinearRampTo(wet, m.wet, RampSeconds, None))
  }

  /** A fitting mode installs settings that keep the LFO's invariant. */
  lemma ApplyModeKeepsLfoBounds(sampleRate: PosReal, m: Mode)
    requires ModeFits(m, sampleRate)
    ensures 0.0 <= 4.0 * m.maxDelaySeconds * m.sweepFreq <= m.maxDelaySeconds * sampleRate as real
    ensures m.maxDelaySeconds * sampleRate as real <= MaxDepthSeconds * sampleRate as real
  {
    var sr := sampleRate as real;
    MulMono(m.maxDelaySeconds, 0.0, 4.0 * m.sweepFreq);
    MulMono(m.maxDelaySeconds, 4.0 * m.sweepFreq, sr);
    assert 4.0 * m.maxDelaySeconds * m.sweepFreq == m.maxDelaySeconds * (4.0 * m.sweepFreq);
    MulMono(sr, m.maxDelaySeconds, MaxDepthSeconds);
  }

  /** The LFO step and bound a fitting mode installs keep the step within
      the bound and the bound within the deepest sweep. */
  lemma ModeStepWithinDepth(rate: real, bound: real, sampleRate: PosReal, m: Mode)
    requires ModeFits(m, sampleRate)
    requires rate == 4.0 * m.maxDelaySeconds * m.sweepFreq && bound == m.maxDelaySeconds * sampleRate as real
    ensures 0.0 <= rate <= bound <= MaxDepthSeconds * sampleRate as real
  {
    var sr := sampleRate as real;
    var d, f := m.maxDelaySeconds, 4.0 * m.sweepFreq;
    assert rate == d * f;
    MulMono(d, 0.0, f);
    MulMono(d, f, sr);
    MulMono(sr, d, MaxDepthSeconds);
  }

  /** At any valid sample rate every preset fits. */
  lemma PresetsFit(c: Chorus, mode: int)
    requires Valid(c)
    ensures ModeFits(ModeFor(mode), c.sampleRate)
  {
  }

  /** setMode / initializeMode as written: ramp the wet factor to 0 with the
      new mode as the completion callback. */
  function SetMode(c: Chorus, mode: int): (c': Chorus)
    requires Valid(c)
    ensures Valid(c')
    ensures c' == c.(wetFactor := SmoothMoves.LinearRampTo(c.wetFactor, 0.0, RampSeconds, Some(ModeFor(mode))))
  {
    PresetsFit(c, mode);
    c.(wetFactor := SmoothMoves.LinearRampTo(c.wetFactor, 0.0, RampSeconds, Some(ModeFor(mode))))
  }

  // ---------------------------------------------------------------- process

  datatype WetTick = WetTick(value: real, chorus: Chorus)

  /** getNextValue on the wet factor, with the completion callback run where
      the source runs it: after the candidate is chosen and before it is
      committed. */
  function TickWet(c: Chorus): (t: WetTick)
    requires Valid(c)
    ensures Valid(t.chorus)
    ensures t.value == SmoothMoves.Next(c.wetFactor).value
    ensures t.chorus.ring == c.ring && t.chorus.lfoOffset == c.lfoOffset && t.chorus.direction == c.direction
    ensures SmoothMoves.Next(c.wetFactor).fired == None ==>
      t.chorus == c.(wetFactor := SmoothMoves.Next(c.wetFactor).param)
    ensures SmoothMoves.Next(c.wetFactor).fired.Some? ==>
      var m := SmoothMoves.Next(c.wetFactor).fired.value;
      var up := SmoothMoves.LinearRampTo(c.wetFactor, m.wet, RampSeconds, None);
      && t.chorus == ApplyMode(c, m, up).(wetFactor := SmoothMoves.Commit(up, t.value))
  {
    var p := c.wetFactor;
    if SmoothMoves.Settled(p) then WetTick(p.current, c)
    else
      var (v, cb) := SmoothMoves.Candidate(p);
      match cb
      case None => WetTick(v, c.(wetFactor := SmoothMoves.Commit(p, v)))
      case Some(m) =>
        assert m == p.onComplete.value;
        InstalledModeValid(c, m, v);
        var c1 := ApplyMode(c, m, p);
        WetTick(v, c1.(wetFactor := SmoothMoves.Commit(c1.wetFactor, v)))
  }

  /** Installing a fitting mode, and committing the wet factor's next
      value, keeps the chorus valid. */
  lemma InstalledModeValid(c: Chorus, m: Mode, v: real)
    requires Valid(c) && ModeFits(m, c.sampleRate)
    ensures var c1 := ApplyMode(c, m, c.wetFactor);
      Valid(c1.(wetFactor := SmoothMoves.Commit(c1.wetFactor, v)))
  {
    var sr := c.sampleRate as real;
    var c1 := ApplyMode(c, m, c.wetFactor);
    var w := SmoothMoves.Commit(c1.wetFactor, v);
    var c2 := c1.(wetFactor := w);
    assert c2.ring == c.ring && c2.readOffset == c.readOffset && c2.sampleRate == c.sampleRate;
    assert c2.direction == c.direction && c2.lfoOffset == c.lfoOffset;
    assert c2.rateFactor == 4.0 * m.maxDelaySeconds * m.sweepFreq;
    assert c2.maxOffset == m.maxDelaySeconds * sr;
    ModeStepWithinDepth(c2.rateFactor, c2.maxOffset, c.sampleRate, m);
    assert w.sampleRate == c.sampleRate;
    assert w.onComplete.Some? ==> w.onComplete == c.wetFactor.onComplete;
  }

  /** When the ramp to 0 lands and installs a mode with a nonzero level, the
      wet factor restarts at 0 but its step was sized from the value before
      the landing step: the ramp up covers m.wet - current (not m.wet) in
      0.01 s worth of steps. */
  lemma RampUpSizedFromValueBeforeLanding(c: Chorus)
    requires Valid(c) && c.wetFactor.started && c.wetFactor.target == 0.0
    requires SmoothMoves.Next(c.wetFactor).fired.Some?
    requires SmoothMoves.Next(c.wetFactor).fired.value.wet != 0.0
    ensures var m := SmoothMoves.Next(c.wetFactor).fired.value;
      var w := TickWet(c).chorus.wetFactor;
      && TickWet(c).value == 0.0 && w.current == 0.0 && w.target == m.wet
      && w.step * (RampSeconds * c.sampleRate as real) == m.wet - c.wetFactor.current
      && w.onComplete == None
  {
  }

  /** The dry input and a wet sample mixed by the wet factor. */
  function MixWet(dry: real, wet: real, factor: real): (out: real)
    ensures 0.0 <= factor <= 1.0 ==> Between(out, dry, wet)
    ensures factor == 0.0 ==> out == dry
    ensures factor == 1.0 ==> out == wet
  {
    if 0.0 <= factor <= 1.0 then
      Lookup.InterpolationBetween(dry, wet, factor);
      dry * (1.0 - factor) + wet * factor
    else dry * (1.0 - factor) + wet * factor
  }

  /** The part of process after a nonzero wet factor: step the LFO, read
      the left tap behind and the right tap ahead of the read centre (the
      right is the left in mono) and mix each with the input. */
  function ProcessWet(c: Chorus, input: real, wet: real): (c': Chorus)
    requires Valid(c) && ReadWindowFits(c)
    ensures Valid(c') && ReadWindowFits(c')
    ensures var s := LfoStep(c.lfoOffset, c.direction, c.rateFactor, c.maxOffset);
      var centre := c.ring.writeIndex as real + c.readOffset;
      (TapsFit(c, s);
       && c' == c.(lfoOffset := s.offset, direction := s.direction, left := c'.left, right := c'.right)
       && c'.left == MixWet(input, ReadInterpolated(c.ring, centre - s.offset), wet)
       && (c.isMono ==> c'.right == c'.left)
       && (!c.isMono ==> c'.right == MixWet(input, ReadInterpolated(c.ring, centre + s.offset), wet)))
  {
    var s := LfoStep(c.lfoOffset, c.direction, c.rateFactor, c.maxOffset);
    var centre := c.ring.writeIndex as real + c.readOffset;
    TapsFit(c, s);
    var leftWet := ReadInterpolated(c.ring, centre - s.offset);
    var rightWet := if c.isMono then leftWet else ReadInterpolated(c.ring, centre + s.offset);
    var left, right := MixWet(input, leftWet, wet), MixWet(input, rightWet, wet);
    StepKeepsValid(c, s, left, right);
    c.(lfoOffset := s.offset, direction := s.direction, left := left, right := right)
  }

  /** Moving the LFO one step and setting the outputs keeps the chorus
      valid and its read window inside the buffer. */
  lemma StepKeepsValid(c: Chorus, s: Sweep, left: real, right: real)
    requires Valid(c) && ReadWindowFits(c)
    requires s == LfoStep(c.lfoOffset, c.direction, c.rateFactor, c.maxOffset)
    ensures var c' := c.(lfoOffset := s.offset, direction := s.direction, left := left, right := right);
      Valid(c') && ReadWindowFits(c')
  {
    TapsFit(c, s);
  }

  /** process: write the input and tick the wet factor; with no wet signal
      both outputs are the input and the LFO does not move, otherwise the
      taps are read and mixed. */
  function Process(c: Chorus, input: real): (c': Chorus)
    requires Valid(c) && ReadWindowFits(c)
    ensures Valid(c') && ReadWindowFits(c')
    ensures c'.ring == Write(c.ring, input)
    ensures var t := TickWet(c.(ring := Write(c.ring, input)));
      && (t.value == 0.0 ==> c' == t.chorus.(left := input, right := input))
      && (t.value != 0.0 ==> c' == ProcessWet(t.chorus, input, t.value))
  {
    var t := TickWet(c.(ring := Write(c.ring, input)));
    if t.value == 0.0 then t.chorus.(left := input, right := input)
    else ProcessWet(t.chorus, input, t.value)
  }

  /** Both taps of the next LFO step can be read, and the step stays
      within the deepest sweep. */
  lemma TapsFit(c: Chorus, s: Sweep)
    requires Valid(c) && ReadWindowFits(c)
    requires s == LfoStep(c.lfoOffset, c.direction, c.rateFactor, c.maxOffset)
    ensures var centre := c.ring.writeIndex as real + c.readOffset;
      && -(MaxDepthSeconds * c.sampleRate as real) <= s.offset <= MaxDepthSeconds * c.sampleRate as real
      && 0.0 <= centre - s.offset && Trunc(centre - s.offset) + 1 < 2 * |c.ring.buffer|
      && 0.0 <= centre + s.offset && Trunc(centre + s.offset) + 1 < 2 * |c.ring.buffer|
  {
    var depth := MaxDepthSeconds * c.sampleRate as real;
    LfoStaysWithin(c.lfoOffset, c.direction, c.rateFactor, c.maxOffset, depth);
    var centre := c.ring.writeIndex as real + c.readOffset;
    TapFits(c, centre, -s.offset);
    TapFits(c, centre, s.offset);
  }

  /** A tap at most the deepest sweep away from the read centre can be read:
      the index is non-negative and its successor lies below twice the
      length. */
  lemma TapFits(c: Chorus, centre: real, shift: real)
    requires Valid(c) && ReadWindowFits(c)
    requires centre == c.ring.writeIndex as real + c.readOffset
    requires -(MaxDepthSeconds * c.sampleRate as real) <= shift <= MaxDepthSeconds * c.sampleRate as real
    ensures 0.0 <= centre + shift && Trunc(centre + shift) + 1 < 2 * |c.ring.buffer|
  {
    var sr := c.sampleRate as real;
    assert ReadOffsetSeconds * sr >= MaxDepthSeconds * sr;
    assert (c.ring.writeIndex + 1) as real <= |c.ring.buffer| as real;
  }

  /** With the wet factor at 0 for the call, both outputs are the input and
      the LFO keeps its offset and direction. */
  lemma SilentWetIsDry(c: Chorus, input: real)
    requires Valid(c) && ReadWindowFits(c)
    requires SmoothMoves.Next(c.wetFactor).value == 0.0
    ensures var c' := Process(c, input);
      c'.left == input && c'.right == input && c'.lfoOffset == c.lfoOffset && c'.direction == c.direction
  {
  }

  /** With a wet factor in [0, 1] each output lies between the input and its
      tap's interpolated delayed sample. */
  lemma OutputsBetweenDryAndWet(c: Chorus, input: real, wet: real)
    requires Valid(c) && ReadWindowFits(c) && 0.0 <= wet <= 1.0
    ensures var s := LfoStep(c.lfoOffset, c.direction, c.rateFactor, c.maxOffset);
      var centre := c.ring.writeIndex as real + c.readOffset;
      var c' := ProcessWet(c, input, wet);
      (TapsFit(c, s);
       && Between(c'.left, input, ReadInterpolated(c.ring, centre - s.offset))
       && Between(c'.right, input, ReadInterpolated(c.ring, centre + (if c.isMono then -s.offset else s.offset))))
  {
  }

  // ---------------------------------------------------------------- finding

  /** The chorus is dry and stays dry: the wet factor sits at 0 with no
      pending mode. */
  predicate Dry(c: Chorus) {
    c.wetFactor.current == 0.0 && c.wetFactor.target == 0.0 && c.wetFactor.onComplete == None
  }

  /** As written the chorus never leaves "off": the wet factor starts at 0,
      so initializeMode's ramp to 0 is a no-op for the current target, its
      callback is never stored, and no mode is ever installed. From the
      constructor's state any mix of setMode and process calls leaves the
      outputs equal to the input. */
  lemma SetModeNeverLeavesOffAsWritten(c: Chorus, mode: int, input: real)
    requires Valid(c) && ReadWindowFits(c) && Dry(c)
    ensures SetMode(c, mode) == c
    ensures var c' := Process(c, input);
      Dry(c') && c'.left == input && c'.right == input
  {
  }

  lemma NewIsDry(sampleRate: PosReal)
    ensures Dry(New(sampleRate))
  {
  }

  /** setMode as evidently intended: when the wet factor reaches 0 at once
      (it was already 0, or it had never stepped and jumps), install the mode
      now; otherwise the mode waits as the callback of the ramp to 0,
      replacing any mode still pending. */
  function SetModeCorrected(c: Chorus, mode: int): (c': Chorus)
    requires Valid(c)
    ensures Valid(c')
    ensures var m := ModeFor(mode);
      || (&& c'.isMono == m.isMono
          && c'.maxOffset == m.maxDelaySeconds * c.sampleRate as real
          && c'.rateFactor == 4.0 * m.maxDelaySeconds * m.sweepFreq
          && c'.wetFactor.target == m.wet)
      || (&& c'.wetFactor.target == 0.0 && !SmoothMoves.Settled(c'.wetFactor)
          && c'.wetFactor.onComplete == Some(m)
          && c' == c.(wetFactor := c'.wetFactor))
  {
    var m := ModeFor(mode);
    PresetsFit(c, mode);
    ApplyModeKeepsLfoBounds(c.sampleRate, m);
    var q := SmoothMoves.LinearRampTo(c.wetFactor, 0.0, RampSeconds, Some(m));
    if SmoothMoves.Settled(q) then ApplyMode(c, m, q)
    else c.(wetFactor := q.(onComplete := Some(m)))
  }

  /** With the correction a preset takes effect from the constructor's
      state: the wet factor of modes 1 to 3 is 0.5 on the next call. */
  lemma CorrectedLeavesOff(sampleRate: PosReal, mode: int)
    requires Valid(New(sampleRate)) && 1 <= mode <= 3
    ensures var c := SetModeCorrected(New(sampleRate), mode);
      c.isMono == (mode == 3) && SmoothMoves.Next(c.wetFactor).value == 0.5
  {
  }
}
