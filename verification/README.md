# Juno-60 engine, modelled in Dafny

This project models the per-sample control logic of a Juno-60 style
polyphonic synthesizer written for the Web Audio AudioWorklet. The parts
modelled are these:

- **Parameter ramp** (`SmoothMoves`). A linear glide toward a target that
  lands exactly on the target and fires its stored completion callback
  each time it lands.
- **Segment envelope** (`Envelopes`). A phase index runs over a list of
  segments (`Segments`): attack, decay, delay and shutdown. It has two
  concrete layouts: the note envelope (`Juno60Envelope`) and the LFO's
  contour (`Juno60Lfo`).
- **Oscillator.** The DCO core (`DcoCore`) computes the phase increment and
  the PolyBLEP correction. The Juno-60 DCO (`Juno60Dco`) adds phase
  accumulation with wrap, the sub-oscillator flip, the pulse comparator and
  its clamped threshold, and the mix.
- **Noise source** (`Noise`). A 16-bit linear feedback shift register,
  scaled to [-1, 1) and shaped by a level ramp.
- **Chorus** (`Juno60Chorus`). A ring-buffer delay line with an interpolated
  read, a bouncing triangle modulation of the read offset, and wet/dry
  mixing. Its mode is switched by ramping the wet level to zero first.
- **Small helpers.**
  - `Lookup`: table lookup with linear interpolation.
  - `NoteFrequency`: note-number to frequency with octave folding.
  - `FastTanh`: a rational saturator.
- **Voices and instrument.**
  - `BaseVoice` and `Juno60Voice`: note on, note off, shutdown, the patch
    update with source mixing and gate mode, and the per-sample output.
  - `BaseInstrument`: the message handlers, the waiting-note queue and the
    voice-allocation condition.
- **Host-side node** (`InstrumentNode`). MIDI decoding and sustain-pedal
  buffering of note releases. Posting a message to the audio thread is
  modelled as appending to a log.
- **Two earlier stand-alone designs.** A bouncing triangle LFO
  (`TriangleLfo`) and a phase-numbered ADSR envelope (`PhaseEnvelope`).

The model's conventions are these:

- Samples and parameters are `real`.
- `Math.exp`, `Math.log`, `Math.tanh`, `Math.sin` and `Math.pow` are passed
  in as function parameters. For the segment coefficient
  exp(-ln((1 + tco) / tco) / samples), the whole map is passed as one
  parameter.
- `Math.random` is an input: a `draw` value, or a 15-bit seed.
- JavaScript `null` and `undefined` are `Option.None`.
- State is held in immutable datatypes. Every source method is a pure
  function from the old state to the new one.
- Where a ramp is read (`getNextValue`), the result carries both the value
  and the ramp's new state.

## Reading of the source

Several source lines cannot run as written: they throw, or they refer to
names that do not exist. The model reads each one by its evident intent,
as follows.

- `src/AudioProcessors/Instruments/BaseVoiceImplementation.js:81` and `:97`
  call `update(_currentPatch)` with a bare name, which throws. They are
  read as re-applying the voice's stored patch.
- `for (… in …)` loops iterate index strings, not objects. They are read as
  iterating the envelopes or voices themselves. The loops are in
  `BaseVoiceImplementation.js` (lines 84 and 100) and
  `BaseInstrumentImplementation.js` (line 73).
- The `shutdownAll` handler reads `data.duration`, but the message carries
  no data. The handler is read as shutting down every voice.
- `Juno60Lfo.js` calls `_env.doTrigger()` and `_env.doRelease()`, which the
  envelope does not define.
  - doRelease is read as `release`.
  - doTrigger is read as `trigger` preceded by a reset of the segments, so
    the delay runs again (see Findings).
  - `Juno60VoiceImplementation.js:114` calls the same missing
    `doTrigger` on the VCA envelope. That envelope has no delay segment, so
    both readings agree (`Envelopes.TriggerResettingWithoutDelay`).
- `Juno60Lfo.js:143-145` reads the static curves without their class name
  and never imports `interpolatedLookup`. It is read as looking up the
  class's curves.
- Two constructors use `this` before `super`: `Juno60Envelope` and
  `Juno60VoiceImplementation`. The Juno-60 envelope's `this.release` and
  `this.shutdown` fields would also shadow the base class's `release` and
  `shutdown` methods. The model keeps segments and methods apart.
- The same shadowing happens in the `Juno60Lfo` constructor
  (`Juno60Lfo.js:21-22`). It assigns `this._env.release` and
  `this._env.shutdown` on the `BaseEnvelope` instance, and these own
  properties hide the base class's `release()` and `shutdown()`. As
  written, `Juno60Lfo.shutdown()` (lines 70-72) calls a `ShutdownSegment`
  object as a function and throws a TypeError. `Juno60Lfo.Shutdown` and
  `Juno60Lfo.DoRelease` are read by evident intent as the base class's
  `shutdown` and `release`.
- `Juno60VoiceImplementation`:
  - It passes four arguments to a three-parameter base constructor. It is
    read as (sampleRate, patch, envelopes).
  - It builds `new Juno60Dco(sampleRate)` with no note number. The DCO is
    built with note -1, the voice's initial note.
  - It uses `this.dco`, `this.noise`, `this.vcaEnvelope` and
    `this.sampleRate`, which are never assigned. These are read as the
    underscored fields.
  - It replaces the pulse-width ramp with a plain number
    (`this.dco.pwmWidth = dco.pwm*0.49`). This is read as gliding that ramp
    to the number.
- `convertNoteNumberToFrequency.js`:
  - it imports `interpolatedLookup.js.js`;
  - it calls `Math.power`;
  - a missing semicolon at lines 4-5 turns the table initialiser into a
    call.

  The tables are therefore given as parameters with the shape the
  initialiser intends (`NoteFrequency.Tables`).
- `Juno60Chorus.process` writes `leftOutputValue` and `rightOutputValue`
  rather than the declared `outputLeft` and `outputRight`. The model keeps
  one left and one right output.
- `Juno60Lfo.js` leaves `_phaseIncrement` undefined until `setValues`
  (line 132) assigns it, so processing before then (line 81) makes the
  phase NaN. The model starts the increment at 0, so such an LFO holds its
  phase.
- Where the Findings table names a corrected member, the rest of the model
  is built on that corrected half, and the contracts above describe the
  corrected program:
  - `Segments.Process` (decay sustain clamp) is used by `Envelopes`,
    `Juno60Envelope` and `Juno60Lfo`;
  - `Envelopes.IsReleased` and `Envelopes.IsShuttingDown` are used by
    `BaseVoice`, by `Juno60Voice.Reshape`, `Juno60Voice.GateRetriggersHeldNote`
    and `Juno60Voice.NoteOff`, and by `BaseInstrument`'s voice states,
    `HandleShutdownAll`, `ShutdownAllFreesEveryVoice` and `ProcessMessages`;
  - `InstrumentNode.NoteOn` is used by `InstrumentNode.OnMidiMessage`,
    `InstrumentNode.ZeroVelocityNoteOnIsNoteOff` and
    `InstrumentNode.RestruckNoteSurvivesPedal`;
  - `Lookup.Lookup` is used by the LFO's slider curves and by
    `NoteFrequency`.
- `ShutdownSegment.process` (line 26) tests the unassigned `this.value`, so
  its zero clamp never fires. The model returns the raw `prev - rate`.
  That candidate completes the segment and is discarded anyway.

## Model

| member | source | states |
|---|---|---|
| Numeric.Trunc | src/AudioProcessors/Components/DelaySegment.js:18 | `x \| 0` truncates toward zero: for non-negative x the result is the largest integer not above x, for negative x the smallest not below it |
| Numeric.Sign | src/AudioProcessors/smoothMoves.js:57 | `Math.sign` is 1, -1 or 0 exactly for positive, negative and zero arguments |
| SmoothMoves.New | src/AudioProcessors/smoothMoves.js:7-15 | a new ramp is settled at its initial value and not yet read; its first read returns that value, changes nothing and fires no callback |
| SmoothMoves.SetValue | src/AudioProcessors/smoothMoves.js:21-24 | the target becomes the value with the current value, callback and started flag kept, and the very next read returns exactly that value and leaves the ramp settled |
| SmoothMoves.LinearRampTo | src/AudioProcessors/smoothMoves.js:32-42 | same target: no change; zero duration or a never-read ramp: jumps at once; otherwise the step is (value - current) / (duration · sampleRate) and the callback is stored; a positive-duration ramp heads toward its target |
| SmoothMoves.Next | src/AudioProcessors/smoothMoves.js:48-69 | getNextValue: a settled ramp returns its value and changes nothing; otherwise the ramp is marked read and holds the returned value; the callback fires, and is the stored one, exactly when an unsettled ramp lands with a callback stored; a ramp heading for its target returns a value between current and target and keeps heading there |
| SmoothMoves.AdvanceLast | src/AudioProcessors/smoothMoves.js:48-69 | k + 1 reads are k reads followed by one more |
| SmoothMoves.NextMovesOneStep | src/AudioProcessors/smoothMoves.js:54-57 | while the step does not reach the target, a read moves the value by exactly one step |
| SmoothMoves.NextLands | src/AudioProcessors/smoothMoves.js:57-61 | a step that reaches the target lands on it exactly and fires the stored callback |
| SmoothMoves.RampPosition | src/AudioProcessors/smoothMoves.js:52-65 | before the n-th read of an n-step ramp the value is k steps from the start and the ramp is still moving |
| SmoothMoves.RampArrivesAfterExactlyNSteps | src/AudioProcessors/smoothMoves.js:32-65 | a started ramp of duration n samples reaches its target on the n-th read and no earlier, and the n-th read fires the callback |
| Segments.NewShutdown | src/AudioProcessors/Components/ShutdownSegment.js:10-12 | the shutdown rate times the segment's length in samples is 1: it falls from +1 to 0 in the given seconds |
| Segments.SetDuration | src/AudioProcessors/Components/AttackSegment.js:20-24 | attack and decay keep their kind and target and take the new coefficient, with offset (1 + tco)(1 - coeff) for attack and (target - tco)(1 - coeff) for decay; a delay's count becomes trunc(sampleRate · duration) and its remaining minus count is unchanged |
| Segments.Reset | src/AudioProcessors/Components/DelaySegment.js:26-28 | reset restarts a delay's countdown at its count and leaves attack and shutdown segments unchanged |
| Segments.Process | src/AudioProcessors/Components/AttackSegment.js:36-39 | process keeps every segment's configuration; a delay returns its input and counts down by one; a shutdown subtracts its rate; attack and decay return the one-pole recurrence, clamped to the target when sustaining, so a sustaining segment never completes; the decay clamp is the correction of Findings row 3 (`DecaySegment.js:34`), whose as-written half is `Segments.DecayValueAsWritten` |
| Segments.DecayValueAsWritten | src/AudioProcessors/Components/DecaySegment.js:32-38 | as written the decay candidate is always the raw recurrence: the sustain clamp never fires |
| Segments.DecayValueWithField | src/AudioProcessors/Components/DecaySegment.js:34 | the clamp reading an unassigned field (undefined) never changes the raw recurrence |
| Segments.DecaySustainClampAsWritten | src/AudioProcessors/Components/DecaySegment.js:32-43 | a concrete sustaining decay segment whose as-written candidate completes the segment, while the clamped candidate holds the sustain level |
| Segments.AttackFixedPoint | src/AudioProcessors/Components/AttackSegment.js:22-23 | after setDuration with coefficient other than 1, the attack recurrence fixes exactly 1 + tco |
| Segments.DecayFixedPoint | src/AudioProcessors/Components/DecaySegment.js:24-25 | after setDuration with coefficient other than 1, the decay recurrence fixes exactly target - tco |
| Segments.RecurrenceApproaches | src/AudioProcessors/Components/AttackSegment.js:22-37 | with coefficient in (0, 1) each step moves strictly toward the fixed point without reaching it, shrinking the distance by the coefficient |
| Segments.DelayRepeat | src/AudioProcessors/Components/DelaySegment.js:35-38 | k calls return the input unchanged and lower the countdown by k |
| Segments.DelayCompletesOnNthCall | src/AudioProcessors/Components/DelaySegment.js:26-44 | after reset with count n ≥ 1 the segment is complete after the k-th call exactly when k ≥ n |
| Segments.ShutdownRepeat | src/AudioProcessors/Components/ShutdownSegment.js:24-27 | k calls lower the value by k steps of the rate |
| Segments.ShutdownCompletesWithin | src/AudioProcessors/Components/ShutdownSegment.js:8-34 | from any value at most +1 the shutdown segment completes within ceil(seconds · sampleRate) calls |
| Segments.DecayRepeat | src/AudioProcessors/Components/DecaySegment.js:32-38 | k non-sustaining decay steps shrink the distance to the fixed point geometrically, by the coefficient per step |
| Segments.DecayEventuallyCompletes | src/AudioProcessors/Components/DecaySegment.js:22-43 | a non-sustaining decay with positive tco and coefficient in (0, 1) completes after finitely many calls from any start |
| Envelopes.New | src/AudioProcessors/Components/BaseEnvelope.js:11-25 | a new envelope is inactive (phase -1) with value 0 |
| Envelopes.IsReleasedAsWritten | src/AudioProcessors/Components/BaseEnvelope.js:35 | as written isReleased always holds, whatever the phase, because it reads an undefined property |
| Envelopes.IsShuttingDownAsWritten | src/AudioProcessors/Components/BaseEnvelope.js:40 | as written isShuttingDown never holds |
| Envelopes.StatusAsWrittenDisagrees | src/AudioProcessors/Components/BaseEnvelope.js:35-40 | a freshly triggered envelope reads as released as written but not as intended; a shut-down one is shutting down as intended but not as written |
| Envelopes.Trigger | src/AudioProcessors/Components/BaseEnvelope.js:45-47 | trigger from any state gives an active envelope at phase 0, neither released nor shutting down, segments and value untouched |
| Envelopes.ResetSegments | src/AudioProcessors/Components/DelaySegment.js:26-28 | resetting a segment list restarts every delay's countdown and leaves every other segment as it was |
| Envelopes.TriggerResetting | src/AudioProcessors/Instruments/Juno60/Juno60Lfo.js:56 | the trigger used by the LFO: phase 0 with every segment reset |
| Envelopes.TriggerResettingWithoutDelay | src/AudioProcessors/Components/BaseEnvelope.js:45-47 | on an envelope without delay segments the resetting trigger is the plain trigger |
| Envelopes.Release | src/AudioProcessors/Components/BaseEnvelope.js:53-57 | release is a no-op when inactive; otherwise phase becomes length - 2, which is released and not shutting down |
| Envelopes.Shutdown | src/AudioProcessors/Components/BaseEnvelope.js:62-66 | shutdown is a no-op when inactive; otherwise phase becomes length - 1, which is shutting down and (with three or more segments) released |
| Envelopes.Run | src/AudioProcessors/Components/BaseEnvelope.js:73-92 | the loop ends inactive with value 0 or at a segment index not before the starting one, and only delay countdowns change |
| Envelopes.RunVisits | src/AudioProcessors/Components/BaseEnvelope.js:73-92 | every segment the loop passes produced a completing candidate, the segment it stops in produced the stored incomplete candidate, and all other segments are untouched |
| Envelopes.Process | src/AudioProcessors/Components/BaseEnvelope.js:71-95 | an inactive envelope is unchanged; an active one never moves its phase backward and only delay countdowns change in its segments; an envelope that finishes its last segment is left inactive with value 0 |
| Envelopes.ProcessKeepsIncompleteCandidate | src/AudioProcessors/Components/BaseEnvelope.js:87-90 | a candidate that does not complete its segment is stored and the phase stays |
| Envelopes.ProcessDiscardsCompletingCandidate | src/AudioProcessors/Components/BaseEnvelope.js:76-86 | a completing candidate is discarded and the next segment starts from the previously stored value in the same call |
| Envelopes.ProcessN | src/AudioProcessors/Components/BaseEnvelope.js:71-95 | repeated processing keeps the envelope valid and every segment's kind and configuration |
| Envelopes.InactiveStaysInactive | src/AudioProcessors/Components/BaseEnvelope.js:72 | an inactive envelope stays exactly as it is however many samples are processed |
| Envelopes.ShutdownPhaseEnds | src/AudioProcessors/Components/BaseEnvelope.js:80-85 | in the shutdown segment, a value at most n rate steps above 0 leaves the envelope inactive with value 0 after n samples |
| Envelopes.ShutdownReachesSilence | src/AudioProcessors/Components/ShutdownSegment.js:8-34 | shutting down an active envelope whose value is at most +1 silences it within ceil(seconds · sampleRate) samples |
| Juno60Envelope.New | src/AudioProcessors/Instruments/Juno60/Juno60Envelope.js:14-21 | the layout is attack (tco 0.632, target 1), a sustaining decay and a release to 0 (both tco -0.02) and a 0.002 s shutdown, all at one sample rate; the envelope starts inactive at 0 |
| Juno60Envelope.SetValues | src/AudioProcessors/Instruments/Juno60/Juno60Envelope.js:29-34 | the decay target becomes the sustain level before its coefficients are computed, the three timed segments get their new coefficients, and the shutdown segment and the phase are untouched |
| Juno60Envelope.ProcessKeepsLayout | src/AudioProcessors/Instruments/Juno60/Juno60Envelope.js:15-20 | processing never changes the Juno-60 segment list |
| Juno60Envelope.ReleaseAndShutdownTargets | src/AudioProcessors/Instruments/Juno60/Juno60Envelope.js:15-20 | the base release lands on the release segment (a decay to 0) and the base shutdown on the shutdown segment |
| Juno60Envelope.AttackCompletesAboveOne | src/AudioProcessors/Instruments/Juno60/Juno60Envelope.js:16 | the attack stays in attack, storing its raw value, while that value is at most 1, and leaves the attack once it exceeds 1 |
| Juno60Envelope.DecayHoldsAtSustain | src/AudioProcessors/Instruments/Juno60/Juno60Envelope.js:17 | the sustaining decay never leaves its phase and never falls below the sustain level |
| Juno60Envelope.ReleaseNeverCompletesAsWritten | src/AudioProcessors/Instruments/Juno60/Juno60Envelope.js:17-18 | with the offset -0.02 the logarithm's argument (1 + tco) / tco is negative, and for any coefficient in (0, 1) a step of the release from a non-negative value stays in the release at a non-negative value, so the release never completes |
| Juno60Envelope.NewCorrected | src/AudioProcessors/Instruments/Juno60/Juno60Envelope.js:14-21 | the same layout with the offset +0.02 |
| Juno60Envelope.ReleaseCompletesCorrected | src/AudioProcessors/Components/DecaySegment.js:22-43 | with the offset +0.02 the logarithm's argument exceeds 1 and the configured release completes from any value |
| Juno60Lfo.WaveformNamed | src/AudioProcessors/Instruments/Juno60/Juno60Lfo.js:96-117 | "none" selects the no-waveform case, and only it; the triangle is chosen exactly for names other than none, sine, square, random and noise |
| Juno60Lfo.New | src/AudioProcessors/Instruments/Juno60/Juno60Lfo.js:15-41 | the contour is delay, attack to 1 held by the sustain flag, release (configured for 0.1 s) and a 0.001 s shutdown; it starts inactive at phase 1, value 0, triangle |
| Juno60Lfo.DoTrigger | src/AudioProcessors/Instruments/Juno60/Juno60Lfo.js:51-57 | an idle LFO restarts at phase 1 with value 0, an active one keeps both; the contour becomes active in its delay segment with a full countdown; increment and waveform are kept |
| Juno60Lfo.DoRelease | src/AudioProcessors/Instruments/Juno60/Juno60Lfo.js:63-65 | read as the base envelope's `release`: only the contour changes, moving an active one to its release segment |
| Juno60Lfo.Shutdown | src/AudioProcessors/Instruments/Juno60/Juno60Lfo.js:70-72 | read as the base envelope's `shutdown`: only the contour changes, moving an active one to its shutdown segment |
| Juno60Lfo.TriangleMatchesReference | src/AudioProcessors/Instruments/Juno60/Juno60Lfo.js:114-116 | the folded 4p equals the piecewise-linear triangle through 0, 1, -1, 0 and stays in [-1, 1] |
| Juno60Lfo.TriangleBounded | src/AudioProcessors/Instruments/Juno60/Juno60Lfo.js:112-117 | for phase in [0, 1] the triangle lies in [-1, 1] |
| Juno60Lfo.WaveValue | src/AudioProcessors/Instruments/Juno60/Juno60Lfo.js:95-118 | square is +1 up to half phase and -1 above; "none" is 1 on a restart and 0 otherwise; random holds its value between restarts; triangle, random and noise stay in [-1, 1] |
| Juno60Lfo.Process | src/AudioProcessors/Instruments/Juno60/Juno60Lfo.js:74-123 | an inactive LFO outputs 0 and changes nothing; otherwise the phase advances; a zero contour outputs 0 and keeps the held value; otherwise the value is the waveform at the new phase and the output is contour times value |
| Juno60Lfo.Advance | src/AudioProcessors/Instruments/Juno60/Juno60Lfo.js:80-88 | the phase advances by the increment and wraps by 1 exactly when it exceeds 1, which is when it reports a restart; the contour takes one step |
| Juno60Lfo.ContourShapeKept | src/AudioProcessors/Instruments/Juno60/Juno60Lfo.js:18-23 | a contour whose segments only moved their delay countdown keeps the constructor's layout |
| Juno60Lfo.PhaseStaysInUnitInterval | src/AudioProcessors/Instruments/Juno60/Juno60Lfo.js:80-85 | with increment in [0, 1] the phase stays in [0, 1] |
| Juno60Lfo.RandomHoldsBetweenRestarts | src/AudioProcessors/Instruments/Juno60/Juno60Lfo.js:106-108 | the random waveform changes its value only on a restart |
| Juno60Lfo.TriangleOutputBounded | src/AudioProcessors/Instruments/Juno60/Juno60Lfo.js:112-122 | a triangle LFO with contour value in [0, 1] outputs a value in [-1, 1] |
| Juno60Lfo.ContourHeldInAttack | src/AudioProcessors/Instruments/Juno60/Juno60Lfo.js:20 | the contour's attack never completes and never exceeds 1 |
| Juno60Lfo.SetValues | src/AudioProcessors/Instruments/Juno60/Juno60Lfo.js:131-135 | the increment times the sample rate is the frequency; the delay count is trunc(sampleRate · delay), with remaining minus count kept; the attack takes its coefficient; the release, phase and value are untouched |
| Juno60Lfo.CurvesNonDecreasing | src/AudioProcessors/Instruments/Juno60/Juno60Lfo.js:27-29 | the three slider curves are non-decreasing |
| Juno60Lfo.SliderRate | src/AudioProcessors/Instruments/Juno60/Juno60Lfo.js:143 | the rate slider gives a frequency in [0.3, 22.22] Hz |
| Juno60Lfo.SliderDelay | src/AudioProcessors/Instruments/Juno60/Juno60Lfo.js:144 | the delay slider gives a delay in [0, 2.685] s |
| Juno60Lfo.SliderAttack | src/AudioProcessors/Instruments/Juno60/Juno60Lfo.js:145 | the delay slider gives an attack in [0, 1.15] s |
| Juno60Lfo.SetValuesFromSliders | src/AudioProcessors/Instruments/Juno60/Juno60Lfo.js:142-147 | the slider form keeps the LFO valid and leaves its contour position, its release segment, phase, value and waveform untouched; the attack takes the coefficient of the attack curve read at the delay slider |
| Juno60Lfo.IncrementMonotone | src/AudioProcessors/Instruments/Juno60/Juno60Lfo.js:131-132 | a higher frequency never gives a smaller phase increment |
| Juno60Lfo.DelayCountMonotone | src/AudioProcessors/Instruments/Juno60/Juno60Lfo.js:131-133 | a longer delay never gives a smaller delay count |
| Juno60Lfo.DelayCountWithin | src/AudioProcessors/Instruments/Juno60/Juno60Lfo.js:131-133 | a delay in [0, 2.685] s gives a count of trunc(sampleRate · delay), between 0 and 2.685 · sampleRate |
| Juno60Lfo.SliderRateMonotone | src/AudioProcessors/Instruments/Juno60/Juno60Lfo.js:143 | a higher rate slider reads a frequency no lower |
| Juno60Lfo.SliderDelayMonotone | src/AudioProcessors/Instruments/Juno60/Juno60Lfo.js:144 | a higher delay slider reads a delay no shorter |
| Juno60LfoSliders.RateSliderSetsIncrement | src/AudioProcessors/Instruments/Juno60/Juno60Lfo.js:142-147 | after the slider form the increment is the rate curve's frequency over the sample rate, between 0.3 and 22.22 cycles a second |
| Juno60LfoSliders.DelaySliderSetsDelay | src/AudioProcessors/Instruments/Juno60/Juno60Lfo.js:142-147 | the slider form re-times the delay segment to the delay curve's reading and the attack segment to the attack curve's, both at the delay slider |
| Juno60LfoSliders.DelaySliderCountWithin | src/AudioProcessors/Instruments/Juno60/Juno60Lfo.js:142-147 | whatever the delay slider, the delay count lies between 0 and 2.685 · sampleRate |
| Juno60LfoSliders.RateSliderMonotone | src/AudioProcessors/Instruments/Juno60/Juno60Lfo.js:142-147 | moving the rate slider up never lowers the phase increment |
| Juno60LfoSliders.DelaySliderMonotone | src/AudioProcessors/Instruments/Juno60/Juno60Lfo.js:142-147 | moving the delay slider up never shortens the delay count |
| Juno60Lfo.RateSliderAtMaximumAsWritten | src/AudioProcessors/Instruments/Juno60/Juno60Lfo.js:143 | the rate slider at 1 reads the curve at its last index, which the as-written lookup reads past the end; the corrected lookup gives 22.22 |
| Juno60Lfo.TriggerSkipsElapsedDelay | src/AudioProcessors/Instruments/Juno60/Juno60Lfo.js:56 | retriggering with the plain envelope trigger after the delay has elapsed goes straight to the attack on the next sample |
| Juno60Lfo.DoTriggerRestartsDelay | src/AudioProcessors/Instruments/Juno60/Juno60Lfo.js:51-57 | with a resetting trigger the delay runs again: the next sample is still in the delay, at the stored value |
| Lookup.LookupAsWritten | src/AudioProcessors/Utils/interpolatedLookup.js:1-11 | below 0 the first entry, above length - 1 the last; the read is undefined exactly at value length - 1 |
| Lookup.Lookup | src/AudioProcessors/Utils/interpolatedLookup.js:1-11 | below 0 the first entry, from length - 1 on the last, in between a value between the two neighbouring entries |
| Lookup.Interpolate | src/AudioProcessors/Utils/interpolatedLookup.js:9-10 | the interpolated value lies between its two end points and is the first at factor 0 |
| Lookup.LookupAtIndex | src/AudioProcessors/Utils/interpolatedLookup.js:8-10 | an integral index reads that entry exactly |
| Lookup.LookupAgreesAwayFromEnd | src/AudioProcessors/Utils/interpolatedLookup.js:5-10 | away from value length - 1 the as-written and the corrected lookups agree |
| Lookup.LookupAsWrittenPastEnd | src/AudioProcessors/Utils/interpolatedLookup.js:5-10 | on [0, 1] at value 1 the as-written lookup reads past the end, and the corrected one returns 1 |
| Lookup.LookupWithinSortedTable | src/AudioProcessors/Utils/interpolatedLookup.js:1-11 | on a non-decreasing table every lookup lies between the first and the last entry |
| Lookup.LookupMonotone | src/AudioProcessors/Utils/interpolatedLookup.js:1-11 | on a non-decreasing table a larger position never reads a smaller value |
| Lookup.SameCellMonotone | src/AudioProcessors/Utils/interpolatedLookup.js:8-10 | between two rising neighbouring entries the interpolation rises with the factor |
| NoteFrequency.OctavesUnique | src/AudioProcessors/Utils/convertNoteNumberToFrequency.js:31-38 | the number of 120-note folds is the unique k that brings the note into [0, 120) |
| NoteFrequency.Folded | src/AudioProcessors/Utils/convertNoteNumberToFrequency.js:31-38 | the folded note lies in [0, 120) |
| NoteFrequency.Fold | src/AudioProcessors/Utils/convertNoteNumberToFrequency.js:31-38 | the two loops end with the note folded into [0, 120) and the base frequency scaled by 1024 per octave block |
| NoteFrequency.ReadsInRange | src/AudioProcessors/Utils/convertNoteNumberToFrequency.js:41-48 | the integer index lies in [0, 119] and the cent offset in [0, 100), so both table reads are inside the tables and never hit the past-the-end case |
| NoteFrequency.ConvertNoteNumberToFrequency | src/AudioProcessors/Utils/convertNoteNumberToFrequency.js:27-51 | the procedure computes the folded-note frequency; with no cent offset it is base · 1024^blocks · noteTable[index] |
| NoteFrequency.OctaveBlockShift | src/AudioProcessors/Utils/convertNoteNumberToFrequency.js:31-38 | 120 notes up is 1024 times the frequency |
| NoteFrequency.NoteZeroIsBase | src/AudioProcessors/Utils/convertNoteNumberToFrequency.js:28 | with noteTable[0] = 1 note 0 gives the base frequency 8.175798915644 |
| FastTanh.FastTanh | src/AudioProcessors/Utils/fastTanh.js:1-8 | -1 below -3, 1 above 3, the rational in between; the result lies in [-1, 1] with the sign of the input |
| FastTanh.RationalOdd | src/AudioProcessors/Utils/fastTanh.js:7 | the rational branch is odd |
| FastTanh.RationalBounded | src/AudioProcessors/Utils/fastTanh.js:7 | on [-3, 3] the rational branch lies in [-1, 1] with the sign of the input |
| FastTanh.FastTanhOdd | src/AudioProcessors/Utils/fastTanh.js:1-8 | the saturator is odd |
| FastTanh.FastTanhContinuousAtSaturation | src/AudioProcessors/Utils/fastTanh.js:2-7 | the rational branch reaches exactly ±1 at ±3, so the saturator is continuous there |
| DcoCore.New | src/AudioProcessors/Sources/dcoCore.js:10-24 | the note ramp starts at the note and all depths, transpose and offset at 0, every ramp settled |
| DcoCore.CalcPhaseIncrement | src/AudioProcessors/Sources/dcoCore.js:32-40 | each of the six ramps is read exactly once; the increment times the sample rate is the frequency of note + transpose + lfo·depth + env·depth + bend·depth, plus the Hz offset |
| DcoCore.PerSample | src/AudioProcessors/Sources/dcoCore.js:39 | the phase increment times the sample rate is the frequency: cycles per sample |
| DcoCore.SettledIncrementIsSteady | src/AudioProcessors/Sources/dcoCore.js:32-40 | with every ramp settled the core is unchanged and the increment is the frequency of the current settings |
| DcoCore.PolyBlep | src/AudioProcessors/Sources/dcoCore.js:48-61 | no correction away from the edges; -height at phase 0; magnitude at most the height |
| DcoCore.ShapeAtEdges | src/AudioProcessors/Sources/dcoCore.js:49-58 | the correction is zero outside both windows and -h at the start of a cycle |
| DcoCore.CorrectionBounded | src/AudioProcessors/Sources/dcoCore.js:50-57 | for positive increment and phase in [0, 1] the correction's magnitude is at most the height's |
| DcoCore.ExpandedIsShape | src/AudioProcessors/Sources/dcoCore.js:50-57 | the expanded polynomials t + t - t² - 1 and t² + 2t + 1 are the squares -(1 - t)² and (t + 1)² |
| DcoCore.ShapeBounded | src/AudioProcessors/Sources/dcoCore.js:50-57 | the unit correction lies in [-1, 1] |
| DcoCore.PolyBlepLinear | src/AudioProcessors/Sources/dcoCore.js:53-57 | the correction is linear in its height |
| DcoCore.RightSideTakesPrecedence | src/AudioProcessors/Sources/dcoCore.js:50-54 | when both windows overlap the right-side polynomial is used |
| Juno60Dco.New | src/AudioProcessors/Instruments/Juno60/Juno60Dco.js:10-25 | phase 0.75, sub -1, threshold 0.5; levels 0.25, width 0.5, depths 0 |
| Juno60Dco.Clamp | src/AudioProcessors/Instruments/Juno60/Juno60Dco.js:71-75 | the threshold lies in [0.02, 0.98] and a value already there is unchanged |
| Juno60Dco.CalcPwmComparisonLevel | src/AudioProcessors/Instruments/Juno60/Juno60Dco.js:61-78 | the threshold is the clamped width + lfo·depth + env·depth; a depth ramp is read only when its input is nonzero; nothing else changes |
| Juno60Dco.EdgePhase | src/AudioProcessors/Instruments/Juno60/Juno60Dco.js:49-50 | phase minus threshold wrapped into [0, 1) |
| Juno60Dco.ShapeWaves | src/AudioProcessors/Instruments/Juno60/Juno60Dco.js:41-51 | saw is tanh(phase)·2.626 - 1 less the wrap correction; the sub is corrected with the pre-wrap sub as height; away from both edges the pulse is +1 exactly above the threshold |
| Juno60Dco.AdvancePhase | src/AudioProcessors/Instruments/Juno60/Juno60Dco.js:31-39 | the phase wraps by 1 only when it exceeds 1, and only then the sub flips and the threshold is recomputed; otherwise only the phase moves |
| Juno60Dco.Process | src/AudioProcessors/Instruments/Juno60/Juno60Dco.js:27-59 | the increment comes from the core, the wrap happens exactly when phase + increment exceeds 1, the waves are shaped at the new phase and mixed through the three level ramps, each read once |
| Juno60Dco.ConstantWithinCycle | src/AudioProcessors/Instruments/Juno60/Juno60Dco.js:33-39 | without a wrap the threshold and the sub are unchanged and the phase does not fall |
| Juno60Dco.ExactlyOneDoesNotWrap | src/AudioProcessors/Instruments/Juno60/Juno60Dco.js:34 | a phase reaching exactly 1 does not wrap |
| Juno60Dco.WrapLandsInWindow | src/AudioProcessors/Instruments/Juno60/Juno60Dco.js:33-38 | after a wrap the phase lies in [0, increment] and the sub has flipped |
| Juno60Dco.SubCorrectionAfterWrap | src/AudioProcessors/Instruments/Juno60/Juno60Dco.js:51 | just after a wrap the sub output is the new sub plus the old sub times (1 - t)², so 0 at phase 0 |
| Noise.New | src/AudioProcessors/Sources/noise.js:8-14 | the seed has bits 0 and 7 set, is below 2^15 and nonzero, and keeps the draw's other bits; the level ramp is settled at 0.25 |
| Noise.Step | src/AudioProcessors/Sources/noise.js:18-30 | the shift moves bits 1-15 down one place and puts the feedback bit (bits 0, 2, 3, 10 exclusive-ored) in bit 15 |
| Noise.UnstepStep | src/AudioProcessors/Sources/noise.js:18-30 | a step can be undone: unshifting recovers the previous register |
| Noise.StepUnstep | src/AudioProcessors/Sources/noise.js:18-30 | every register has a predecessor under the step |
| Noise.StepInjective | src/AudioProcessors/Sources/noise.js:18-30 | distinct registers step to distinct registers |
| Noise.NonzeroStaysNonzero | src/AudioProcessors/Sources/noise.js:18-30 | a register steps to zero exactly when it is zero |
| Noise.StepN | src/AudioProcessors/Sources/noise.js:16-36 | a nonzero register stays nonzero however many samples run |
| Noise.Value | src/AudioProcessors/Sources/noise.js:25-30 | the register read as an integer is below 65536, and zero only for the zero register |
| Noise.Sample | src/AudioProcessors/Sources/noise.js:33 | the raw output lies in [-1, 1) and is -1 only for the zero register |
| Noise.Scaled | src/AudioProcessors/Sources/noise.js:35 | a raw output scaled by a non-negative level stays within that level |
| Noise.Process | src/AudioProcessors/Sources/noise.js:16-36 | one sample: the register steps once, the level ramp is read once, and the output is the raw value of the new register times that level |
| Noise.OutputBounded | src/AudioProcessors/Sources/noise.js:33-35 | with a non-negative level heading to a non-negative target the output is within the larger of the two |
| Juno60Chorus.ModeFor | src/AudioProcessors/Instruments/Juno60/Juno60Chorus.js:43-58 | modes 1, 2 and 3 pick their presets and anything else is off |
| Juno60Chorus.New | src/AudioProcessors/Instruments/Juno60/Juno60Chorus.js:4-37 | the buffer has trunc(0.0054 · sampleRate) zeroed samples, writing starts at 0, the wet level is settled at 0, stereo, with no modulation |
| Juno60Chorus.NewIsValid | src/AudioProcessors/Instruments/Juno60/Juno60Chorus.js:9-12 | above 20 kHz the new chorus is valid and its read window fits the buffer |
| Juno60Chorus.Write | src/AudioProcessors/Instruments/Juno60/Juno60Chorus.js:155-160 | a write stores only at the write index and advances it by one modulo the length |
| Juno60Chorus.WriteAll | src/AudioProcessors/Instruments/Juno60/Juno60Chorus.js:155-160 | writing a sequence keeps the ring valid and its length |
| Juno60Chorus.History | src/AudioProcessors/Instruments/Juno60/Juno60Chorus.js:155-160 | after writing a sequence, the slot j + 1 behind the write index holds the j-th most recent input, for every j within the buffer |
| Juno60Chorus.Wrap | src/AudioProcessors/Instruments/Juno60/Juno60Chorus.js:181-183 | an index in [0, 2·length) is wrapped into [0, length) by at most one subtraction |
| Juno60Chorus.ReadSample | src/AudioProcessors/Instruments/Juno60/Juno60Chorus.js:180-185 | a read returns the stored sample at the wrapped index |
| Juno60Chorus.ReadInterpolated | src/AudioProcessors/Instruments/Juno60/Juno60Chorus.js:167-173 | the interpolated read lies between the two neighbouring samples and is the stored sample at an integral index |
| Juno60Chorus.ReadAheadIsDelayedInput | src/AudioProcessors/Instruments/Juno60/Juno60Chorus.js:155-185 | reading d slots ahead of the write index returns the input written length - 1 - d samples ago |
| Juno60Chorus.AheadIsBehind | src/AudioProcessors/Instruments/Juno60/Juno60Chorus.js:180-185 | d slots ahead of the write index is length - d slots behind it |
| Juno60Chorus.LfoStep | src/AudioProcessors/Instruments/Juno60/Juno60Chorus.js:130-149 | the offset moves one rate step in the new direction; the direction flips exactly when the step would pass the bound |
| Juno60Chorus.LfoStaysWithin | src/AudioProcessors/Instruments/Juno60/Juno60Chorus.js:130-149 | with rate at most the bound, the offset stays within any limit that holds it and the bound |
| Juno60Chorus.ApplyMode | src/AudioProcessors/Instruments/Juno60/Juno60Chorus.js:82-88 | the callback sets mono, the maximum offset (depth · sampleRate) and the rate 4 · depth · sweep, then ramps the wet level to the preset; nothing else changes |
| Juno60Chorus.ApplyModeKeepsLfoBounds | src/AudioProcessors/Instruments/Juno60/Juno60Chorus.js:84-85 | a preset's rate lies within its maximum offset, which lies within the buffer's modulation depth |
| Juno60Chorus.PresetsFit | src/AudioProcessors/Instruments/Juno60/Juno60Chorus.js:61-70 | every preset fits a valid chorus |
| Juno60Chorus.SetMode | src/AudioProcessors/Instruments/Juno60/Juno60Chorus.js:43-90 | setMode only asks the wet ramp to fall to 0 with the preset as its completion callback |
| Juno60Chorus.TickWet | src/AudioProcessors/Instruments/Juno60/Juno60Chorus.js:81-89 | reading the wet level leaves ring and modulation as they were; when the ramp to 0 lands, the preset is installed and the ramp up is sized from the value before landing |
| Juno60Chorus.InstalledModeValid | src/AudioProcessors/Instruments/Juno60/Juno60Chorus.js:82-89 | installing a fitting preset keeps the chorus valid |
| Juno60Chorus.ModeStepWithinDepth | src/AudioProcessors/Instruments/Juno60/Juno60Chorus.js:84-85 | the step and bound a fitting preset installs keep the step within the bound and the bound within the buffer's modulation depth |
| Juno60Chorus.RampUpSizedFromValueBeforeLanding | src/AudioProcessors/Instruments/Juno60/Juno60Chorus.js:81-89 | on the landing read the output is 0 and the ramp up starts at 0 but its step is computed from the value before landing |
| Juno60Chorus.MixWet | src/AudioProcessors/Instruments/Juno60/Juno60Chorus.js:121-123 | for a wet factor in [0, 1] the output lies between dry and wet, dry at 0 and wet at 1 |
| Juno60Chorus.ProcessWet | src/AudioProcessors/Instruments/Juno60/Juno60Chorus.js:109-123 | the modulation steps once; left reads behind the centre by the offset, right ahead of it (or equals left in mono); each is mixed with the dry input; both taps lie inside the buffer |
| Juno60Chorus.StepKeepsValid | src/AudioProcessors/Instruments/Juno60/Juno60Chorus.js:109-114 | one modulation step, with any outputs, keeps the chorus valid and its read window inside the buffer |
| Juno60Chorus.Process | src/AudioProcessors/Instruments/Juno60/Juno60Chorus.js:96-124 | the input is written first; a zero wet level outputs the dry input on both sides without moving the modulation; otherwise the wet path runs |
| Juno60Chorus.TapsFit | src/AudioProcessors/Instruments/Juno60/Juno60Chorus.js:9-12 | for a valid chorus both read positions and their successors lie in [0, 2·length) |
| Juno60Chorus.TapFits | src/AudioProcessors/Instruments/Juno60/Juno60Chorus.js:112-114 | a tap at most the deepest sweep from the read centre is non-negative and its successor lies below twice the length |
| Juno60Chorus.SilentWetIsDry | src/AudioProcessors/Instruments/Juno60/Juno60Chorus.js:101-106 | when the wet level reads 0 both outputs are the input and the modulation does not move |
| Juno60Chorus.OutputsBetweenDryAndWet | src/AudioProcessors/Instruments/Juno60/Juno60Chorus.js:112-123 | with wet factor in [0, 1] each output lies between the dry input and its tap |
| Juno60Chorus.SetModeNeverLeavesOffAsWritten | src/AudioProcessors/Instruments/Juno60/Juno60Chorus.js:79-90 | from a dry chorus (wet settled at 0) setMode changes nothing, and processing stays dry |
| Juno60Chorus.NewIsDry | src/AudioProcessors/Instruments/Juno60/Juno60Chorus.js:15 | a new chorus is dry |
| Juno60Chorus.SetModeCorrected | src/AudioProcessors/Instruments/Juno60/Juno60Chorus.js:79-90 | the corrected setMode keeps the chorus valid and either installs the preset's mono flag, sweep depth and rate and targets its wet level at once, or leaves everything else alone and ramps the wet level to 0 with the preset as the completion callback |
| Juno60Chorus.CorrectedLeavesOff | src/AudioProcessors/Instruments/Juno60/Juno60Chorus.js:61-70 | from a new chorus the corrected setMode installs modes 1-3 at once, with mono exactly for mode 3 and wet level 0.5 |
| BaseVoice.New | src/AudioProcessors/Instruments/BaseVoiceImplementation.js:12-44 | a new voice holds note -1, both velocities 64, the patch and the envelopes |
| BaseVoice.TriggerAll | src/AudioProcessors/Instruments/BaseVoiceImplementation.js:84-86 | every envelope is triggered |
| BaseVoice.ReleaseAll | src/AudioProcessors/Instruments/BaseVoiceImplementation.js:100-102 | every envelope is released |
| BaseVoice.Update | src/AudioProcessors/Instruments/BaseVoiceImplementation.js:118-120 | the base update only stores the patch |
| BaseVoice.NoteOn | src/AudioProcessors/Instruments/BaseVoiceImplementation.js:75-87 | note and attack velocity are recorded, release velocity reset to 64, every envelope triggered; the voice is active, neither released nor shutting down |
| BaseVoice.NoteOff | src/AudioProcessors/Instruments/BaseVoiceImplementation.js:93-103 | the release velocity is recorded, the note kept, every envelope released; activity is unchanged and an active voice is not shutting down |
| BaseVoice.Shutdown | src/AudioProcessors/Instruments/BaseVoiceImplementation.js:108-110 | only the first envelope is shut down; an active voice is then shutting down |
| BaseVoice.NoteOnThenOff | src/AudioProcessors/Instruments/BaseVoiceImplementation.js:75-103 | a note on followed by a note off leaves the voice active and released with both velocities recorded |
| BaseVoice.IdleVoiceIgnoresReleaseAndShutdown | src/AudioProcessors/Instruments/BaseVoiceImplementation.js:93-110 | on an idle voice note off leaves the envelopes and shutdown leaves the voice unchanged |
| BaseVoice.RetriggerRestartsEveryEnvelope | src/AudioProcessors/Instruments/BaseVoiceImplementation.js:84-86 | after a note on every envelope is at phase 0 with its value kept |
| Juno60Voice.WithEnvelopes | src/AudioProcessors/Instruments/Juno60/Juno60VoiceImplementation.js:20-24 | the voice's first envelope is the VCA envelope and its second the modulation envelope |
| Juno60Voice.BaseValid | src/AudioProcessors/Instruments/Juno60/Juno60VoiceImplementation.js:24 | a Juno-60 voice is a valid base voice |
| Juno60Voice.MixFactor | src/AudioProcessors/Instruments/Juno60/Juno60VoiceImplementation.js:94-99 | the mix factor is at most 2 and equals 2 exactly when the summed level is at most 0.3 |
| Juno60Voice.MixFactorNonIncreasing | src/AudioProcessors/Instruments/Juno60/Juno60VoiceImplementation.js:94-99 | more summed level never raises the mix factor |
| Juno60Voice.MixFactorLipschitz | src/AudioProcessors/Instruments/Juno60/Juno60VoiceImplementation.js:94-99 | the mix factor changes by at most 1.5 times the change in summed level, so it is continuous at 0.3 |
| Juno60Voice.MixedLevelsBounded | src/AudioProcessors/Instruments/Juno60/Juno60VoiceImplementation.js:88-104 | for amounts in [0, 1] every mixed level is non-negative and their sum is at most 1.0002125 |
| Juno60Voice.ScaleNonNegative | src/AudioProcessors/Instruments/Juno60/Juno60VoiceImplementation.js:101-104 | scaling non-negative levels by a non-negative factor keeps them non-negative and scales their sum |
| Juno60Voice.MixedTotalBound | src/AudioProcessors/Instruments/Juno60/Juno60VoiceImplementation.js:94-99 | for a summed level in [0, 0.805] the mixed sum is at most 1.0002125 |
| Juno60Voice.AttackDurationRange | src/AudioProcessors/Instruments/Juno60/Juno60VoiceImplementation.js:107 | the attack duration lies in [0.001, 3.251] s, 0.001 at slider 0 and 3.251 at slider 1 |
| Juno60Voice.DecayDurationRange | src/AudioProcessors/Instruments/Juno60/Juno60VoiceImplementation.js:108-110 | decay and release durations lie in [0.002, 19.782] s, at the ends for sliders 0 and 1 |
| Juno60Voice.ChangeDuration | src/AudioProcessors/Instruments/Juno60/Juno60VoiceImplementation.js:75 | changes take 128 samples while the VCA envelope is active and are immediate otherwise |
| Juno60Voice.Reshape | src/AudioProcessors/Instruments/Juno60/Juno60VoiceImplementation.js:106-120 | both envelopes keep their layout and values; in gate mode a held VCA note restarts its attack, otherwise the VCA phase is kept; the modulation envelope's phase is kept |
| Juno60Voice.Update | src/AudioProcessors/Instruments/Juno60/Juno60VoiceImplementation.js:72-121 | the patch is stored; pitch, width and level ramps head for the note, 0.49 · pwm and the mixed levels; oscillator phase, sub, threshold, noise register and activity are untouched |
| Juno60Voice.GlideFromRest | src/AudioProcessors/smoothMoves.js:35-40 | a resting ramp retargeted with zero duration, or never read, is at the new value at once |
| Juno60Voice.IdleUpdateIsImmediate | src/AudioProcessors/Instruments/Juno60/Juno60VoiceImplementation.js:75-104 | on a voice at rest whose VCA is idle (or whose ramps were never read) every patch-driven ramp lands on its new value at once |
| Juno60Voice.ActiveRetuneGlides128Samples | src/AudioProcessors/Instruments/Juno60/Juno60VoiceImplementation.js:75-77 | on an active voice a settled, started note ramp reaches a new note after exactly 128 samples and not before |
| Juno60Voice.Sound | src/AudioProcessors/Instruments/Juno60/Juno60VoiceImplementation.js:39-46 | the modulation envelope steps, the DCO and the noise run once each, and the output is their sum times the VCA value |
| Juno60Voice.Process | src/AudioProcessors/Instruments/Juno60/Juno60VoiceImplementation.js:33-47 | the VCA envelope always steps; if it is then inactive the output is 0 and nothing else moves; otherwise the voice sounds |
| Juno60Voice.IdleVoiceStandsStill | src/AudioProcessors/Instruments/Juno60/Juno60VoiceImplementation.js:34-37 | an idle voice outputs 0 and is unchanged |
| Juno60Voice.ClosedVcaIsSilent | src/AudioProcessors/Instruments/Juno60/Juno60VoiceImplementation.js:34-46 | a VCA value of 0 silences the voice |
| Juno60Voice.New | src/AudioProcessors/Instruments/Juno60/Juno60VoiceImplementation.js:16-25 | a new voice is idle with note -1 and velocities 64, and its ramps already stand at the patch's values |
| Juno60Voice.NoteOn | src/AudioProcessors/Instruments/BaseVoiceImplementation.js:75-87 | the voice records the note, re-applies its patch so the note ramp targets the new note, and triggers both envelopes |
| Juno60Voice.NoteOff | src/AudioProcessors/Instruments/BaseVoiceImplementation.js:93-103 | the voice records the release velocity and an active voice's VCA envelope is released, not shutting down |
| Juno60Voice.Shutdown | src/AudioProcessors/Instruments/BaseVoiceImplementation.js:108-110 | only the VCA envelope is shut down |
| Juno60Voice.NoteEventsAgreeWithBase | src/AudioProcessors/Instruments/BaseVoiceImplementation.js:75-103 | the Juno-60 note events keep the same note, velocities, patch and envelope status as the base voice's |
| Juno60Voice.GateIgnoresSliders | src/AudioProcessors/Instruments/Juno60/Juno60VoiceImplementation.js:111-115 | in gate mode the VCA envelope does not depend on the envelope sliders |
| Juno60Voice.GateRetriggersHeldNote | src/AudioProcessors/Instruments/Juno60/Juno60VoiceImplementation.js:111-118 | an update sets the VCA phase to 0 for an active, unreleased VCA envelope in gate mode, and otherwise leaves the phase as it was |
| BaseInstrument.New | src/AudioProcessors/Instruments/BaseInstrumentImplementation.js:14-36 | no voices, no waiting notes, the patch stored and the bend ramp settled at 0 |
| BaseInstrument.FirstHolding | src/AudioProcessors/Instruments/BaseInstrumentImplementation.js:45-51 | finds the first voice holding the note, or reports that none does |
| BaseInstrument.HandleNoteOn | src/AudioProcessors/Instruments/BaseInstrumentImplementation.js:44-55 | the first voice holding the note (same note, active, not shutting down) is retriggered and nothing is queued; if none holds it the note is appended to the waiting queue |
| BaseInstrument.FindWaiting | src/AudioProcessors/Instruments/BaseInstrumentImplementation.js:65-70 | finds the first waiting entry with the note, or reports that none has it |
| BaseInstrument.RemoveFirstSpec | src/AudioProcessors/Instruments/BaseInstrumentImplementation.js:65-70 | removal drops exactly the first waiting entry with the note and keeps the rest in order |
| BaseInstrument.RemoveFirstLoop | src/AudioProcessors/Instruments/BaseInstrumentImplementation.js:65-70 | the splice loop computes that removal |
| BaseInstrument.FindWaitingAt | src/AudioProcessors/Instruments/BaseInstrumentImplementation.js:65-70 | the first position holding the note is the one found |
| BaseInstrument.ReleaseHolding | src/AudioProcessors/Instruments/BaseInstrumentImplementation.js:58-62 | every voice holding the note is released and every other voice kept |
| BaseInstrument.HandleNoteOff | src/AudioProcessors/Instruments/BaseInstrumentImplementation.js:56-71 | every voice holding the note is released, others are untouched, and the first waiting entry with the note is removed |
| BaseInstrument.HandleShutdownAll | src/AudioProcessors/Instruments/BaseInstrumentImplementation.js:72-76 | every voice is shut down and afterwards every voice is available |
| BaseInstrument.HandlePitchBend | src/AudioProcessors/Instruments/BaseInstrumentImplementation.js:77-79 | only the bend ramp changes: it targets the value and a running ramp gets there in 128 samples |
| BaseInstrument.GlideSteps | src/AudioProcessors/Instruments/BaseInstrumentImplementation.js:78 | a started bend ramp retargeted over 128 samples takes steps of one 128th of the distance |
| BaseInstrument.Handle | src/AudioProcessors/Instruments/BaseInstrumentImplementation.js:88-93 | handling keeps the instrument valid, its voice count and patch; an unknown message changes nothing |
| BaseInstrument.HandleAll | src/AudioProcessors/Instruments/BaseInstrumentImplementation.js:88-93 | handling a queue keeps the instrument valid, its voice count and patch |
| BaseInstrument.HandleAllAppend | src/AudioProcessors/Instruments/BaseInstrumentImplementation.js:88-93 | messages are handled in queue order: two queues in a row are one queue |
| BaseInstrument.UnknownMessagesIgnored | src/AudioProcessors/Instruments/BaseInstrumentImplementation.js:89-92 | a queue of unknown messages changes nothing |
| BaseInstrument.CountAvailable | src/AudioProcessors/Instruments/BaseInstrumentImplementation.js:96-101 | the number of available voices is at most the number of voices |
| BaseInstrument.CountAvailableLoop | src/AudioProcessors/Instruments/BaseInstrumentImplementation.js:96-101 | the counting loop counts the inactive or shutting-down voices |
| BaseInstrument.ProcessMessages | src/AudioProcessors/Instruments/BaseInstrumentImplementation.js:87-111 | the messages are handled in order and allocation is requested exactly when notes wait and fewer voices are available than notes wait |
| BaseInstrument.UpdatePatch | src/AudioProcessors/Instruments/BaseInstrumentImplementation.js:118-123 | the patch is stored and forwarded to every voice; queue and bend untouched |
| BaseInstrument.NoteOffCancelsQueuedNoteOn | src/AudioProcessors/Instruments/BaseInstrumentImplementation.js:44-70 | a note on for an unheld, unqueued note followed by its note off leaves voices and queue as they were |
| BaseInstrument.HeldNoteIsNotQueued | src/AudioProcessors/Instruments/BaseInstrumentImplementation.js:45-51 | a note already held is retriggered in place and never queued |
| BaseInstrument.ShutdownAllFreesEveryVoice | src/AudioProcessors/Instruments/BaseInstrumentImplementation.js:72-110 | after shutdownAll allocation is needed exactly when more notes wait than there are voices |
| BaseInstrument.AllAvailableCount | src/AudioProcessors/Instruments/BaseInstrumentImplementation.js:96-101 | when every voice is available the count is the number of voices |
| InstrumentNode.New | src/AudioNodes/BaseInstrumentNode.js:20 | a new node has the pedal up and has posted nothing |
| InstrumentNode.Or64 | src/AudioNodes/BaseInstrumentNode.js:70 | velocity OR 64 has bit 6 set; it is the velocity itself when bit 6 was already set, and otherwise the velocity or 64 more |
| InstrumentNode.Or64Range | src/AudioNodes/BaseInstrumentNode.js:70 | a MIDI velocity 1-127 becomes one in 64-127 |
| InstrumentNode.Ascending | src/AudioNodes/BaseInstrumentNode.js:123 | the keys of the sustain map in increasing order, each exactly once |
| InstrumentNode.FilterMembers | src/AudioNodes/BaseInstrumentNode.js:123-127 | the drained notes are exactly the keys recorded as 1 |
| InstrumentNode.IncreasingUnique | src/AudioNodes/BaseInstrumentNode.js:123 | two increasing lists with the same members are equal |
| InstrumentNode.Releases | src/AudioNodes/BaseInstrumentNode.js:125 | one note-off post with velocity 64 per note, in order |
| InstrumentNode.NoteOff | src/AudioNodes/BaseInstrumentNode.js:85-93 | pedal up: the note off is posted at once; pedal down: nothing is posted and the note is recorded as 1 |
| InstrumentNode.NoteOnAsWritten | src/AudioNodes/BaseInstrumentNode.js:67-78 | velocity 0 acts as note off; otherwise velocity OR 64 is posted, and the write into the sustain map fails exactly when the pedal is up |
| InstrumentNode.NoteOnAsWrittenFailsWithPedalUp | src/AudioNodes/BaseInstrumentNode.js:73 | on a new node (pedal up) every note on with a velocity fails |
| InstrumentNode.NoteOn | src/AudioNodes/BaseInstrumentNode.js:67-78 | velocity 0 acts as note off(64); otherwise velocity OR 64 is posted, the pedal state is kept, and while the pedal is down the note's record is set to 0 so its deferred release is cancelled |
| InstrumentNode.NoteOnAgreesWhenPedalDown | src/AudioNodes/BaseInstrumentNode.js:67-78 | whenever the as-written note on does not fail it agrees with the corrected one |
| InstrumentNode.PitchBend | src/AudioNodes/BaseInstrumentNode.js:99-101 | the bend is posted and the pedal state kept |
| InstrumentNode.PedalOn | src/AudioNodes/BaseInstrumentNode.js:106-111 | the pedal is down afterwards; an existing record is kept, otherwise it starts empty |
| InstrumentNode.DrainPosts | src/AudioNodes/BaseInstrumentNode.js:123-127 | draining posts one release per key recorded as 1, in the order of the keys |
| InstrumentNode.FilterIncreasing | src/AudioNodes/BaseInstrumentNode.js:123-127 | draining increasing keys releases notes in increasing order |
| InstrumentNode.FilterAscending | src/AudioNodes/BaseInstrumentNode.js:123-127 | the drained notes are the notes recorded as 1, in increasing order |
| InstrumentNode.PedalOff | src/AudioNodes/BaseInstrumentNode.js:116-128 | the pedal is up afterwards; with the pedal already up nothing changes, otherwise one note off(64) is posted per note recorded as 1, in increasing note order |
| InstrumentNode.DrainReleases | src/AudioNodes/BaseInstrumentNode.js:116-128 | with the pedal already up the drain posts exactly the recorded releases |
| InstrumentNode.PedalOnIdempotent | src/AudioNodes/BaseInstrumentNode.js:106-111 | pressing the pedal twice is pressing it once |
| InstrumentNode.RepeatedReleaseRecordedOnce | src/AudioNodes/BaseInstrumentNode.js:90-92 | under the pedal a second release of a note changes nothing |
| InstrumentNode.PedalDefersRelease | src/AudioNodes/BaseInstrumentNode.js:85-128 | a note released under the pedal is posted as note off(64) exactly once when the pedal goes up |
| InstrumentNode.RestruckNoteSurvivesPedal | src/AudioNodes/BaseInstrumentNode.js:73 | a note released and struck again under the pedal is not released when the pedal goes up |
| InstrumentNode.ShutdownAll | src/AudioNodes/BaseInstrumentNode.js:142-145 | shutdownAll is posted and the sustained notes are dropped without being released |
| InstrumentNode.ControlChange | src/AudioNodes/BaseInstrumentNode.js:130-137 | controller 64 is the pedal (down from 64), 123 is shutdownAll, any other controller is posted |
| InstrumentNode.Bend | src/AudioNodes/BaseInstrumentNode.js:31 | for 7-bit data bytes the bend lies in [-1, 1), 0 at lsb 0 and msb 64 |
| InstrumentNode.BendInjective | src/AudioNodes/BaseInstrumentNode.js:31 | distinct byte pairs give distinct bends |
| InstrumentNode.MessageType | src/AudioNodes/BaseInstrumentNode.js:162 | the message type is the status byte's high nibble |
| InstrumentNode.OnMidiMessage | src/AudioNodes/BaseInstrumentNode.js:160-171 | types 8, 9, 11 and 14 dispatch to note off, note on, control change and pitch bend; any other message is forwarded whole |
| InstrumentNode.ZeroVelocityNoteOnIsNoteOff | src/AudioNodes/BaseInstrumentNode.js:75-76 | a note-on message with velocity 0 acts exactly as a note-off message with velocity 64 |
| TriangleLfo.New | src/LFO/Processors/Lfo.js:3-9 | a new LFO is at 0, rising, with no rate, and its anchor rate is 1.2 / sampleRate |
| TriangleLfo.SetRate | src/LFO/Processors/Lfo.js:13-19 | only the rate changes, and it is positive whenever the curve and the anchor are |
| TriangleLfo.Process | src/LFO/Processors/Lfo.js:21-39 | each step changes the value by exactly the rate; it turns round, stepping back from the old value, exactly when it would pass ±1; a valid LFO stays valid |
| TriangleLfo.RunStaysInRange | src/LFO/Processors/Lfo.js:21-39 | with rate in [0, 1] the value stays in [-1, 1] however long it runs, and the rate is never touched |
| TriangleLfo.RisesInEqualSteps | src/LFO/Processors/Lfo.js:24-29 | from rest the value after k samples is k rate steps while that does not pass 1 |
| PhaseEnvelope.Number | src/LFO/Processors/Envelope.1.js:3-10 | the phase numbers are 0-5, off is 0 and sustain 3 |
| PhaseEnvelope.New | src/LFO/Processors/Envelope.1.js:12-24 | a new envelope is off at 0 with no rates; the anchors are 882 / sampleRate and 0.22 / sampleRate |
| PhaseEnvelope.SetAttackRate | src/LFO/Processors/Envelope.1.js:26-33 | only the attack factor changes; the setter fails, reporting that factor, exactly when it is not positive, which a positive anchor and curve exclude |
| PhaseEnvelope.DischargeFactor | src/LFO/Processors/Envelope.1.js:38 | the decay curve gives a positive factor whenever the anchor and the curve are positive |
| PhaseEnvelope.SetDecayRate | src/LFO/Processors/Envelope.1.js:35-42 | only the decay factor changes; the setter fails exactly when it is not positive |
| PhaseEnvelope.SetReleaseRateAsWritten | src/LFO/Processors/Envelope.1.js:44-51 | only the release factor changes; the setter fails exactly when it is not positive, but its message reports the decay factor |
| PhaseEnvelope.SetReleaseRate | src/LFO/Processors/Envelope.1.js:44-51 | as above, with the message reporting the release factor that failed |
| PhaseEnvelope.ReleaseMessageReportsDecayFactor | src/LFO/Processors/Envelope.1.js:49 | a concrete failing release setting whose message names the decay factor 0.5 instead of the failing 0 |
| PhaseEnvelope.DecayFrom | src/LFO/Processors/Envelope.1.js:65-73 | the decay either stays above sustain in decay or lands exactly on sustain in the sustain phase |
| PhaseEnvelope.Process | src/LFO/Processors/Envelope.1.js:53-86 | only phase and value change; off, sustain and shutdown hold; attack stays in attack exactly while its step stays below 1, and otherwise moves to decay or sustain; decay moves only to sustain; entering sustain lands on the sustain level; release either stays positive or ends in off at 0 |
| PhaseEnvelope.DecayFromBelowClamps | src/LFO/Processors/Envelope.1.js:65-72 | from below the sustain level the decay step is at most the sustain level, so it clamps |
| PhaseEnvelope.DecayFromAboveFalls | src/LFO/Processors/Envelope.1.js:66-68 | from at or above sustain each decay step falls by at least 0.024 · factor |
| PhaseEnvelope.ProcessKeepsRange | src/LFO/Processors/Envelope.1.js:53-86 | a step keeps the factors in (0, 1], the sustain level and the value in [0, 1], and a decaying value at or above the sustain level |
| PhaseEnvelope.AttackPeakIsSkipped | src/LFO/Processors/Envelope.1.js:60-73 | on the sample the attack step reaches 1 the envelope leaves the attack and returns at most the larger of the old value and the sustain level, so the peak is never output |
| PhaseEnvelope.RunHolds | src/LFO/Processors/Envelope.1.js:53-86 | in off, sustain and shutdown the envelope never changes |
| PhaseEnvelope.ReleaseEnds | src/LFO/Processors/Envelope.1.js:75-83 | release reaches off at 0 within n samples once n · 0.024 · factor exceeds the value |
| PhaseEnvelope.DecayEnds | src/LFO/Processors/Envelope.1.js:65-73 | decay reaches sustain within n samples once n · 0.024 · factor exceeds the distance to sustain |

## Left out

- The low-pass filters (`DiodeLadderFilter` and the others) are not part
  of this model. Their value is a frequency response, and the voice never
  imports the ladder it constructs.
- `Math.exp`, `Math.log`, `Math.tanh`, `Math.sin`, `Math.pow` and the table
  initialisers: floating-point transcendentals. They are parameters, so
  no property depends on their values beyond what a contract requires of
  them.
- Floating-point rounding. Every identity is proved over exact reals.
- `Math.random`: nondeterministic. It is an input.
- The AudioWorklet processors, port glue, MIDI device access and the
  unfinished Juno-60 synth render loop are not part of this model.
  - The host's voice-allocation callback is outside this model. Its call
    is modelled as the returned `allocate` flag (`ProcessMessages`).
  - Voice stealing is not implemented in the source.
- The instrument handles its voices as base voices. The Juno-60 voice's
  extra `update` work is modelled on its own, in `Juno60Voice.Update`.
- The node's `changePatch` and `updateParameter` only post messages that
  the instrument has no handler for.
- `pwmSource` (`patch.dco.pwmMod`), `patch.vca`, `patch.name` and the voice
  index are stored but never read by the modelled code.
- Juno60Dco.Process: modelled for phase increments in [0, 1], that is,
  frequencies up to the sample rate. At higher frequencies one subtraction
  of 1 no longer wraps the phase.
- Juno60Chorus.Process: requires a read window that fits the buffer
  (`ReadWindowFits`). For a new chorus this is proved above 20 kHz
  (`NewIsValid`). Below that, the source reads outside the buffer.
- Juno60Chorus.ReadSample: modelled for indices in [0, 2 · length). The
  source wraps with one subtraction only.
- InstrumentNode.Or64: bit 6 is set on the mathematical integer. The
  source's 32-bit conversion (ToInt32) is not modelled, which matters only
  for velocities outside the 32-bit range.
- InstrumentNode.PedalOff: releases drain in increasing note order. That is
  JavaScript's order for integer-like keys; other key kinds are not
  modelled.
- PhaseEnvelope.Process: no lemma proves that the attack terminates. Decay
  and release are proved to end (`DecayEnds`, `ReleaseEnds`).
- TriangleLfo.RisesInEqualSteps: the climb is stated as k repeated
  additions of the rate (`Steps`), not as the product k · rate. The two
  are equal (`Numeric.StepsIsProduct`).
- Juno60Envelope.New: NaN is not a real. The model keeps the source's
  offset -0.02 but takes every coefficient from the time-constant
  parameter (`Segments.TimeConstant`), which yields a real. As written,
  `Math.log(-49)` makes the decay and release coefficients NaN, so every
  envelope value after the attack is NaN; the model's contracts hold for
  real coefficients only.
- Juno60Lfo.Shutdown: as written the call throws, because the constructor's
  `shutdown` segment field hides the envelope's `shutdown` method. The
  model gives the intended move to the shutdown segment instead, and does
  not model the TypeError.
- Numeric.Trunc: models `x | 0` as truncation without ToInt32's 32-bit
  wrap. It is used for the delay count, the chorus buffer size and the
  lookup and note indices, all far inside the 32-bit range.
- The superseded drafts (`src/DCO/*`, `src/LFO/Processors/JunoChorus.js`)
  and the offline `src/LFO/Approximation.js` are not part of this model.

## Findings

| source | as written | input that shows it | evidently intended | confidence | as-written member | corrected member |
|---|---|---|---|---|---|---|
| src/AudioProcessors/Components/BaseEnvelope.js:35 | `isReleased` reads `currentPhase`, which is undefined, so it always holds | any triggered envelope at phase 0: it reads as released, so a gate-mode update never retriggers a held note | read `_currentPhase`: released means neither attack (0) nor decay (1) | high; not executed | Envelopes.IsReleasedAsWritten, Envelopes.StatusAsWrittenDisagrees | Envelopes.IsReleased, Envelopes.Trigger, Envelopes.Release |
| src/AudioProcessors/Components/BaseEnvelope.js:40 | `isShuttingDown` reads the same undefined property, so it never holds | a shut-down envelope at its last phase: not reported as shutting down, so its voice never counts as available | read `_currentPhase`: shutting down means the last phase | high; not executed | Envelopes.IsShuttingDownAsWritten, Envelopes.StatusAsWrittenDisagrees | Envelopes.IsShuttingDown, Envelopes.Shutdown |
| src/AudioProcessors/Components/DecaySegment.js:34 | the sustain clamp tests the unassigned `this.value`, so it never fires | sustaining decay with target 0.5, tco 0.1, coefficient 0.5, previous value 0.5: the candidate 0.45 completes the segment and the envelope falls out of sustain | clamp the computed result at the target | high; not executed | Segments.DecayValueAsWritten, Segments.DecaySustainClampAsWritten | Segments.Process, Juno60Envelope.DecayHoldsAtSustain |
| src/AudioProcessors/Utils/interpolatedLookup.js:5-10 | at value exactly length - 1 the guard lets the value through and `table[index + 1]` reads past the end | table [0, 1] at value 1 | return the last entry from length - 1 on | high; not executed | Lookup.LookupAsWritten, Lookup.LookupAsWrittenPastEnd | Lookup.Lookup, Lookup.LookupWithinSortedTable |
| src/AudioProcessors/Instruments/Juno60/Juno60Lfo.js:143 | the rate slider at its maximum reads the curve at its last index, the past-the-end case | rateSlider = 1.0 | frequency 22.22 Hz | high; not executed | Juno60Lfo.RateSliderAtMaximumAsWritten | Juno60Lfo.SliderRate |
| src/AudioProcessors/Instruments/Juno60/Juno60Envelope.js:17-18 | decay and release use time-constant offset -0.02: the coefficient's logarithm gets the negative argument -49, which is NaN in JavaScript; and even for any real coefficient in (0, 1) the release settles 0.02 above 0 and never completes | a released envelope at any value ≥ 0 | offset +0.02, whose release completes | medium; not executed | Juno60Envelope.ReleaseNeverCompletesAsWritten | Juno60Envelope.NewCorrected, Juno60Envelope.ReleaseCompletesCorrected |
| src/AudioProcessors/Instruments/Juno60/Juno60Chorus.js:81 | the mode change ramps the wet level to 0 and installs the mode in the ramp's callback; from the initial wet level 0 the ramp is a no-op, so the callback never runs | a new chorus, then setMode(1) | install the mode at once when the wet level already rests at 0 | high; not executed | Juno60Chorus.SetModeNeverLeavesOffAsWritten | Juno60Chorus.SetModeCorrected, Juno60Chorus.CorrectedLeavesOff |
| src/AudioNodes/BaseInstrumentNode.js:73 | note on writes into the sustain map even when it is null (pedal up) | a new node, then noteOn(60, 100) | clear the note's record only while the pedal is down | high; not executed | InstrumentNode.NoteOnAsWritten, InstrumentNode.NoteOnAsWrittenFailsWithPedalUp | InstrumentNode.NoteOn, InstrumentNode.RestruckNoteSurvivesPedal |
| src/AudioProcessors/Instruments/Juno60/Juno60Lfo.js:56 | retrigger calls an envelope method that does not exist; the envelope's `trigger` only resets the phase and never restarts the delay countdown | a contour whose delay has elapsed, retriggered: the next sample is already in the attack | restart the delay on every trigger (reset the segments) | medium; not executed | Juno60Lfo.TriggerSkipsElapsedDelay | Juno60Lfo.DoTrigger, Juno60Lfo.DoTriggerRestartsDelay |
| src/LFO/Processors/Envelope.1.js:49 | the release-rate error message reports the decay factor | decay factor 0.5 and a curve giving 0 at slider 10 | report the release factor | high; not executed | PhaseEnvelope.SetReleaseRateAsWritten, PhaseEnvelope.ReleaseMessageReportsDecayFactor | PhaseEnvelope.SetReleaseRate |
