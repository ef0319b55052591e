/** The pseudo-random (PN sequence) noise source: a 16-bit shift register
    whose new top bit is the exclusive-or of bits 0, 2, 3 and 10, read as a
    sample in [-1, 1) and scaled by a level ramp. */
module Noise {
  import opened Numeric
  import SmoothMoves

  type Ramp = SmoothMoves.Param<()>

  /** The register's top bit value, 2^15. */
  const B15: nat := 32768

  datatype Noise = Noise(bits: bv16, level: Ramp)

  /** The constructor: `draw` stands for the truncated Math.random() * 2^15,
      so it lies in [0, 2^15); bits 0 and 7 are forced on. */
  function New(sampleRate: PosReal, draw: bv16): (n: Noise)
    requires draw < 0x8000
    ensures n.bits != 0 && n.bits & 129 == 129 && n.bits < 0x8000
    ensures n.bits & !129 == draw & !129
    ensures n.level.current == 0.25 && SmoothMoves.Settled(n.level)
  {
    var bits := 129 | draw;
    Noise(bits, SmoothMoves.New(0.25, sampleRate))
  }

  /** The feedback bit: bits 0, 2, 3 and 10 exclusive-ored. */
  function Feedback(b: bv16): bv16 {
    (b ^ (b >> 2) ^ (b >> 3) ^ (b >> 10)) & 1
  }

  /** One shift: every bit moves one place down, bit 0 falls off and the
      feedback becomes bit 15. */
  function Step(b: bv16): (r: bv16)
    ensures r >> 15 == Feedback(b)
    ensures r & 0x7FFF == b >> 1
  {
    (b >> 1) | (Feedback(b) << 15)
  }

  /** The inverse shift: the dropped bit 0 is recovered from the feedback
      (now bit 15) and the bits that fed it (now bits 1, 2 and 9). */
  function Unstep(s: bv16): bv16 {
    var b0 := ((s >> 15) ^ (s >> 1) ^ (s >> 2) ^ (s >> 9)) & 1;
    (s << 1) | b0
  }

  lemma UnstepStep(b: bv16)
    ensures Unstep(Step(b)) == b
  {
  }

  lemma StepUnstep(s: bv16)
    ensures Step(Unstep(s)) == s
  {
  }

  /** The shift is a permutation of the 2^16 register states. */
  lemma StepInjective(a: bv16, b: bv16)
    ensures Step(a) == Step(b) <==> a == b
  {
    UnstepStep(a);
    UnstepStep(b);
  }

  /** Zero is the register's only fixed point of the all-zero kind: a nonzero
      register never becomes zero, so the source never falls silent. */
  lemma NonzeroStaysNonzero(b: bv16)
    ensures Step(b) == 0 <==> b == 0
  {
    StepInjective(b, 0);
  }

  /** `k` shifts. */
  function StepN(b: bv16, k: nat): (r: bv16)
    ensures b != 0 ==> r != 0
    decreases k
  {
    if k == 0 then b
    else
      NonzeroStaysNonzero(b);
      StepN(Step(b), k - 1)
  }

  /** The register as an unsigned integer. */
  function Value(b: bv16): (v: nat)
    ensures v < 2 * B15
    ensures v == 0 <==> b == 0
  {
    b as nat
  }

  /** The register read as a sample: its value / 2^15 - 1. */
  function Sample(b: bv16): (x: real)
    ensures -1.0 <= x < 1.0
    ensures x == -1.0 <==> b == 0
  {
    Value(b) as real / B15 as real - 1.0
  }

  /** A sample in [-1, 1] scaled by a level: within [-level, level] for a
      non-negative level. */
  function Scaled(x: real, level: real): (y: real)
    requires -1.0 <= x <= 1.0
    ensures level >= 0.0 ==> -level <= y <= level
    ensures x == -1.0 ==> y == -level
  {
    if level >= 0.0 then
      ScaleWithin(x, level);
      x * level
    else x * level
  }

  datatype NoiseStep = NoiseStep(output: real, noise: Noise)

  /** process: shift once, read the sample and scale it by the level ramp,
      advanced once. A nonzero register stays nonzero. */
  function Process(n: Noise): (s: NoiseStep)
    ensures s.noise.bits == Step(n.bits) && s.noise.level == SmoothMoves.Next(n.level).param
    ensures s.output == Scaled(Sample(Step(n.bits)), SmoothMoves.Next(n.level).value)
    ensures n.bits != 0 ==> s.noise.bits != 0
  {
    var bits := Step(n.bits);
    var level := SmoothMoves.Next(n.level);
    NonzeroStaysNonzero(n.bits);
    NoiseStep(Scaled(Sample(bits), level.value), Noise(bits, level.param))
  }

  /** With the level ramp heading between two non-negative values the output
      stays within the larger of them. */
  lemma OutputBounded(n: Noise)
    requires SmoothMoves.Heading(n.level) && n.level.current >= 0.0 && n.level.target >= 0.0
    ensures var m := if n.level.current >= n.level.target then n.level.current else n.level.target;
      -m <= Process(n).output <= m
  {
  }
}
