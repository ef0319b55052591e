/** How the Juno-60's two LFO sliders act on the LFO: each setting is read
    off its curve, and moving the rate slider up never slows the LFO, nor
    moving the delay slider up shortens its delay. */
module Juno60LfoSliders {
  import opened Numeric
  import opened Juno60Lfo
  import Segments

  /** The rate slider sets the phase increment to the rate curve's
      frequency per sample, so the LFO cycles between 0.3 and 22.22 times a
      second. */
  lemma RateSliderSetsIncrement(l: Lfo, rateSlider: real, delaySlider: real, tc: Segments.TimeConstant)
    requires Valid(l)
    ensures var r := SetValuesFromSliders(l, rateSlider, delaySlider, tc);
      && r.increment == SliderRate(rateSlider) / l.sampleRate as real
      && 0.3 / l.sampleRate as real <= r.increment <= 22.22 / l.sampleRate as real
  {
    var r := SetValuesFromSliders(l, rateSlider, delaySlider, tc);
    CyclesPerSecond(l.sampleRate as real, r.increment, SliderRate(rateSlider));
  }

  /** Dividing by the sample rate keeps the rate curve's bounds. */
  lemma CyclesPerSecond(sr: real, increment: real, f: real)
    requires sr > 0.0 && increment == f / sr && 0.3 <= f <= 22.22
    ensures 0.3 / sr <= increment <= 22.22 / sr
  {
    DivMono(0.3, f, sr);
    DivMono(f, 22.22, sr);
  }

  /** The delay slider re-times the delay segment to the delay curve's
      reading, and the attack segment to the attack curve's. */
  lemma DelaySliderSetsDelay(l: Lfo, rateSlider: real, delaySlider: real, tc: Segments.TimeConstant)
    requires Valid(l)
    ensures var r := SetValuesFromSliders(l, rateSlider, delaySlider, tc);
      && r.env.segments[DelayIndex] == Segments.SetDuration(l.env.segments[DelayIndex], SliderDelay(delaySlider), tc)
      && r.env.segments[AttackIndex] == Segments.SetDuration(l.env.segments[AttackIndex], SliderAttack(delaySlider), tc)
  {
  }

  /** Whatever the delay slider says, the delay lasts between none and
      2.685 s worth of samples. */
  lemma DelaySliderCountWithin(l: Lfo, rateSlider: real, delaySlider: real, tc: Segments.TimeConstant)
    requires Valid(l)
    ensures var n := SetValuesFromSliders(l, rateSlider, delaySlider, tc).env.segments[DelayIndex].count;
      0 <= n && n as real <= l.sampleRate as real * 2.685
  {
    DelayCountWithin(l, SetValuesFromSliders(l, rateSlider, delaySlider, tc),
                     SliderRate(rateSlider), SliderDelay(delaySlider), SliderAttack(delaySlider), tc);
  }

  /** Moving the rate slider up never slows the LFO down. */
  lemma RateSliderMonotone(l: Lfo, low: real, high: real, delaySlider: real, tc: Segments.TimeConstant)
    requires Valid(l) && low <= high
    ensures SetValuesFromSliders(l, low, delaySlider, tc).increment
         <= SetValuesFromSliders(l, high, delaySlider, tc).increment
  {
    SliderRateMonotone(low, high);
    IncrementMonotone(l, SliderRate(low), SliderRate(high), SliderDelay(delaySlider), SliderAttack(delaySlider), tc);
  }

  /** Moving the delay slider up never shortens the delay before the LFO
      fades in. */
  lemma DelaySliderMonotone(l: Lfo, rateSlider: real, low: real, high: real, tc: Segments.TimeConstant)
    requires Valid(l) && low <= high
    ensures SetValuesFromSliders(l, rateSlider, low, tc).env.segments[DelayIndex].count
         <= SetValuesFromSliders(l, rateSlider, high, tc).env.segments[DelayIndex].count
  {
    SliderDelayMonotone(low, high);
    DelayCountMonotone(l, SliderRate(rateSlider), SliderDelay(low), SliderDelay(high),
                       SliderAttack(low), SliderAttack(high), tc);
  }
}
