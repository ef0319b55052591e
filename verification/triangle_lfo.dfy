/** The earlier stand-alone triangle LFO: a value that climbs by a fixed rate
    per sample and bounces off +1 and -1. */
module TriangleLfo {
  import opened Numeric

  /** `direction` is +1 while rising and -1 while falling. */
  datatype Lfo = Lfo(direction: int, rateFactor: real, value: real, anchorRate: real)

  /** A new LFO: at 0, rising, with no rate until one is set. */
  function New(sampleRate: PosReal): (l: Lfo)
    ensures l.value == 0.0 && l.direction == 1 && l.rateFactor == 0.0
    ensures l.anchorRate * sampleRate == 1.2
  {
    Lfo(1, 0.0, 0.0, 1.2 / sampleRate)
  }

  /** setRate: anchorRate * 1.53^slider * (1 + sin(pi * slider / 10) * 0.39).
      `pow` stands for Math.pow and `sinPi(x)` for Math.sin(Math.PI * x). */
  function SetRate(l: Lfo, slider: real, pow: (real, real) -> real, sinPi: real -> real): (r: Lfo)
    ensures r == l.(rateFactor := r.rateFactor)
    ensures pow(1.53, slider) > 0.0 && -1.0 <= sinPi(slider / 10.0) <= 1.0 && l.anchorRate > 0.0
      ==> r.rateFactor > 0.0
  {
    var bump := 1.0 + sinPi(slider / 10.0) * 0.39;
    var factor := l.anchorRate * pow(1.53, slider);
    assert factor > 0.0 && bump > 0.0 ==> factor * bump > 0.0;
    l.(rateFactor := factor * bump)
  }

  /** A rate the bounce keeps inside [-1, 1]. */
  predicate Valid(l: Lfo) {
    && (l.direction == 1 || l.direction == -1)
    && 0.0 <= l.rateFactor <= 1.0
    && -1.0 <= l.value <= 1.0
  }

  /** process: step in the current direction; a step that would leave
      [-1, 1] turns round and steps the other way from the old value. */
  function Process(l: Lfo): (r: Lfo)
    ensures r == l.(direction := r.direction, value := r.value)
    ensures r.value == l.value + l.rateFactor || r.value == l.value - l.rateFactor
    ensures l.direction == 1 ==>
      (l.value + l.rateFactor > 1.0 <==> r.direction == -1 && r.value == l.value - l.rateFactor)
    ensures l.direction != 1 ==>
      (l.value - l.rateFactor < -1.0 <==> r.direction == 1 && r.value == l.value + l.rateFactor)
    ensures l.direction == 1 && l.value + l.rateFactor <= 1.0 ==> r.direction == 1
    ensures l.direction != 1 && l.value - l.rateFactor >= -1.0 ==> r.direction == l.direction
    ensures Valid(l) ==> Valid(r)
  {
    if l.direction == 1 then
      if l.value + l.rateFactor > 1.0 then l.(direction := -1, value := l.value - l.rateFactor)
      else l.(value := l.value + l.rateFactor)
    else
      if l.value - l.rateFactor < -1.0 then l.(direction := 1, value := l.value + l.rateFactor)
      else l.(value := l.value - l.rateFactor)
  }

  /** `n` samples. */
  function Run(l: Lfo, n: nat): (r: Lfo)
    decreases n
  {
    if n == 0 then l else Run(Process(l), n - 1)
  }

  /** However long it runs, the output stays in [-1, 1] and the rate and
      anchor are untouched. */
  lemma {:induction false} RunStaysInRange(l: Lfo, n: nat)
    requires Valid(l)
    ensures Valid(Run(l, n))
    ensures Run(l, n).rateFactor == l.rateFactor && Run(l, n).anchorRate == l.anchorRate
    decreases n
  {
    if n > 0 {
      RunStaysInRange(Process(l), n - 1);
    }
  }

  /** From rest the wave climbs in equal steps: after `k` samples it is at
      k steps of the rate while that has not passed 1. */
  lemma {:induction false} RisesInEqualSteps(l: Lfo, k: nat)
    requires l.direction == 1 && l.value == 0.0 && l.rateFactor >= 0.0
    requires Steps(l.rateFactor, k) <= 1.0
    ensures Run(l, k).value == Steps(l.rateFactor, k) && Run(l, k).direction == 1
    decreases k
  {
    if k > 0 {
      var s := l.rateFactor;
      assert Steps(s, k - 1) <= Steps(s, k);
      RisesInEqualSteps(l, k - 1);
      RunSplit(l, k - 1);
      RateKept(l, k - 1);
    }
  }

  /** Running `k + 1` samples is running `k` and then one more. */
  lemma {:induction false} RunSplit(l: Lfo, k: nat)
    ensures Run(l, k + 1) == Process(Run(l, k))
    decreases k
  {
    if k > 0 {
      RunSplit(Process(l), k - 1);
    }
  }

  lemma {:induction false} RateKept(l: Lfo, k: nat)
    ensures Run(l, k).rateFactor == l.rateFactor
    decreases k
  {
    if k > 0 {
      RateKept(Process(l), k - 1);
    }
  }
}
