/** The linearly smoothed control parameter (`SmoothMoves`). Every audio-rate
    consumer owns one `Param` and advances it once per sample with `Next`.
    Callbacks are not run by the model: `C` is the callback's payload, and
    `Next` reports which callback the call would have run. */
module SmoothMoves {
  import opened Wrappers
  import opened Numeric

  datatype Param<C> = Param(
    current: real,
    target: real,
    step: real,
    sampleRate: PosReal,
    onComplete: Option<C>,
    started: bool)

  /** One call of getNextValue: the value returned, the parameter afterwards,
      and the completion callback run during the call, if any. */
  datatype Tick<C> = Tick(value: real, param: Param<C>, fired: Option<C>)

  predicate Settled<C>(p: Param<C>) {
    p.current == p.target
  }

  /** The parameter is settled, or its step points from the current value
      towards the target. */
  predicate Heading<C>(p: Param<C>) {
    p.current == p.target || (p.target - p.current) * p.step > 0.0
  }

  /** constructor(value, sampleRate) */
  function New<C>(value: real, sampleRate: PosReal): (p: Param<C>)
    ensures Settled(p) && p.current == value && !p.started
    ensures Next(p) == Tick(value, p, None)
  {
    Param(value, value, 0.0, sampleRate, None, false)
  }

  /** setValue: retarget so that the very next step lands exactly on `value`. */
  function SetValue<C>(p: Param<C>, value: real): (q: Param<C>)
    ensures q.target == value && q.current == p.current
    ensures q.onComplete == p.onComplete && q.started == p.started
    ensures Next(q).value == value && Settled(Next(q).param)
  {
    p.(target := value, step := value - p.current)
  }

  /** linearRampToValueAtTime: a no-op for the current target; a jump when the
      duration is 0 or no transition step has happened yet; otherwise a ramp
      of duration * sampleRate equal steps that runs `onComplete` on arrival. */
  function LinearRampTo<C>(p: Param<C>, value: real, duration: real, onComplete: Option<C>): (q: Param<C>)
    ensures p.target == value ==> q == p
    ensures p.target != value && (duration == 0.0 || !p.started) ==>
      q.current == value && Settled(q) && q.onComplete == p.onComplete
    ensures p.target != value && duration != 0.0 && p.started ==>
      && q.current == p.current && q.target == value && q.onComplete == onComplete
      && q.step * (duration * p.sampleRate as real) == value - p.current
    ensures q.sampleRate == p.sampleRate && q.started == p.started
    ensures p.target != value && duration > 0.0 ==> Heading(q)
  {
    if p.target != value then
      var q := SetValue(p, value);
      if duration != 0.0 && p.started then
        q.(step := q.step / (duration * p.sampleRate as real), onComplete := onComplete)
      else
        q.(current := value)
    else
      p
  }

  /** The value getNextValue computes before committing it: the stepped value,
      or the target together with the stored callback once the step reaches or
      passes the target (the sign test of the source). */
  function Candidate<C>(p: Param<C>): (real, Option<C>)
    requires !Settled(p)
  {
    var v := p.current + p.step;
    if Sign(p.target - v) * Sign(p.target - p.current) <= 0 then (p.target, p.onComplete) else (v, None)
  }

  /** The last two assignments of getNextValue. */
  function Commit<C>(p: Param<C>, value: real): Param<C> {
    p.(started := true, current := value)
  }

  /** getNextValue */
  function Next<C>(p: Param<C>): (t: Tick<C>)
    ensures Settled(p) ==> t == Tick(p.current, p, None)
    ensures !Settled(p) ==> t.param == p.(started := true, current := t.value)
    ensures t.fired.Some? <==> !Settled(p) && Settled(t.param) && p.onComplete.Some?
    ensures t.fired.Some? ==> t.fired == p.onComplete
    ensures Heading(p) ==> Between(t.value, p.current, p.target) && Heading(t.param)
  {
    if Settled(p) then Tick(p.current, p, None)
    else
      var (v, cb) := Candidate(p);
      Tick(v, Commit(p, v), cb)
  }

  /** `k` successive calls of getNextValue. */
  function Advance<C>(p: Param<C>, k: nat): Param<C>
    decreases k
  {
    if k == 0 then p else Advance(Next(p).param, k - 1)
  }

  lemma {:induction false} AdvanceLast<C>(p: Param<C>, k: nat)
    ensures Advance(p, k + 1) == Next(Advance(p, k)).param
    decreases k
  {
    if k > 0 {
      AdvanceLast(Next(p).param, k - 1);
    }
  }

  lemma SignOfMultiple(m: real, x: real)
    requires m > 0.0
    ensures Sign(m * x) == Sign(x)
  {
  }

  /** A call whose step stays strictly short of the target moves by one step. */
  lemma NextMovesOneStep<C>(a: Param<C>)
    requires !Settled(a)
    requires Sign(a.target - (a.current + a.step)) == Sign(a.target - a.current)
    ensures Next(a).param == a.(started := true, current := a.current + a.step)
  {
    var sg := Sign(a.target - a.current);
    assert sg * sg == 1;
  }

  /** A call whose step lands on the target returns it and runs the callback. */
  lemma NextLands<C>(a: Param<C>)
    requires !Settled(a) && a.current + a.step == a.target
    ensures Next(a).value == a.target && Next(a).fired == a.onComplete
  {
  }

  /** Where a started ramp of `n` equal steps is after `k < n` calls. */
  lemma {:induction false} RampPosition<C>(q: Param<C>, n: nat, k: nat)
    requires k < n
    requires q.started && q.step != 0.0
    requires q.target == q.current + Steps(q.step, n)
    ensures Advance(q, k).current == q.current + Steps(q.step, k)
    ensures Advance(q, k).target == q.target && Advance(q, k).step == q.step
    ensures Advance(q, k).onComplete == q.onComplete && !Settled(Advance(q, k))
    decreases k
  {
    StepsSplit(q.step, k, n - k);
    StepsSign(q.step, n - k);
    if k > 0 {
      RampPosition(q, n, k - 1);
      AdvanceLast(q, k - 1);
      StepsSplit(q.step, k - 1, n - k + 1);
      StepsSign(q.step, n - k + 1);
      NextMovesOneStep(Advance(q, k - 1));
    }
  }

  /** A ramp requested from a settled, started parameter with
      duration * sampleRate == n arrives on exactly the n-th call, no call
      before it returns the target, and that call runs the callback. */
  lemma RampArrivesAfterExactlyNSteps<C>(p: Param<C>, value: real, duration: real, onComplete: Option<C>, n: nat)
    requires Settled(p) && p.started && p.target != value
    requires 1 <= n && duration * p.sampleRate as real == n as real
    ensures var q := LinearRampTo(p, value, duration, onComplete);
      && (forall k: nat :: k < n ==> Advance(q, k).current != value)
      && Advance(q, n).current == value
      && Next(Advance(q, n - 1)).fired == onComplete
  {
    var q := LinearRampTo(p, value, duration, onComplete);
    var s := q.step;
    StepsIsProduct(s, n);
    assert q.target == q.current + Steps(s, n);
    forall k: nat | k < n
      ensures Advance(q, k).current != value
    {
      RampPosition(q, n, k);
    }
    RampPosition(q, n, n - 1);
    AdvanceLast(q, n - 1);
    assert Steps(s, n) == Steps(s, n - 1) + s;
    NextLands(Advance(q, n - 1));
  }
}
