/** The segment envelope (BaseEnvelope): a phase index over an ordered list
    of segments, -1 meaning inactive. */
module Envelopes {
  import opened Wrappers
  import opened Numeric
  import Segments

  datatype Envelope = Envelope(segments: seq<Segment>, phase: int, value: real)

  type Segment = Segments.Segment

  /** Every concrete envelope has at least a release and a shutdown segment,
      and the phase is -1 or a segment index. */
  predicate Valid(e: Envelope) {
    |e.segments| >= 2 && -1 <= e.phase < |e.segments|
  }

  /** The segment list keeps its length and every segment keeps its kind and
      configuration (only a delay's countdown may move). */
  predicate SameShape(a: seq<Segment>, b: seq<Segment>) {
    |a| == |b| && forall i :: 0 <= i < |a| ==> Segments.SameKind(a[i], b[i]) && Segments.SameKind(b[i], a[i])
  }

  /** Same shape, and only delay segments (their countdowns) differ. */
  predicate OnlyDelaysMove(a: seq<Segment>, b: seq<Segment>) {
    SameShape(a, b) && forall i :: 0 <= i < |a| && !a[i].Delay? ==> b[i] == a[i]
  }

  function New(segments: seq<Segment>): (e: Envelope)
    requires |segments| >= 2
    ensures Valid(e) && !IsActive(e) && e.value == 0.0 && e.segments == segments
  {
    Envelope(segments, -1, 0.0)
  }

  predicate IsActive(e: Envelope) {
    e.phase != -1
  }

  /** JavaScript `a === b` where `a` may be `undefined` (None). */
  predicate StrictEquals(a: Option<int>, b: int) {
    a == Some(b)
  }

  /** isReleased, reading the phase from `field`. */
  predicate IsReleasedReading(field: Option<int>) {
    !StrictEquals(field, 0) && !StrictEquals(field, 1)
  }

  /** isShuttingDown, reading the phase from `field`. */
  predicate IsShuttingDownReading(e: Envelope, field: Option<int>) {
    StrictEquals(field, |e.segments| - 1)
  }

  /** isReleased as intended: the phase field is neither the attack (0) nor
      the decay (1) index. */
  predicate IsReleased(e: Envelope) {
    IsReleasedReading(Some(e.phase))
  }

  /** isShuttingDown as intended: the phase is the last (shutdown) index. */
  predicate IsShuttingDown(e: Envelope) {
    IsShuttingDownReading(e, Some(e.phase))
  }

  /** isReleased as written: it reads `currentPhase`, a property nothing
      defines, so the comparison sees `undefined`. */
  function IsReleasedAsWritten(e: Envelope): (b: bool)
    ensures b
  {
    IsReleasedReading(None)
  }

  /** isShuttingDown as written, reading the same undefined property. */
  function IsShuttingDownAsWritten(e: Envelope): (b: bool)
    ensures !b
  {
    IsShuttingDownReading(e, None)
  }

  /** A freshly triggered envelope is in its first segment: the intended
      predicates say neither released nor shutting down; as written it
      reads as released, and a shut-down envelope never reads as shutting
      down. */
  lemma StatusAsWrittenDisagrees(e: Envelope)
    requires Valid(e)
    ensures var t := Trigger(e);
      !IsReleased(t) && IsReleasedAsWritten(t)
    ensures var s := Shutdown(Trigger(e));
      IsShuttingDown(s) && !IsShuttingDownAsWritten(s)
  {
  }

  /** trigger: phase 0 from any state. No segment is reset. */
  function Trigger(e: Envelope): (r: Envelope)
    requires Valid(e)
    ensures Valid(r) && IsActive(r) && r.phase == 0
    ensures r.segments == e.segments && r.value == e.value
    ensures !IsReleased(r) && !IsShuttingDown(r)
  {
    e.(phase := 0)
  }

  /** Every segment that has a reset method, reset (decay segments have none). */
  function ResetSegments(segs: seq<Segment>): (r: seq<Segment>)
    ensures SameShape(segs, r)
    ensures forall i :: 0 <= i < |segs| && segs[i].Delay? ==> r[i].remaining == segs[i].count
    ensures forall i :: 0 <= i < |segs| && !segs[i].Delay? ==> r[i] == segs[i]
  {
    seq(|segs|, i requires 0 <= i < |segs| => if segs[i].Decay? then segs[i] else Segments.Reset(segs[i]))
  }

  /** trigger preceded by a reset of the segments: a delay segment counts
      down its full length again after every trigger. */
  function TriggerResetting(e: Envelope): (r: Envelope)
    requires Valid(e)
    ensures Valid(r) && IsActive(r) && r.phase == 0 && r.value == e.value
    ensures r.segments == ResetSegments(e.segments)
  {
    Trigger(e).(segments := ResetSegments(e.segments))
  }

  /** Without delay segments resetting changes nothing. */
  lemma TriggerResettingWithoutDelay(e: Envelope)
    requires Valid(e)
    requires forall i :: 0 <= i < |e.segments| ==> !e.segments[i].Delay?
    ensures TriggerResetting(e) == Trigger(e)
  {
    assert ResetSegments(e.segments) == e.segments;
  }

  /** release: the second-to-last segment, unless inactive. */
  function Release(e: Envelope): (r: Envelope)
    requires Valid(e)
    ensures Valid(r) && r.segments == e.segments && r.value == e.value
    ensures !IsActive(e) ==> r == e
    ensures IsActive(e) ==> IsActive(r) && r.phase == |e.segments| - 2 && !IsShuttingDown(r)
    ensures IsActive(e) && |e.segments| >= 4 ==> IsReleased(r)
  {
    if e.phase != -1 then e.(phase := |e.segments| - 2) else e
  }

  /** shutdown: the last segment, unless inactive. */
  function Shutdown(e: Envelope): (r: Envelope)
    requires Valid(e)
    ensures Valid(r) && r.segments == e.segments && r.value == e.value
    ensures !IsActive(e) ==> r == e
    ensures IsActive(e) ==> IsActive(r) && IsShuttingDown(r)
    ensures IsActive(e) && |e.segments| >= 3 ==> IsReleased(r)
  {
    if e.phase != -1 then e.(phase := |e.segments| - 1) else e
  }

  /** The loop of process, entered at `phase` with the stored value `value`.
      Each pass asks the current segment for a candidate; a candidate that
      does not complete its segment is stored, one that does is discarded
      and the next segment starts from the same stored value; completing the
      last segment deactivates the envelope with value 0. */
  function Run(segs: seq<Segment>, phase: nat, value: real): (r: Envelope)
    requires phase < |segs|
    ensures OnlyDelaysMove(segs, r.segments)
    ensures -1 <= r.phase < |segs| && (r.phase == -1 || phase <= r.phase)
    ensures r.phase == -1 ==> r.value == 0.0
    decreases |segs| - phase
  {
    var o := Segments.Process(segs[phase], value);
    var segs' := segs[phase := o.segment];
    if Segments.IsComplete(o.segment, o.value) then
      if phase + 1 >= |segs| then Envelope(segs', -1, 0.0)
      else Run(segs', phase + 1, value)
    else
      Envelope(segs', phase, o.value)
  }

  /** What one run does: the segments from `phase` up to the one it stops
      in each produced a completing candidate (and only their countdowns
      moved); the segment it stops in produced the stored, incomplete
      candidate; the segments before `phase` and after the stop are
      untouched. */
  lemma {:induction false} RunVisits(segs: seq<Segment>, phase: nat, value: real)
    requires phase < |segs|
    ensures var r := Run(segs, phase, value);
      && (r.phase != -1 ==>
        var o := Segments.Process(segs[r.phase], value);
        r.value == o.value && r.segments[r.phase] == o.segment && !Segments.IsComplete(o.segment, o.value))
      && (forall j :: phase <= j < |segs| && (r.phase == -1 || j < r.phase) ==>
        var o := Segments.Process(segs[j], value);
        r.segments[j] == o.segment && Segments.IsComplete(o.segment, o.value))
      && (forall j :: 0 <= j < |segs| && (j < phase || (r.phase != -1 && r.phase < j)) ==>
        r.segments[j] == segs[j])
    decreases |segs| - phase
  {
    var o := Segments.Process(segs[phase], value);
    var segs' := segs[phase := o.segment];
    if Segments.IsComplete(o.segment, o.value) && phase + 1 < |segs| {
      RunVisits(segs', phase + 1, value);
    }
  }

  /** process: one sample of the envelope. */
  function Process(e: Envelope): (r: Envelope)
    requires Valid(e)
    ensures Valid(r) && OnlyDelaysMove(e.segments, r.segments)
    ensures !IsActive(e) ==> r == e
    ensures IsActive(e) && !IsActive(r) ==> r.value == 0.0
    ensures IsActive(e) && IsActive(r) ==> e.phase <= r.phase
  {
    if e.phase == -1 then e else Run(e.segments, e.phase, e.value)
  }

  /** One pass that keeps its candidate stores it and stays in the phase. */
  lemma ProcessKeepsIncompleteCandidate(e: Envelope)
    requires Valid(e) && IsActive(e)
    requires var o := Segments.Process(e.segments[e.phase], e.value); !Segments.IsComplete(o.segment, o.value)
    ensures var o := Segments.Process(e.segments[e.phase], e.value);
      Process(e) == e.(segments := e.segments[e.phase := o.segment], value := o.value)
  {
  }

  /** A completing candidate is discarded: the next segment starts from the
      value stored before the call, in the same call. */
  lemma ProcessDiscardsCompletingCandidate(e: Envelope)
    requires Valid(e) && IsActive(e) && e.phase + 1 < |e.segments|
    requires var o := Segments.Process(e.segments[e.phase], e.value); Segments.IsComplete(o.segment, o.value)
    ensures var o := Segments.Process(e.segments[e.phase], e.value);
      Process(e) == Process(Envelope(e.segments[e.phase := o.segment], e.phase + 1, e.value))
  {
  }

  /** `k` successive calls of process. */
  function ProcessN(e: Envelope, k: nat): (r: Envelope)
    requires Valid(e)
    ensures Valid(r) && SameShape(e.segments, r.segments)
    decreases k
  {
    if k == 0 then e else ProcessN(Process(e), k - 1)
  }

  lemma {:induction false} InactiveStaysInactive(e: Envelope, k: nat)
    requires Valid(e) && !IsActive(e)
    ensures ProcessN(e, k) == e
    decreases k
  {
    if k > 0 {
      InactiveStaysInactive(Process(e), k - 1);
    }
  }

  /** In the shutdown segment with a stored value of at most n steps of the
      shutdown rate, the envelope is inactive, with value 0, after n calls. */
  lemma {:induction false} ShutdownPhaseEnds(e: Envelope, n: nat)
    requires Valid(e) && e.phase == |e.segments| - 1
    requires e.segments[e.phase].Shutdown? && e.segments[e.phase].rate > 0.0
    requires n >= 1 && e.value <= Steps(e.segments[e.phase].rate, n)
    ensures !IsActive(ProcessN(e, n)) && ProcessN(e, n).value == 0.0
    decreases n
  {
    var rate := e.segments[e.phase].rate;
    var p := Process(e);
    if e.value - rate <= 0.0 {
      assert !IsActive(p) && p.value == 0.0;
      InactiveStaysInactive(p, n - 1);
    } else {
      assert p == e.(value := e.value - rate);
      if n == 1 {
        assert false;
      }
      ShutdownPhaseEnds(p, n - 1);
    }
  }

  /** Shutdown from any active phase, with a value not above +1 and the
      last segment built as a shutdown of `seconds`, reaches silence (value
      0, inactive) within ceil(seconds * sampleRate) calls. */
  lemma ShutdownReachesSilence(e: Envelope, sampleRate: PosReal, seconds: PosReal)
    requires Valid(e) && IsActive(e) && e.value <= 1.0
    requires e.segments[|e.segments| - 1] == Segments.NewShutdown(sampleRate, seconds)
    ensures var n := -((-(seconds * sampleRate as real)).Floor);
      n >= 1 && !IsActive(ProcessN(Shutdown(e), n)) && ProcessN(Shutdown(e), n).value == 0.0
  {
    var s := Segments.NewShutdown(sampleRate, seconds);
    var samples := seconds * sampleRate as real;
    var n := -((-samples).Floor);
    assert n as real >= samples;
    StepsIsProduct(s.rate, n);
    MulMono(s.rate, samples, n as real);
    ShutdownPhaseEnds(Shutdown(e), n);
  }
}
