/** The instrument bookkeeping shared by every instrument
    (BaseInstrumentImplementation): a pool of voices, the notes waiting for
    a voice, the shared pitch-bend ramp, and the handlers of the messages the
    front end posts. Voices are base voices; `P` is the patch type. The
    voice allocation function belongs to the concrete instrument: the model
    reports whether it would be called. */
module BaseInstrument {
  import opened Wrappers
  import opened Numeric
  import SmoothMoves
  import BaseVoice

  type Voice<P> = BaseVoice.Voice<P>

  datatype NoteData = NoteData(noteNumber: int, velocity: int)

  /** A posted message by its `messageType`; any type without a handler is
      `Unknown`. */
  datatype Message =
    | NoteOn(data: NoteData)
    | NoteOff(data: NoteData)
    | ShutdownAll
    | PitchBend(value: real)
    | Unknown(messageType: string)

  datatype Instrument<P> = Instrument(
    voices: seq<Voice<P>>,
    waiting: seq<NoteData>,
    pitchBend: SmoothMoves.Param<()>,
    sampleRate: PosReal,
    patch: P)

  predicate Valid<P>(inst: Instrument<P>) {
    forall i :: 0 <= i < |inst.voices| ==> BaseVoice.Valid(inst.voices[i])
  }

  /** The constructor: no voices yet (the concrete instrument adds them),
      nothing waiting, the bend at 0; updatePatch then stores the patch. */
  function New<P>(patch: P, sampleRate: PosReal): (inst: Instrument<P>)
    ensures Valid(inst) && inst.voices == [] && inst.waiting == [] && inst.patch == patch
    ensures inst.pitchBend.current == 0.0 && SmoothMoves.Settled(inst.pitchBend)
  {
    UpdatePatch(Instrument([], [], SmoothMoves.New(0.0, sampleRate), sampleRate, patch), patch)
  }

  /** A voice sounding `n` that a note message addresses: same note,
      active, not shutting down. */
  predicate Holds<P>(v: Voice<P>, n: int)
    requires BaseVoice.Valid(v)
  {
    v.noteNumber == n && BaseVoice.IsActive(v) && !BaseVoice.IsShuttingDown(v)
  }

  /** A voice the allocator may use: idle or shutting down. */
  predicate Available<P>(v: Voice<P>)
    requires BaseVoice.Valid(v)
  {
    !BaseVoice.IsActive(v) || BaseVoice.IsShuttingDown(v)
  }

  /** The index of the first voice holding `n`, scanning from `from`. */
  function FirstHolding<P>(voices: seq<Voice<P>>, n: int, from: nat): (r: Option<nat>)
    requires forall i :: 0 <= i < |voices| ==> BaseVoice.Valid(voices[i])
    ensures r.None? <==> forall i :: from <= i < |voices| ==> !Holds(voices[i], n)
    ensures r.Some? ==> from <= r.value < |voices| && Holds(voices[r.value], n)
    ensures r.Some? ==> forall i :: from <= i < r.value ==> !Holds(voices[i], n)
    decreases |voices| - from
  {
    if from >= |voices| then None
    else if Holds(voices[from], n) then Some(from)
    else FirstHolding(voices, n, from + 1)
  }

  /** noteOn: retrigger the first voice already holding the note; otherwise
      queue the note for allocation. */
  function HandleNoteOn<P>(inst: Instrument<P>, d: NoteData): (r: Instrument<P>)
    requires Valid(inst)
    ensures Valid(r) && |r.voices| == |inst.voices|
    ensures r.pitchBend == inst.pitchBend && r.patch == inst.patch && r.sampleRate == inst.sampleRate
    ensures (forall i :: 0 <= i < |inst.voices| ==> !Holds(inst.voices[i], d.noteNumber)) ==>
      r.voices == inst.voices && r.waiting == inst.waiting + [d]
    ensures forall i :: 0 <= i < |inst.voices| && Holds(inst.voices[i], d.noteNumber)
                        && (forall j :: 0 <= j < i ==> !Holds(inst.voices[j], d.noteNumber)) ==>
      && r.waiting == inst.waiting
      && r.voices == inst.voices[i := BaseVoice.NoteOn(inst.voices[i], d.noteNumber, d.velocity)]
  {
    match FirstHolding(inst.voices, d.noteNumber, 0)
    case Some(i) =>
      inst.(voices := inst.voices[i := BaseVoice.NoteOn(inst.voices[i], d.noteNumber, d.velocity)])
    case None =>
      inst.(waiting := inst.waiting + [d])
  }

  /** The waiting list without its first entry for note `n`. */
  function RemoveFirst(ws: seq<NoteData>, n: int): (r: seq<NoteData>)
    decreases |ws|
  {
    if ws == [] then []
    else if ws[0].noteNumber == n then ws[1..]
    else [ws[0]] + RemoveFirst(ws[1..], n)
  }

  /** The position of the first waiting entry for `n`, if any. */
  function FindWaiting(ws: seq<NoteData>, n: int): (r: Option<nat>)
    ensures r.None? <==> forall i :: 0 <= i < |ws| ==> ws[i].noteNumber != n
    ensures r.Some? ==> r.value < |ws| && ws[r.value].noteNumber == n
    ensures r.Some? ==> forall i :: 0 <= i < r.value ==> ws[i].noteNumber != n
    decreases |ws|
  {
    if ws == [] then None
    else if ws[0].noteNumber == n then Some(0)
    else match FindWaiting(ws[1..], n)
      case None => None
      case Some(k) => Some(k + 1)
  }

  /** RemoveFirst drops exactly the first entry for `n` and keeps the rest in
      order; with no entry for `n` it keeps the list. */
  lemma {:induction false} RemoveFirstSpec(ws: seq<NoteData>, n: int)
    ensures FindWaiting(ws, n).None? ==> RemoveFirst(ws, n) == ws
    ensures FindWaiting(ws, n).Some? ==>
      var k := FindWaiting(ws, n).value; RemoveFirst(ws, n) == ws[..k] + ws[k + 1..]
    decreases |ws|
  {
    if ws == [] {
    } else if ws[0].noteNumber == n {
      assert FindWaiting(ws, n) == Some(0);
      assert ws[..0] + ws[1..] == ws[1..];
    } else {
      var t := ws[1..];
      RemoveFirstSpec(t, n);
      assert RemoveFirst(ws, n) == [ws[0]] + RemoveFirst(t, n);
      match FindWaiting(t, n)
      case None =>
        assert FindWaiting(ws, n) == None;
        assert [ws[0]] + t == ws;
      case Some(k) =>
        assert FindWaiting(ws, n) == Some(k + 1);
        SpliceAfterHead(ws, k);
    }
  }

  /** Removing position k + 1 of a list is keeping its head and removing
      position k of its tail. */
  lemma SpliceAfterHead<T>(ws: seq<T>, k: nat)
    requires k + 1 < |ws|
    ensures [ws[0]] + (ws[1..][..k] + ws[1..][k + 1..]) == ws[..k + 1] + ws[k + 2..]
  {
    var t := ws[1..];
    assert ws[..k + 1] == [ws[0]] + t[..k];
    assert ws[k + 2..] == t[k + 1..];
  }

  /** The for-loop with splice and break of the noteOff handler computes
      RemoveFirst. */
  method RemoveFirstLoop(ws: seq<NoteData>, n: int) returns (r: seq<NoteData>)
    ensures r == RemoveFirst(ws, n)
  {
    r := ws;
    var i := 0;
    while i < |r|
      invariant 0 <= i <= |r| && r == ws
      invariant forall j :: 0 <= j < i ==> ws[j].noteNumber != n
      decreases |r| - i
    {
      if r[i].noteNumber == n {
        assert FindWaiting(ws, n) == Some(i) by { FindWaitingAt(ws, n, i); }
        RemoveFirstSpec(ws, n);
        r := r[..i] + r[i + 1..];
        return;
      }
      i := i + 1;
    }
    RemoveFirstSpec(ws, n);
  }

  lemma FindWaitingAt(ws: seq<NoteData>, n: int, i: nat)
    requires i < |ws| && ws[i].noteNumber == n
    requires forall j :: 0 <= j < i ==> ws[j].noteNumber != n
    ensures FindWaiting(ws, n) == Some(i)
  {
    var r := FindWaiting(ws, n);
    assert r.Some?;
  }

  /** Release every voice holding the note (each voice is examined before it is
      changed, and changing one does not affect another's examination). */
  function ReleaseHolding<P>(voices: seq<Voice<P>>, d: NoteData): (r: seq<Voice<P>>)
    requires forall i :: 0 <= i < |voices| ==> BaseVoice.Valid(voices[i])
    ensures |r| == |voices| && forall i :: 0 <= i < |r| ==> BaseVoice.Valid(r[i])
    ensures forall i :: 0 <= i < |voices| ==>
      r[i] == if Holds(voices[i], d.noteNumber) then BaseVoice.NoteOff(voices[i], d.velocity) else voices[i]
  {
    seq(|voices|, i requires 0 <= i < |voices| && BaseVoice.Valid(voices[i]) =>
      if Holds(voices[i], d.noteNumber) then BaseVoice.NoteOff(voices[i], d.velocity) else voices[i])
  }

  /** noteOff: release every voice holding the note, and drop the first
      waiting entry for it. */
  function HandleNoteOff<P>(inst: Instrument<P>, d: NoteData): (r: Instrument<P>)
    requires Valid(inst)
    ensures Valid(r) && |r.voices| == |inst.voices|
    ensures r.pitchBend == inst.pitchBend && r.patch == inst.patch && r.sampleRate == inst.sampleRate
    ensures r.voices == ReleaseHolding(inst.voices, d) && r.waiting == RemoveFirst(inst.waiting, d.noteNumber)
    ensures forall i :: 0 <= i < |inst.voices| && Holds(inst.voices[i], d.noteNumber) ==>
      BaseVoice.IsReleased(r.voices[i]) || |inst.voices[i].envelopes[0].segments| < 4
    ensures forall i :: 0 <= i < |inst.voices| && !Holds(inst.voices[i], d.noteNumber) ==>
      r.voices[i] == inst.voices[i]
  {
    inst.(voices := ReleaseHolding(inst.voices, d), waiting := RemoveFirst(inst.waiting, d.noteNumber))
  }

  /** shutdownAll: shut down every voice. */
  function HandleShutdownAll<P>(inst: Instrument<P>): (r: Instrument<P>)
    requires Valid(inst)
    ensures Valid(r) && |r.voices| == |inst.voices| && r.waiting == inst.waiting
    ensures forall i :: 0 <= i < |inst.voices| ==> r.voices[i] == BaseVoice.Shutdown(inst.voices[i])
    ensures forall i :: 0 <= i < |r.voices| ==> Available(r.voices[i])
  {
    inst.(voices := seq(|inst.voices|, i requires 0 <= i < |inst.voices| && BaseVoice.Valid(inst.voices[i]) =>
                          BaseVoice.Shutdown(inst.voices[i])))
  }

  /** pitchBend: the shared bend glides to the new value over 128 samples
      (of the instrument's sample rate). */
  function HandlePitchBend<P>(inst: Instrument<P>, value: real): (r: Instrument<P>)
    ensures r == inst.(pitchBend := r.pitchBend)
    ensures r.pitchBend.target == value
    ensures inst.pitchBend.sampleRate == inst.sampleRate && inst.pitchBend.target != value && inst.pitchBend.started ==>
      r.pitchBend.step * 128.0 == value - inst.pitchBend.current
  {
    var duration := 128.0 / inst.sampleRate as real;
    GlideSteps(inst.pitchBend, value);
    inst.(pitchBend := SmoothMoves.LinearRampTo(inst.pitchBend, value, duration, None))
  }

  lemma GlideSteps(p: SmoothMoves.Param<()>, value: real)
    ensures var q := SmoothMoves.LinearRampTo(p, value, 128.0 / p.sampleRate as real, None);
      p.target != value && p.started ==> q.step * 128.0 == value - p.current
  {
    var sr := p.sampleRate as real;
    var d := 128.0 / sr;
    assert d * sr == 128.0;
  }

  /** One message through its handler; an unknown type changes nothing. */
  function Handle<P>(inst: Instrument<P>, m: Message): (r: Instrument<P>)
    requires Valid(inst)
    ensures Valid(r) && |r.voices| == |inst.voices| && r.patch == inst.patch && r.sampleRate == inst.sampleRate
    ensures m.Unknown? ==> r == inst
  {
    match m
    case NoteOn(d) => HandleNoteOn(inst, d)
    case NoteOff(d) => HandleNoteOff(inst, d)
    case ShutdownAll => HandleShutdownAll(inst)
    case PitchBend(value) => HandlePitchBend(inst, value)
    case Unknown(_) => inst
  }

  /** The messages of a queue, in order. */
  function HandleAll<P>(inst: Instrument<P>, q: seq<Message>): (r: Instrument<P>)
    requires Valid(inst)
    ensures Valid(r) && |r.voices| == |inst.voices| && r.patch == inst.patch && r.sampleRate == inst.sampleRate
    decreases |q|
  {
    if q == [] then inst else HandleAll(Handle(inst, q[0]), q[1..])
  }

  /** Handling a queue in two parts is handling it whole. */
  lemma {:induction false} HandleAllAppend<P>(inst: Instrument<P>, q1: seq<Message>, q2: seq<Message>)
    requires Valid(inst)
    ensures HandleAll(inst, q1 + q2) == HandleAll(HandleAll(inst, q1), q2)
    decreases |q1|
  {
    if q1 == [] {
      assert q1 + q2 == q2;
    } else {
      assert (q1 + q2)[1..] == q1[1..] + q2;
      HandleAllAppend(Handle(inst, q1[0]), q1[1..], q2);
    }
  }

  /** A queue of unknown message types changes nothing. */
  lemma {:induction false} UnknownMessagesIgnored<P>(inst: Instrument<P>, q: seq<Message>)
    requires Valid(inst) && forall i :: 0 <= i < |q| ==> q[i].Unknown?
    ensures HandleAll(inst, q) == inst
    decreases |q|
  {
    if q != [] {
      UnknownMessagesIgnored(inst, q[1..]);
    }
  }

  /** The number of available voices. */
  function CountAvailable<P>(voices: seq<Voice<P>>): (n: nat)
    requires forall i :: 0 <= i < |voices| ==> BaseVoice.Valid(voices[i])
    ensures n <= |voices|
    decreases |voices|
  {
    if voices == [] then 0
    else CountAvailable(voices[..|voices| - 1]) + (if Available(voices[|voices| - 1]) then 1 else 0)
  }

  /** The allocation condition: notes are waiting and fewer voices are
      available than notes wait. */
  predicate NeedsAllocation<P>(inst: Instrument<P>)
    requires Valid(inst)
  {
    |inst.waiting| > 0 && CountAvailable(inst.voices) < |inst.waiting|
  }

  /** processMessages: handle the queue in order, then count the available
      voices and report whether the allocation function is called. */
  method ProcessMessages<P>(inst: Instrument<P>, queue: seq<Message>) returns (r: Instrument<P>, allocate: bool)
    requires Valid(inst)
    ensures r == HandleAll(inst, queue)
    ensures allocate <==> NeedsAllocation(r)
  {
    r := inst;
    var i := 0;
    while i < |queue|
      invariant 0 <= i <= |queue|
      invariant r == HandleAll(inst, queue[..i])
    {
      HandleAllAppend(inst, queue[..i], [queue[i]]);
      assert queue[..i + 1] == queue[..i] + [queue[i]];
      r := Handle(r, queue[i]);
      i := i + 1;
    }
    assert queue[..i] == queue;
    allocate := false;
    if |r.waiting| > 0 {
      var available := CountAvailableLoop(r.voices);
      allocate := available < |r.waiting|;
    }
  }

  /** The counting loop of processMessages. */
  method CountAvailableLoop<P>(voices: seq<Voice<P>>) returns (available: nat)
    requires forall i :: 0 <= i < |voices| ==> BaseVoice.Valid(voices[i])
    ensures available == CountAvailable(voices)
  {
    available := 0;
    var k := 0;
    while k < |voices|
      invariant 0 <= k <= |voices|
      invariant available == CountAvailable(voices[..k])
    {
      assert voices[..k + 1][..k] == voices[..k];
      if Available(voices[k]) {
        available := available + 1;
      }
      k := k + 1;
    }
    assert voices[..k] == voices;
  }

  /** updatePatch: store the patch and hand it to every voice. */
  function UpdatePatch<P>(inst: Instrument<P>, patch: P): (r: Instrument<P>)
    requires Valid(inst)
    ensures Valid(r) && r.patch == patch && |r.voices| == |inst.voices|
    ensures r.waiting == inst.waiting && r.pitchBend == inst.pitchBend
    ensures forall i :: 0 <= i < |r.voices| ==> r.voices[i] == inst.voices[i].(patch := patch)
  {
    inst.(patch := patch,
          voices := seq(|inst.voices|, i requires 0 <= i < |inst.voices| => BaseVoice.Update(inst.voices[i], patch)))
  }

  /** A note that no voice holds and that is not waiting is queued by
      noteOn and unqueued by the matching noteOff: the waiting list is as
      before. */
  lemma NoteOffCancelsQueuedNoteOn<P>(inst: Instrument<P>, on: NoteData, offVelocity: int)
    requires Valid(inst)
    requires forall i :: 0 <= i < |inst.voices| ==> !Holds(inst.voices[i], on.noteNumber)
    requires forall i :: 0 <= i < |inst.waiting| ==> inst.waiting[i].noteNumber != on.noteNumber
    ensures HandleNoteOff(HandleNoteOn(inst, on), NoteData(on.noteNumber, offVelocity)).waiting == inst.waiting
    ensures HandleNoteOff(HandleNoteOn(inst, on), NoteData(on.noteNumber, offVelocity)).voices == inst.voices
  {
    var n := on.noteNumber;
    var ws := inst.waiting + [on];
    var queued := HandleNoteOn(inst, on);
    assert queued.voices == inst.voices && queued.waiting == ws;
    var off := HandleNoteOff(queued, NoteData(n, offVelocity));
    FindWaitingAt(ws, n, |inst.waiting|);
    RemoveFirstSpec(ws, n);
    assert ws[..|inst.waiting|] == inst.waiting && ws[|inst.waiting| + 1..] == [];
    assert off.waiting == inst.waiting;
    assert forall i :: 0 <= i < |inst.voices| ==> off.voices[i] == inst.voices[i];
  }

  /** A note held by a voice is not queued again: noteOn retriggers the
      voice and the retriggered voice still holds the note. */
  lemma HeldNoteIsNotQueued<P>(inst: Instrument<P>, d: NoteData)
    requires Valid(inst) && exists i :: 0 <= i < |inst.voices| && Holds(inst.voices[i], d.noteNumber)
    ensures var r := HandleNoteOn(inst, d);
      && r.waiting == inst.waiting
      && exists i :: 0 <= i < |r.voices| && Holds(r.voices[i], d.noteNumber) && r.voices[i].envelopes[0].phase == 0
  {
    var k := FirstHolding(inst.voices, d.noteNumber, 0).value;
    var r := HandleNoteOn(inst, d);
    assert Holds(r.voices[k], d.noteNumber);
  }

  /** After shutdownAll every voice is available, so allocation is called
      only when more notes wait than there are voices. */
  lemma ShutdownAllFreesEveryVoice<P>(inst: Instrument<P>)
    requires Valid(inst)
    ensures var r := HandleShutdownAll(inst);
      NeedsAllocation(r) <==> |inst.voices| < |inst.waiting|
  {
    var r := HandleShutdownAll(inst);
    AllAvailableCount(r.voices);
  }

  lemma {:induction false} AllAvailableCount<P>(voices: seq<Voice<P>>)
    requires forall i :: 0 <= i < |voices| ==> BaseVoice.Valid(voices[i]) && Available(voices[i])
    ensures CountAvailable(voices) == |voices|
    decreases |voices|
  {
    if voices != [] {
      AllAvailableCount(voices[..|voices| - 1]);
    }
  }
}
