/** The bookkeeping every voice shares (BaseVoiceImplementation): the note
    it plays, its velocities, its envelopes (the first is the VCA envelope
    that decides the voice's status) and its current patch. */
module BaseVoice {
  import Envelopes

  type Envelope = Envelopes.Envelope

  datatype Voice<P> = Voice(
    noteNumber: int,
    attackVelocity: int,
    releaseVelocity: int,
    envelopes: seq<Envelope>,
    patch: P)

  predicate AllValid(envs: seq<Envelope>) {
    forall i :: 0 <= i < |envs| ==> Envelopes.Valid(envs[i])
  }

  predicate Valid<P>(v: Voice<P>) {
    |v.envelopes| >= 1 && AllValid(v.envelopes)
  }

  /** The constructor: no note (-1), both velocities 64; the base update
      stores the patch. */
  function New<P>(patch: P, envelopes: seq<Envelope>): (v: Voice<P>)
    requires |envelopes| >= 1 && AllValid(envelopes)
    ensures Valid(v) && v.envelopes == envelopes && v.patch == patch
    ensures v.noteNumber == -1 && v.attackVelocity == 64 && v.releaseVelocity == 64
  {
    Voice(-1, 64, 64, envelopes, patch)
  }

  /** The status queries all ask the first (VCA) envelope. */
  predicate IsActive<P>(v: Voice<P>)
    requires Valid(v)
  {
    Envelopes.IsActive(v.envelopes[0])
  }

  predicate IsReleased<P>(v: Voice<P>)
    requires Valid(v)
  {
    Envelopes.IsReleased(v.envelopes[0])
  }

  predicate IsShuttingDown<P>(v: Voice<P>)
    requires Valid(v)
  {
    Envelopes.IsShuttingDown(v.envelopes[0])
  }

  /** Trigger every envelope. */
  function TriggerAll(envs: seq<Envelope>): (r: seq<Envelope>)
    requires AllValid(envs)
    ensures |r| == |envs| && AllValid(r)
    ensures forall i :: 0 <= i < |envs| ==> r[i] == Envelopes.Trigger(envs[i])
  {
    seq(|envs|, i requires 0 <= i < |envs| && Envelopes.Valid(envs[i]) => Envelopes.Trigger(envs[i]))
  }

  /** Release every envelope. */
  function ReleaseAll(envs: seq<Envelope>): (r: seq<Envelope>)
    requires AllValid(envs)
    ensures |r| == |envs| && AllValid(r)
    ensures forall i :: 0 <= i < |envs| ==> r[i] == Envelopes.Release(envs[i])
  {
    seq(|envs|, i requires 0 <= i < |envs| && Envelopes.Valid(envs[i]) => Envelopes.Release(envs[i]))
  }

  /** update (the base version): store the patch. */
  function Update<P>(v: Voice<P>, patch: P): (r: Voice<P>)
    ensures r.patch == patch && r == v.(patch := patch)
  {
    v.(patch := patch)
  }

  /** noteOn: record the note and its velocity, reset the release velocity
      to 64, re-apply the current patch and trigger every envelope. */
  function NoteOn<P>(v: Voice<P>, noteNumber: int, velocity: int): (r: Voice<P>)
    requires Valid(v)
    ensures Valid(r) && |r.envelopes| == |v.envelopes|
    ensures r.noteNumber == noteNumber && r.attackVelocity == velocity && r.releaseVelocity == 64
    ensures r.patch == v.patch && r.envelopes == TriggerAll(v.envelopes)
    ensures IsActive(r) && !IsReleased(r) && !IsShuttingDown(r)
  {
    var r := Update(v.(noteNumber := noteNumber, attackVelocity := velocity, releaseVelocity := 64), v.patch);
    r.(envelopes := TriggerAll(r.envelopes))
  }

  /** noteOff: record the release velocity, re-apply the patch and release
      every envelope; the note number stays. */
  function NoteOff<P>(v: Voice<P>, velocity: int): (r: Voice<P>)
    requires Valid(v)
    ensures Valid(r) && |r.envelopes| == |v.envelopes|
    ensures r.noteNumber == v.noteNumber && r.attackVelocity == v.attackVelocity
    ensures r.releaseVelocity == velocity && r.patch == v.patch
    ensures r.envelopes == ReleaseAll(v.envelopes)
    ensures IsActive(r) <==> IsActive(v)
    ensures IsActive(v) ==> !IsShuttingDown(r)
  {
    var r := Update(v.(releaseVelocity := velocity), v.patch);
    r.(envelopes := ReleaseAll(r.envelopes))
  }

  /** shutdown: only the VCA envelope is shut down. */
  function Shutdown<P>(v: Voice<P>): (r: Voice<P>)
    requires Valid(v)
    ensures Valid(r) && |r.envelopes| == |v.envelopes|
    ensures r.envelopes[0] == Envelopes.Shutdown(v.envelopes[0])
    ensures forall i :: 1 <= i < |v.envelopes| ==> r.envelopes[i] == v.envelopes[i]
    ensures r == v.(envelopes := r.envelopes)
    ensures IsActive(r) <==> IsActive(v)
    ensures IsActive(v) ==> IsShuttingDown(r)
  {
    v.(envelopes := v.envelopes[0 := Envelopes.Shutdown(v.envelopes[0])])
  }

  /** A note released after being played is released, with the note number
      it was played with, when its VCA envelope has at least four
      segments (attack, decay, release, shutdown). */
  lemma NoteOnThenOff<P>(v: Voice<P>, noteNumber: int, velocity: int, releaseVelocity: int)
    requires Valid(v) && |v.envelopes[0].segments| >= 4
    ensures var r := NoteOff(NoteOn(v, noteNumber, velocity), releaseVelocity);
      && IsActive(r) && IsReleased(r) && !IsShuttingDown(r)
      && r.noteNumber == noteNumber && r.attackVelocity == velocity && r.releaseVelocity == releaseVelocity
  {
  }

  /** Releasing or shutting down an idle voice changes no envelope. */
  lemma IdleVoiceIgnoresReleaseAndShutdown<P>(v: Voice<P>, velocity: int)
    requires Valid(v) && forall i :: 0 <= i < |v.envelopes| ==> !Envelopes.IsActive(v.envelopes[i])
    ensures NoteOff(v, velocity).envelopes == v.envelopes
    ensures Shutdown(v) == v
  {
  }

  /** Retriggering restarts every envelope from its first segment, whatever
      state the voice was in. */
  lemma RetriggerRestartsEveryEnvelope<P>(v: Voice<P>, noteNumber: int, velocity: int)
    requires Valid(v)
    ensures var r := NoteOn(v, noteNumber, velocity);
      forall i :: 0 <= i < |r.envelopes| ==> r.envelopes[i].phase == 0 && r.envelopes[i].value == v.envelopes[i].value
  {
  }
}
