/** The front end of an instrument (BaseInstrumentNode): it decodes MIDI
    events, holds back note releases while the sustain pedal is down, and
    posts messages to the instrument. Posting a message is an append to the
    node's `log`. The sustained-note map is `None` while the pedal is up;
    its entries are 1 for a note released under the pedal and 0 for a note
    struck again since. */
module InstrumentNode {
  import opened Wrappers

  datatype Post =
    | NoteOnPost(noteNumber: int, velocity: int)
    | NoteOffPost(noteNumber: int, velocity: int)
    | PitchBendPost(bend: real)
    | ControlChangePost(controlNumber: int, value: int)
    | ShutdownAllPost
    | MidiMessagePost(data: seq<int>)

  datatype Node = Node(sustained: Option<map<int, int>>, log: seq<Post>)

  /** A new node: pedal up, nothing posted. */
  function New(): (n: Node)
    ensures n.sustained.None? && n.log == []
  {
    Node(None, [])
  }

  // ------------------------------------------------------------ helpers

  /** JavaScript `v | 64` on a 32-bit integer: bit 6 set. Euclidean division
      by a positive divisor floors, so `(v / 64) % 2` is bit 6 of the two's
      complement representation for negative values too. */
  function Or64(v: int): (r: int)
    ensures r == v || r == v + 64
    ensures (r / 64) % 2 == 1
    ensures (v / 64) % 2 == 1 ==> r == v
  {
    if (v / 64) % 2 == 1 then v else v + 64
  }

  /** A struck key's velocity always carries bit 6, so velocities 1-127
      arrive as 64-127. */
  lemma Or64Range(v: int)
    requires 1 <= v <= 127
    ensures 64 <= Or64(v) <= 127
  {
  }

  /** The smallest element of a non-empty set. */
  function Min(s: set<int>): (m: int)
    requires s != {}
    ensures m in s && forall x :: x in s ==> m <= x
  {
    MinExists(s);
    var m :| m in s && forall x :: x in s ==> m <= x;
    m
  }

  lemma MinExists(s: set<int>)
    requires s != {}
    ensures exists m :: m in s && forall x :: x in s ==> m <= x
    decreases |s|
  {
    HasElement(s);
    var y :| y in s;
    var t := s - {y};
    if t != {} {
      MinExists(t);
      var m :| m in t && forall x :: x in t ==> m <= x;
      var lo := if y < m then y else m;
      forall x | x in s ensures lo <= x { if x != y { assert x in t; } }
      assert lo in s;
    } else {
      forall x | x in s ensures y <= x { assert x !in t; }
    }
  }

  lemma HasElement(s: set<int>)
    requires s != {}
    ensures exists y :: y in s
  {
    if !exists y :: y in s { EmptyIfNoMember(s); }
  }

  lemma EmptyIfNoMember(s: set<int>)
    requires forall y :: y !in s
    ensures s == {}
  {
    var e: set<int> := {};
    assert forall y :: y in s <==> y in e;
  }

  /** The elements of a set in ascending order (the order a for-in loop
      visits integer-like keys). */
  function Ascending(s: set<int>): (r: seq<int>)
    ensures |r| == |s|
    ensures forall x :: x in s <==> x in r
    ensures Increasing(r)
    decreases |s|
  {
    if s == {} then []
    else
      var m := Min(s);
      var rest := Ascending(s - {m});
      PrependLeast(s, m, rest);
      [m] + rest
  }

  predicate Increasing(r: seq<int>) {
    forall i, j :: 0 <= i < j < |r| ==> r[i] < r[j]
  }

  /** The least element followed by the rest in order lists the set in
      order. */
  lemma PrependLeast(s: set<int>, m: int, rest: seq<int>)
    requires m in s && forall x :: x in s ==> m <= x
    requires |rest| == |s - {m}| && Increasing(rest)
    requires forall x :: x in s - {m} <==> x in rest
    ensures |[m] + rest| == |s| && Increasing([m] + rest)
    ensures forall x :: x in s <==> x in [m] + rest
  {
    var r := [m] + rest;
    forall i, j | 0 <= i < j < |r| ensures r[i] < r[j] {
      if i == 0 {
        assert r[j] == rest[j - 1] && rest[j - 1] in rest;
      } else {
        assert r[i] == rest[i - 1] && r[j] == rest[j - 1];
      }
    }
  }

  /** The notes released under the pedal and not struck again. */
  function Released(m: map<int, int>): set<int> {
    set k | k in m && m[k] == 1
  }

  /** One release message per note, at velocity 64. */
  function Releases(notes: seq<int>): (r: seq<Post>)
    ensures |r| == |notes|
    ensures forall i :: 0 <= i < |notes| ==> r[i] == NoteOffPost(notes[i], 64)
  {
    seq(|notes|, i requires 0 <= i < |notes| => NoteOffPost(notes[i], 64))
  }

  // ------------------------------------------------------------ note events

  /** noteOff: with the pedal up the release is posted; with it down the
      note is recorded as released and nothing is posted. */
  function NoteOff(n: Node, noteNumber: int, velocity: int): (r: Node)
    ensures n.sustained.None? ==> r == n.(log := n.log + [NoteOffPost(noteNumber, velocity)])
    ensures n.sustained.Some? ==>
      r.log == n.log && r.sustained == Some(n.sustained.value[noteNumber := 1])
  {
    if n.sustained.None? then n.(log := n.log + [NoteOffPost(noteNumber, velocity)])
    else n.(sustained := Some(n.sustained.value[noteNumber := 1]))
  }

  /** The outcome of noteOn as written: the node after it, and whether it
      stopped with a TypeError. */
  datatype Outcome = Outcome(node: Node, failed: bool)

  /** noteOn as written: velocity 0 is a release at velocity 64; otherwise
      the note is posted with bit 6 of its velocity set and then its entry in
      the sustained-note map is cleared, which fails when the pedal is up
      (the map is null). */
  function NoteOnAsWritten(n: Node, noteNumber: int, velocity: int): (o: Outcome)
    ensures velocity == 0 ==> o == Outcome(NoteOff(n, noteNumber, 64), false)
    ensures velocity != 0 ==> o.node.log == n.log + [NoteOnPost(noteNumber, Or64(velocity))]
    ensures velocity != 0 ==> (o.failed <==> n.sustained.None?)
  {
    if velocity != 0 then
      var posted := n.(log := n.log + [NoteOnPost(noteNumber, Or64(velocity))]);
      if posted.sustained.None? then Outcome(posted, true)
      else Outcome(posted.(sustained := Some(posted.sustained.value[noteNumber := 0])), false)
    else Outcome(NoteOff(n, noteNumber, 64), false)
  }

  /** With the pedal up, every struck note fails after posting: the
      sustained map is written before any pedal created it. */
  lemma NoteOnAsWrittenFailsWithPedalUp(noteNumber: int, velocity: int)
    requires velocity != 0
    ensures NoteOnAsWritten(New(), noteNumber, velocity).failed
  {
  }

  /** noteOn as evidently intended: the entry is cleared only when the pedal
      is down. */
  function NoteOn(n: Node, noteNumber: int, velocity: int): (r: Node)
    ensures velocity == 0 ==> r == NoteOff(n, noteNumber, 64)
    ensures velocity != 0 ==> r.log == n.log + [NoteOnPost(noteNumber, Or64(velocity))]
    ensures velocity != 0 ==> r.sustained.None? == n.sustained.None?
    ensures velocity != 0 && n.sustained.Some? ==> r.sustained == Some(n.sustained.value[noteNumber := 0])
  {
    if velocity != 0 then
      var posted := n.(log := n.log + [NoteOnPost(noteNumber, Or64(velocity))]);
      if posted.sustained.None? then posted
      else posted.(sustained := Some(posted.sustained.value[noteNumber := 0]))
    else NoteOff(n, noteNumber, 64)
  }

  /** Where the as-written noteOn does not fail, it is the corrected one. */
  lemma NoteOnAgreesWhenPedalDown(n: Node, noteNumber: int, velocity: int)
    ensures !NoteOnAsWritten(n, noteNumber, velocity).failed ==>
      NoteOnAsWritten(n, noteNumber, velocity).node == NoteOn(n, noteNumber, velocity)
  {
  }

  /** pitchBend: post the value. */
  function PitchBend(n: Node, value: real): (r: Node)
    ensures r.sustained == n.sustained && r.log == n.log + [PitchBendPost(value)]
  {
    n.(log := n.log + [PitchBendPost(value)])
  }

  // ------------------------------------------------------------ the pedal

  /** sustainPedalOn: start an empty map, unless one exists. */
  function PedalOn(n: Node): (r: Node)
    ensures r.log == n.log && r.sustained.Some?
    ensures n.sustained.Some? ==> r == n
    ensures n.sustained.None? ==> r.sustained == Some(map[])
  {
    if n.sustained.None? then n.(sustained := Some(map[])) else n
  }

  /** The drain loop: noteOff at velocity 64 for every key recorded as 1,
      in key order. */
  function Drain(n: Node, keys: seq<int>, m: map<int, int>): (r: Node)
    requires forall i :: 0 <= i < |keys| ==> keys[i] in m
    decreases |keys|
  {
    if keys == [] then n
    else
      var k := keys[0];
      Drain(if m[k] == 1 then NoteOff(n, k, 64) else n, keys[1..], m)
  }

  /** The notes of `keys` recorded as released, in order. */
  function Filter(keys: seq<int>, m: map<int, int>): seq<int>
    requires forall i :: 0 <= i < |keys| ==> keys[i] in m
    decreases |keys|
  {
    if keys == [] then []
    else if m[keys[0]] == 1 then [keys[0]] + Filter(keys[1..], m)
    else Filter(keys[1..], m)
  }

  /** With the pedal up the drain posts one release per recorded note and
      leaves the pedal up. */
  lemma {:induction false} DrainPosts(n: Node, keys: seq<int>, m: map<int, int>)
    requires forall i :: 0 <= i < |keys| ==> keys[i] in m
    requires n.sustained.None?
    ensures Drain(n, keys, m) == n.(log := n.log + Releases(Filter(keys, m)))
    decreases |keys|
  {
    if keys != [] {
      var k := keys[0];
      var n' := if m[k] == 1 then NoteOff(n, k, 64) else n;
      DrainPosts(n', keys[1..], m);
      if m[k] == 1 {
        assert Releases(Filter(keys, m)) == [NoteOffPost(k, 64)] + Releases(Filter(keys[1..], m));
      }
    } else {
      assert n.log + [] == n.log;
    }
  }

  /** Filtering keeps exactly the recorded keys. */
  lemma {:induction false} FilterMembers(keys: seq<int>, m: map<int, int>)
    requires forall i :: 0 <= i < |keys| ==> keys[i] in m
    ensures forall x :: x in Filter(keys, m) <==> x in keys && m[x] == 1
    decreases |keys|
  {
    if keys != [] {
      FilterMembers(keys[1..], m);
      assert keys == [keys[0]] + keys[1..];
    }
  }

  /** Filtering an increasing sequence keeps it increasing. */
  lemma {:induction false} FilterIncreasing(keys: seq<int>, m: map<int, int>)
    requires forall i :: 0 <= i < |keys| ==> keys[i] in m
    requires Increasing(keys)
    ensures Increasing(Filter(keys, m))
    decreases |keys|
  {
    if keys != [] && m[keys[0]] == 1 {
      var rest := keys[1..];
      FilterIncreasing(rest, m);
      FilterMembers(rest, m);
      var f := Filter(rest, m);
      var r := [keys[0]] + f;
      assert Filter(keys, m) == r;
      forall i, j | 0 <= i < j < |r| ensures r[i] < r[j] {
        if i == 0 {
          assert r[j] == f[j - 1] && f[j - 1] in f;
          var k :| 0 <= k < |rest| && rest[k] == r[j];
          assert keys[k + 1] == r[j];
        } else {
          assert r[i] == f[i - 1] && r[j] == f[j - 1];
        }
      }
    } else if keys != [] {
      FilterIncreasing(keys[1..], m);
    }
  }

  /** The head of an increasing sequence is its least element. */
  lemma HeadIsLeast(a: seq<int>)
    requires Increasing(a) && a != []
    ensures forall x :: x in a ==> a[0] <= x
  {
    forall x | x in a ensures a[0] <= x {
      var j :| 0 <= j < |a| && a[j] == x;
      assert j == 0 || a[0] < a[j];
    }
  }

  /** Two increasing sequences with the same elements are equal. */
  lemma {:induction false} IncreasingUnique(a: seq<int>, b: seq<int>)
    requires Increasing(a) && Increasing(b)
    requires forall x :: x in a <==> x in b
    ensures a == b
    decreases |a|
  {
    assert a == [] <==> b == [] by {
      if a != [] { assert a[0] in a; }
      if b != [] { assert b[0] in b; }
    }
    if a != [] {
      assert a[0] in a && b[0] in b;
      HeadIsLeast(a);
      HeadIsLeast(b);
      assert a[0] == b[0];
      forall x ensures x in a[1..] <==> x in b[1..] {
        if x in a[1..] {
          var j :| 1 <= j < |a| && a[j] == x;
          assert x in b && x != b[0];
          var k :| 0 <= k < |b| && b[k] == x;
          assert b[1..][k - 1] == x;
        }
        if x in b[1..] {
          var j :| 1 <= j < |b| && b[j] == x;
          assert x in a && x != a[0];
          var k :| 0 <= k < |a| && a[k] == x;
          assert a[1..][k - 1] == x;
        }
      }
      IncreasingUnique(a[1..], b[1..]);
      assert a == [a[0]] + a[1..];
      assert b == [b[0]] + b[1..];
    }
  }

  /** Filtering the ascending keys gives the ascending released notes. */
  lemma FilterAscending(m: map<int, int>)
    ensures Filter(Ascending(m.Keys), m) == Ascending(Released(m))
  {
    var keys := Ascending(m.Keys);
    FilterMembers(keys, m);
    FilterIncreasing(keys, m);
    IncreasingUnique(Filter(keys, m), Ascending(Released(m)));
  }

  /** sustainPedalOff: lift the pedal (the map becomes null) and then post
      a release at velocity 64 for every note recorded as released, in
      ascending note order, exactly once each. */
  function PedalOff(n: Node): (r: Node)
    ensures r.sustained.None?
    ensures n.sustained.None? ==> r == n
    ensures n.sustained.Some? ==> r.log == n.log + Releases(Ascending(Released(n.sustained.value)))
  {
    if n.sustained.None? then n
    else
      var m := n.sustained.value;
      var up := n.(sustained := None);
      DrainReleases(up, m);
      Drain(up, Ascending(m.Keys), m)
  }

  /** The drain over every key in ascending order posts the ascending
      released notes. */
  lemma DrainReleases(up: Node, m: map<int, int>)
    requires up.sustained.None?
    ensures Drain(up, Ascending(m.Keys), m) == up.(log := up.log + Releases(Ascending(Released(m))))
  {
    var keys := Ascending(m.Keys);
    DrainPosts(up, keys, m);
    FilterAscending(m);
  }

  /** Pressing the pedal twice is pressing it once. */
  lemma PedalOnIdempotent(n: Node)
    ensures PedalOn(PedalOn(n)) == PedalOn(n)
  {
  }

  /** Under the pedal, releasing a note twice records it once. */
  lemma RepeatedReleaseRecordedOnce(n: Node, noteNumber: int, v1: int, v2: int)
    requires n.sustained.Some?
    ensures NoteOff(NoteOff(n, noteNumber, v1), noteNumber, v2) == NoteOff(n, noteNumber, v1)
  {
    var m := n.sustained.value;
    assert m[noteNumber := 1][noteNumber := 1] == m[noteNumber := 1];
  }

  /** Pedal down, a note released, pedal up: the release is posted when the
      pedal lifts, at velocity 64, and nothing else. */
  lemma PedalDefersRelease(n: Node, noteNumber: int, velocity: int)
    requires n.sustained.None?
    ensures PedalOff(NoteOff(PedalOn(n), noteNumber, velocity)).log == n.log + [NoteOffPost(noteNumber, 64)]
  {
    var m: map<int, int> := map[noteNumber := 1];
    assert Released(m) == {noteNumber};
    var a := Ascending({noteNumber});
    assert |a| == 1 && noteNumber in a;
  }

  /** A note struck again under the pedal is not released when the pedal
      lifts. */
  lemma RestruckNoteSurvivesPedal(n: Node, noteNumber: int, velocity: int)
    requires n.sustained.Some? && velocity != 0
    ensures var r := PedalOff(NoteOn(NoteOff(n, noteNumber, 64), noteNumber, velocity));
      && r.log[..|n.log| + 1] == n.log + [NoteOnPost(noteNumber, Or64(velocity))]
      && forall i :: |n.log| + 1 <= i < |r.log| ==> r.log[i] != NoteOffPost(noteNumber, 64)
  {
    var m := n.sustained.value[noteNumber := 1][noteNumber := 0];
    var on := NoteOn(NoteOff(n, noteNumber, 64), noteNumber, velocity);
    assert on.sustained == Some(m);
    assert noteNumber !in Released(m);
    var a := Ascending(Released(m));
    assert noteNumber !in a;
    var head := n.log + [NoteOnPost(noteNumber, Or64(velocity))];
    var r := PedalOff(on);
    assert r.log == head + Releases(a);
    forall i | |head| <= i < |r.log|
      ensures r.log[i] != NoteOffPost(noteNumber, 64)
    {
      assert r.log[i] == Releases(a)[i - |head|];
      assert a[i - |head|] in a;
    }
  }

  // ------------------------------------------------------ control changes

  /** shutdownAll: post it and drop the sustained notes without releasing
      them. */
  function ShutdownAll(n: Node): (r: Node)
    ensures r.sustained.None? && r.log == n.log + [ShutdownAllPost]
  {
    n.(log := n.log + [ShutdownAllPost], sustained := None)
  }

  /** controlChange: 64 is the sustain pedal (down at 64 and above), 123 is
      all-notes-off; any other controller is posted. */
  function ControlChange(n: Node, controlNumber: int, value: int): (r: Node)
    ensures controlNumber == 64 && value >= 64 ==> r == PedalOn(n)
    ensures controlNumber == 64 && value < 64 ==> r == PedalOff(n)
    ensures controlNumber == 123 ==> r == ShutdownAll(n)
    ensures controlNumber != 64 && controlNumber != 123 ==>
      r == n.(log := n.log + [ControlChangePost(controlNumber, value)])
  {
    if controlNumber == 64 then (if value >= 64 then PedalOn(n) else PedalOff(n))
    else if controlNumber == 123 then ShutdownAll(n)
    else n.(log := n.log + [ControlChangePost(controlNumber, value)])
  }

  // ------------------------------------------------------------ MIDI input

  /** The pitch-bend value of a bend event's two data bytes (least
      significant first): ((msb << 7) + lsb) / 8192 - 1. */
  function Bend(lsb: int, msb: int): (v: real)
    ensures 0 <= lsb < 128 && 0 <= msb < 128 ==> -1.0 <= v < 1.0
    ensures lsb == 0 && msb == 64 ==> v == 0.0
  {
    (msb * 128 + lsb) as real / 8192.0 - 1.0
  }

  /** Distinct 7-bit byte pairs give distinct bend values. */
  lemma BendInjective(l1: int, m1: int, l2: int, m2: int)
    requires 0 <= l1 < 128 && 0 <= m1 < 128 && 0 <= l2 < 128 && 0 <= m2 < 128
    ensures Bend(l1, m1) == Bend(l2, m2) <==> l1 == l2 && m1 == m2
  {
    if Bend(l1, m1) == Bend(l2, m2) {
      assert m1 * 128 + l1 == m2 * 128 + l2;
    }
  }

  /** The message type: the status byte's high nibble. */
  function MessageType(status: int): (t: int)
    requires 0 <= status < 256
    ensures 0 <= t < 16 && t * 16 <= status < t * 16 + 16
  {
    status / 16
  }

  /** A MIDI event: bytes, with two data bytes after the status byte of the
      four types the node handles. */
  predicate WellFormed(data: seq<int>) {
    && |data| >= 1
    && (forall i :: 0 <= i < |data| ==> 0 <= data[i] < 256)
    && (MessageType(data[0]) in {8, 9, 11, 14} ==> |data| >= 3)
  }

  /** onMidiMessage: note off (8), note on (9), control change (11) and
      pitch bend (14) go to their handlers; any other type is posted as is. */
  function OnMidiMessage(n: Node, data: seq<int>): (r: Node)
    requires WellFormed(data)
    ensures MessageType(data[0]) == 8 ==> r == NoteOff(n, data[1], data[2])
    ensures MessageType(data[0]) == 9 ==> r == NoteOn(n, data[1], data[2])
    ensures MessageType(data[0]) == 11 ==> r == ControlChange(n, data[1], data[2])
    ensures MessageType(data[0]) == 14 ==> r == PitchBend(n, Bend(data[1], data[2]))
    ensures MessageType(data[0]) !in {8, 9, 11, 14} ==> r == n.(log := n.log + [MidiMessagePost(data)])
  {
    match MessageType(data[0])
    case 8 => NoteOff(n, data[1], data[2])
    case 9 => NoteOn(n, data[1], data[2])
    case 11 => ControlChange(n, data[1], data[2])
    case 14 => PitchBend(n, Bend(data[1], data[2]))
    case _ => n.(log := n.log + [MidiMessagePost(data)])
  }

  /** A note-on event with velocity 0 is a note-off at velocity 64. */
  lemma ZeroVelocityNoteOnIsNoteOff(n: Node, channel: int, noteNumber: int)
    requires 0 <= channel < 16 && 0 <= noteNumber < 128
    ensures OnMidiMessage(n, [0x90 + channel, noteNumber, 0]) == OnMidiMessage(n, [0x80 + channel, noteNumber, 64])
  {
    assert MessageType(0x90 + channel) == 9;
    assert MessageType(0x80 + channel) == 8;
  }
}
