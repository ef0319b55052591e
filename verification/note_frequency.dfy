/** convertNoteNumberToFrequency: fold the note number into [0, 120) by
    whole 120-semitone blocks (a factor 1024 each), then multiply the
    frequency of note 0 by the note-table entry of the integral part and,
    for a fractional part, by the cent-table entry. The tables hold the
    powers 2^(i/12) and 2^(i/1200); their construction uses `Math.pow` and
    is outside the model, so they are parameters. */
module NoteFrequency {
  import opened Wrappers
  import opened Numeric
  import opened Lookup

  /** Frequency of MIDI note 0 in Hz. */
  const BaseFrequency: real := 8.175798915644

  const NoteTableLength: nat := 121
  const CentTableLength: nat := 101

  predicate Tables(noteTable: seq<real>, centTable: seq<real>) {
    |noteTable| == NoteTableLength && |centTable| == CentTableLength
  }

  /** 1024 to the integer power k. */
  function Pow1024(k: int): real
    decreases if k >= 0 then k else -k
  {
    if k == 0 then 1.0
    else if k > 0 then 1024.0 * Pow1024(k - 1)
    else Pow1024(k + 1) / 1024.0
  }

  lemma Pow1024Step(k: int)
    ensures Pow1024(k + 1) == 1024.0 * Pow1024(k)
  {
  }

  /** The number of whole 120-note blocks the folding removes. */
  function Octaves(n: real): int {
    (n / 120.0).Floor
  }

  /** The block count is the only one that lands the note in [0, 120). */
  lemma OctavesUnique(n: real, k: int)
    requires 0.0 <= n - 120.0 * k as real < 120.0
    ensures k == Octaves(n)
  {
    assert k as real <= n / 120.0 < k as real + 1.0;
  }

  /** The note number after folding. */
  function Folded(n: real): (f: real)
    ensures 0.0 <= f < 120.0
  {
    var k := Octaves(n);
    assert k as real <= n / 120.0 < k as real + 1.0;
    n - 120.0 * k as real
  }

  /** The two folding loops of the source. */
  method Fold(noteNumber: real) returns (note: real, freq: real)
    ensures 0.0 <= note < 120.0
    ensures note == Folded(noteNumber) && freq == BaseFrequency * Pow1024(Octaves(noteNumber))
  {
    note := noteNumber;
    freq := BaseFrequency;
    ghost var k: int := 0;
    while note >= 120.0
      invariant note == noteNumber - 120.0 * k as real
      invariant freq == BaseFrequency * Pow1024(k)
      invariant k >= 0 || note < 0.0
      decreases note.Floor
    {
      note := note - 120.0;
      Pow1024Step(k);
      freq := freq * 1024.0;
      k := k + 1;
    }
    while note < 0.0
      invariant note == noteNumber - 120.0 * k as real
      invariant freq == BaseFrequency * Pow1024(k)
      invariant note < 120.0
      decreases -note.Floor
    {
      note := note + 120.0;
      Pow1024Step(k - 1);
      freq := freq / 1024.0;
      k := k - 1;
    }
    OctavesUnique(noteNumber, k);
  }

  /** The integral note index and the cent offset of a folded note. */
  function NoteIndex(note: real): int {
    Trunc(note)
  }

  function Cents(note: real): real {
    (note - NoteIndex(note) as real) * 100.0
  }

  /** Both table reads stay inside their tables: the index lies in
      [0, 119] and the cent offset in [0, 100), so neither lookup reaches
      the last position, and the source's lookup agrees with the clamped
      one on both. */
  lemma ReadsInRange(n: real, noteTable: seq<real>, centTable: seq<real>)
    requires Tables(noteTable, centTable)
    ensures var note := Folded(n);
      && 0 <= NoteIndex(note) <= 119
      && 0.0 <= Cents(note) < 100.0
      && LookupAsWritten(NoteIndex(note) as real, noteTable) == Some(noteTable[NoteIndex(note)])
      && LookupAsWritten(Cents(note), centTable) == Some(Lookup.Lookup(Cents(note), centTable))
  {
    var note := Folded(n);
    LookupAtIndex(noteTable, NoteIndex(note));
    LookupAgreesAwayFromEnd(NoteIndex(note) as real, noteTable);
    LookupAgreesAwayFromEnd(Cents(note), centTable);
  }

  /** The frequency for a note number, in closed form. */
  function Frequency(n: real, noteTable: seq<real>, centTable: seq<real>): real
    requires Tables(noteTable, centTable)
  {
    var note := Folded(n);
    var i := NoteIndex(note);
    var cents := Cents(note);
    var f := BaseFrequency * Pow1024(Octaves(n)) * Lookup.Lookup(i as real, noteTable);
    if cents != 0.0 then f * Lookup.Lookup(cents, centTable) else f
  }

  /** convertNoteNumberToFrequency, step by step as the source does it. */
  method ConvertNoteNumberToFrequency(noteNumber: real, noteTable: seq<real>, centTable: seq<real>) returns (freq: real)
    requires Tables(noteTable, centTable)
    ensures freq == Frequency(noteNumber, noteTable, centTable)
    ensures Cents(Folded(noteNumber)) == 0.0 ==>
      freq == BaseFrequency * Pow1024(Octaves(noteNumber)) * noteTable[NoteIndex(Folded(noteNumber))]
  {
    var note;
    note, freq := Fold(noteNumber);
    ReadsInRange(noteNumber, noteTable, centTable);
    var noteNumberInt := Trunc(note);
    freq := freq * LookupAsWritten(noteNumberInt as real, noteTable).value;
    var cents := (note - noteNumberInt as real) * 100.0;
    if cents != 0.0 {
      freq := freq * LookupAsWritten(cents, centTable).value;
    }
  }

  /** One more block of 120 notes multiplies the frequency by 1024. */
  lemma OctaveBlockShift(n: real, noteTable: seq<real>, centTable: seq<real>)
    requires Tables(noteTable, centTable)
    ensures Frequency(n + 120.0, noteTable, centTable) == 1024.0 * Frequency(n, noteTable, centTable)
  {
    var k := Octaves(n);
    assert k as real <= n / 120.0 < k as real + 1.0;
    OctavesUnique(n + 120.0, k + 1);
    assert Folded(n + 120.0) == Folded(n);
    Pow1024Step(k);
  }

  /** With the note table starting at 1, note 0 is the base frequency. */
  lemma NoteZeroIsBase(noteTable: seq<real>, centTable: seq<real>)
    requires Tables(noteTable, centTable) && noteTable[0] == 1.0
    ensures Frequency(0.0, noteTable, centTable) == BaseFrequency
  {
    OctavesUnique(0.0, 0);
  }
}
