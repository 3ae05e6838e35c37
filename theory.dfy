/** Pitch-class arithmetic: the table of twelve note names, the interval
    table, and the resolution of a note plus an interval (or a raw number of
    semitones) to another note, wrapping around the octave. */
module Theory {
  import opened LexOrder

  /** The fatal conditions of the source: `unwrap` on a note name that the
      table does not hold, and the `Unknown interval` panic. */
  datatype Error = UnknownNote(note: string) | UnknownInterval(interval: string)

  datatype Result<T> = Ok(value: T) | Err(error: Error)

  /** The twelve pitch classes, sharp spelling, in chromatic order from A. */
  const NOTES: seq<string> := ["A", "A#", "B", "C", "C#", "D", "D#", "E", "F", "F#", "G", "G#"]

  /** The interval names, in the order the cards are generated. */
  const INTERVALS: seq<string> := ["third", "fifth", "seventh", "ninth", "eleventh", "thirteenth"]

  datatype Interval = Third | Fifth | Seventh | Ninth | Eleventh | Thirteenth

  /** The intervals in the same order as their names in `INTERVALS`. */
  const ALL_INTERVALS: seq<Interval> := [Third, Fifth, Seventh, Ninth, Eleventh, Thirteenth]

  /** Semitone distance of each interval: from a third (4) to a thirteenth
      (19), always one more than a multiple of three. */
  function Semitones(i: Interval): (r: nat)
    ensures 4 <= r <= 19 && r % 3 == 1
  {
    match i
    case Third => 4
    case Fifth => 7
    case Seventh => 10
    case Ninth => 13
    case Eleventh => 16
    case Thirteenth => 19
  }

  /** The interval table, listed in `INTERVALS` order: the distances go up
      by three semitones from a major third (4) to a thirteenth (19). */
  lemma SemitoneTable()
    ensures |ALL_INTERVALS| == |INTERVALS|
    ensures forall j :: 0 <= j < |ALL_INTERVALS| ==> Semitones(ALL_INTERVALS[j]) == 4 + 3 * j
  {
  }

  /** `j` is the position of `name` in `INTERVALS`. */
  predicate IsIntervalIndex(j: int, name: string) {
    0 <= j < |INTERVALS| && INTERVALS[j] == name
  }

  /** The lookup `semitones_in_intervals.get(interval)`, with the panic on a
      missing key as an error. */
  function IntervalNamed(name: string): (r: Result<Interval>)
    ensures name !in INTERVALS ==> r == Err(UnknownInterval(name))
    ensures forall j :: IsIntervalIndex(j, name) ==> r == Ok(ALL_INTERVALS[j])
  {
    if name == "third" then Ok(Third)
    else if name == "fifth" then Ok(Fifth)
    else if name == "seventh" then Ok(Seventh)
    else if name == "ninth" then Ok(Ninth)
    else if name == "eleventh" then Ok(Eleventh)
    else if name == "thirteenth" then Ok(Thirteenth)
    else Err(UnknownInterval(name))
  }

  /** The note table is in strictly increasing lexicographic order, which
      is what lets a binary search find a name in it. */
  lemma NotesSorted()
    ensures StrictlySorted(NOTES)
  {
    assert ChainSorted(NOTES) by {
      forall i | 0 <= i < |NOTES| - 1 ensures Before(NOTES[i], NOTES[i + 1]) {
        assert NOTES[i][0] < NOTES[i + 1][0] || NOTES[i][0] == NOTES[i + 1][0];
      }
    }
    ChainIsStrictlySorted(NOTES);
  }

  /** The pitch class `k` semitones above A. */
  function NoteAt(k: nat): string {
    NOTES[k % |NOTES|]
  }

  /** Within the first octave `NoteAt` reads the table directly, and it
      repeats every twelve semitones. */
  lemma NoteAtTable(k: nat)
    requires k < |NOTES|
    ensures NoteAt(k) == NOTES[k]
  {
    assert k % 12 == k;
  }

  lemma NoteAtOctave(k: nat)
    ensures NoteAt(k + 12) == NoteAt(k)
  {
    assert (k + 12) % 12 == k % 12;
  }

  /** Reducing a number modulo twelve before adding does not change the
      sum modulo twelve. */
  lemma ModTwelveShift(x: nat, b: nat)
    ensures (x % 12 + b) % 12 == (x + b) % 12
  {
    assert x + b == (x % 12 + b) + 12 * (x / 12);
  }

  /** Reducing a position to its pitch class first does not change where a
      further move lands. */
  lemma NoteAtShift(i: nat, a: nat, b: nat)
    ensures NoteAt((i + a) % |NOTES| + b) == NoteAt(i + (a + b))
  {
    ModTwelveShift(i + a, b);
  }

  /** `i` is the chromatic index of `note`: its position in `NOTES`. */
  predicate IsIndexOf(i: int, note: string) {
    0 <= i < |NOTES| && NOTES[i] == note
  }

  /** `note` is one of the twelve names: it has a chromatic index. */
  ghost predicate IsNote(note: string) {
    exists i :: IsIndexOf(i, note)
  }

  /** Having an index is being in the table. */
  lemma IsNoteInTable(note: string)
    ensures IsNote(note) <==> note in NOTES
  {
    if note in NOTES {
      var i :| 0 <= i < |NOTES| && NOTES[i] == note;
      assert IsIndexOf(i, note);
    }
  }

  /** `NOTES.binary_search(&note).unwrap()`: the chromatic index of a note
      name, or the error `unwrap` raises for any other string. */
  function IndexOf(note: string): (r: Result<nat>)
    ensures r.Ok? ==> IsIndexOf(r.value, note)
    ensures !IsNote(note) ==> r == Err(UnknownNote(note))
    ensures forall i :: IsIndexOf(i, note) ==> r == Ok(i)
  {
    NotesSorted();
    match BinarySearch(NOTES, note)
    case Found(i) =>
      assert forall j :: 0 <= j < |NOTES| && NOTES[j] == note ==> j == i by {
        forall j | 0 <= j < |NOTES| && NOTES[j] == note ensures j == i {
          if j < i || i < j { BeforeIrreflexive(note); }
        }
      }
      assert IsIndexOf(i, note);
      Ok(i)
    case NotFound(_) =>
      IsNoteInTable(note);
      Err(UnknownNote(note))
  }

  /** A note name has only one chromatic index. */
  lemma IndexUnique(i: int, j: int, note: string)
    requires IsIndexOf(i, note) && IsIndexOf(j, note)
    ensures i == j
  {
    var r := IndexOf(note);
  }

  /** `NOTES.len() - 1`, the bound the source compares against. */
  const MAX: nat := 11

  /** The source's wrap-around: a target up to `MAX` is used as it is, a
      larger one is reduced modulo 12. Both branches agree with `% 12`. */
  function WrapIndex(target: nat): (r: nat)
    ensures r == target % |NOTES|
    ensures r < |NOTES|
  {
    match CompareNat(target, MAX)
    case Less => target
    case Equal => target
    case Greater => target % |NOTES|
  }

  /** `get_relative_note`: the note `semitonesToAdd` semitones above `note`. */
  function RelativeNote(note: string, semitonesToAdd: nat): (r: Result<string>)
    ensures !IsNote(note) ==> r == Err(UnknownNote(note))
    ensures forall i :: IsIndexOf(i, note) ==> r == Ok(NoteAt(i + semitonesToAdd))
  {
    match IndexOf(note)
    case Err(e) => Err(e)
    case Ok(index) => Ok(NOTES[WrapIndex(index + semitonesToAdd)])
  }

  /** A move is the note's own index moved up, or the lookup's error. */
  lemma RelativeNoteByIndex(note: string, semitonesToAdd: nat)
    ensures IndexOf(note).Err? ==> RelativeNote(note, semitonesToAdd) == Err(UnknownNote(note))
    ensures IndexOf(note).Ok? ==>
              RelativeNote(note, semitonesToAdd) == Ok(NoteAt(IndexOf(note).value + semitonesToAdd))
  {
  }

  /** `get_relative_interval`: the note a named interval above `note`. The
      interval name is looked up first, so an unknown interval is reported
      even when the note is unknown too. */
  function RelativeInterval(note: string, interval: string): (r: Result<string>)
    ensures interval !in INTERVALS ==> r == Err(UnknownInterval(interval))
    ensures forall j :: IsIntervalIndex(j, interval) ==> r == RelativeNote(note, Semitones(ALL_INTERVALS[j]))
  {
    match IntervalNamed(interval)
    case Err(e) => Err(e)
    case Ok(semitones) =>
      match IndexOf(note)
      case Err(e) => Err(e)
      case Ok(index) => Ok(NOTES[WrapIndex(index + Semitones(semitones))])
  }

  /** A table note and a table interval always have an answer: the note at
      index `n` moved up by the interval's semitones. This is why the card
      loop over both tables never fails. */
  lemma RelativeIntervalAtIndex(n: nat, j: nat)
    requires n < |NOTES| && j < |INTERVALS|
    ensures RelativeInterval(NOTES[n], INTERVALS[j]) == Ok(NoteAt(n + Semitones(ALL_INTERVALS[j])))
  {
    assert IsIndexOf(n, NOTES[n]) && IsIntervalIndex(j, INTERVALS[j]);
  }

  /** Moving by zero semitones stays on the note. */
  lemma RelativeNoteIdentity(note: string)
    requires note in NOTES
    ensures RelativeNote(note, 0) == Ok(note)
  {
    var i :| 0 <= i < |NOTES| && NOTES[i] == note;
    assert IsIndexOf(i, note);
  }

  /** Moving by an octave more lands on the same pitch class; this holds for
      unknown names too, which fail the same way. */
  lemma RelativeNotePeriodic(note: string, k: nat)
    ensures RelativeNote(note, k + 12) == RelativeNote(note, k)
  {
    if note in NOTES {
      var i :| 0 <= i < |NOTES| && NOTES[i] == note;
      assert IsIndexOf(i, note);
      assert (i + k + 12) % 12 == (i + k) % 12;
    }
  }

  /** Moving the note at chromatic index `i`. */
  lemma RelativeNoteAtIndex(i: nat, k: nat)
    requires i < |NOTES|
    ensures RelativeNote(NOTES[i], k) == Ok(NoteAt(i + k))
  {
    assert IsIndexOf(i, NOTES[i]);
  }

  /** Two moves in a row are one move by the sum: moving on from where a
      first move landed is moving the original note by both amounts. */
  lemma RelativeNoteCompose(note: string, a: nat, b: nat, mid: string)
    requires RelativeNote(note, a) == Ok(mid)
    ensures RelativeNote(mid, b) == RelativeNote(note, a + b)
  {
    RelativeNoteByIndex(note, a);
    var i := IndexOf(note).value;
    calc {
      RelativeNote(mid, b);
      == { assert mid == NoteAt(i + a); }
      RelativeNote(NoteAt(i + a), b);
      == { RelativeNoteAfterMove(i, a, b); }
      Ok(NoteAt(i + (a + b)));
      == { RelativeNoteByIndex(note, a + b); }
      RelativeNote(note, a + b);
    }
  }

  /** Moving on from the note `a` semitones above index `i`. */
  lemma RelativeNoteAfterMove(i: nat, a: nat, b: nat)
    ensures RelativeNote(NoteAt(i + a), b) == Ok(NoteAt(i + (a + b)))
  {
    var m := (i + a) % |NOTES|;
    calc {
      RelativeNote(NoteAt(i + a), b);
      == { RelativeNoteAtIndex(m, b); }
      Ok(NoteAt(m + b));
      == { NoteAtShift(i, a, b); }
      Ok(NoteAt(i + (a + b)));
    }
  }

  /** Every result of a move is one of the twelve note names. */
  lemma RelativeNoteInTable(note: string, k: nat)
    requires note in NOTES
    ensures RelativeNote(note, k).Ok? && RelativeNote(note, k).value in NOTES
  {
    var i :| 0 <= i < |NOTES| && NOTES[i] == note;
    assert IsIndexOf(i, note);
  }

  /** The third and the fifth of C stay inside the table. */
  lemma IntervalsOfC()
    ensures RelativeInterval("C", "third") == Ok("E")
    ensures RelativeInterval("C", "fifth") == Ok("G")
  {
    assert IsIndexOf(3, "C");
    assert IsIntervalIndex(0, "third") && IsIntervalIndex(1, "fifth");
  }

  /** The seventh and the thirteenth of C run past G# and wrap around. */
  lemma WrappingIntervalsOfC()
    ensures RelativeInterval("C", "seventh") == Ok("A#")
    ensures RelativeInterval("C", "thirteenth") == Ok("G")
  {
    assert IsIndexOf(3, "C");
    assert IsIntervalIndex(2, "seventh") && IsIntervalIndex(5, "thirteenth");
    NoteAtOctave(1);
    NoteAtOctave(10);
  }

  /** Unknown names fail, and the interval is checked before the note. */
  lemma UnknownNames()
    ensures RelativeInterval("C", "second") == Err(UnknownInterval("second"))
    ensures RelativeInterval("Db", "third") == Err(UnknownNote("Db"))
    ensures RelativeInterval("Db", "second") == Err(UnknownInterval("second"))
    ensures RelativeNote("H", 2) == Err(UnknownNote("H"))
  {
    assert "second" !in INTERVALS;
    assert IsIntervalIndex(0, "third");
    assert "Db" !in NOTES by { assert forall i :: 0 <= i < |NOTES| ==> NOTES[i][0] != 'D' || |NOTES[i]| == 1 || NOTES[i][1] != 'b'; }
    assert "H" !in NOTES;
  }
}
