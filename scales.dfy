/** The scale builder: a root note and the whole/half-step pattern of the
    major scale give the eight notes of the scale, the octave included. */
module Scales {
  import opened Theory

  datatype ToneMeasure = Tone | SemiTone

  /** Whole, whole, half, whole, whole, whole, half. */
  const MAJOR_HARMONIC_INTERVALS: seq<ToneMeasure> := [Tone, Tone, SemiTone, Tone, Tone, Tone, SemiTone]

  /** Semitones in one step: a tone is two, a semitone one, so every step
      moves up. */
  function Steps(t: ToneMeasure): (r: nat)
    ensures 1 <= r <= 2
  {
    match t
    case Tone => 2
    case SemiTone => 1
  }

  /** Semitones covered by the first `k` steps of the pattern: the running
      sum `semitones_to_add` holds after `k` turns of the scale loop. */
  function Offset(pattern: seq<ToneMeasure>, k: nat): nat
    requires k <= |pattern|
  {
    if k == 0 then 0 else Offset(pattern, k - 1) + Steps(pattern[k - 1])
  }

  /** Between the `i`-th and the `k`-th running sum the scale climbs by at
      least one and at most two semitones per step, so the running sums
      strictly increase. */
  lemma {:induction false} OffsetSpan(pattern: seq<ToneMeasure>, i: nat, k: nat)
    requires i <= k <= |pattern|
    ensures k - i <= Offset(pattern, k) - Offset(pattern, i) <= 2 * (k - i)
    decreases k
  {
    if i < k {
      OffsetSpan(pattern, i, k - 1);
    }
  }

  /** The first `n + 1` entries of the scale on the pitch class `root`
      semitones above A: the root, then the root moved up by the first one,
      two, ..., `n` steps of the pattern. */
  function ScalePrefix(root: nat, pattern: seq<ToneMeasure>, n: nat): (s: seq<string>)
    requires n <= |pattern|
    ensures |s| == n + 1
  {
    if n == 0 then [NoteAt(root)]
    else ScalePrefix(root, pattern, n - 1) + [NoteAt(root + Offset(pattern, n))]
  }

  /** The whole scale: one entry more than the pattern has steps. */
  function Scale(root: nat, pattern: seq<ToneMeasure>): (s: seq<string>)
    ensures |s| == |pattern| + 1
  {
    ScalePrefix(root, pattern, |pattern|)
  }

  /** One more turn of the scale loop: the running sum grows by the next
      step, and the prefix gains the root moved up by the new sum. */
  lemma ScalePrefixNext(root: nat, pattern: seq<ToneMeasure>, i: nat)
    requires i < |pattern|
    ensures Offset(pattern, i + 1) == Offset(pattern, i) + Steps(pattern[i])
    ensures ScalePrefix(root, pattern, i + 1) == ScalePrefix(root, pattern, i) + [NoteAt(root + Offset(pattern, i + 1))]
  {
  }

  /** Entry `k` of a prefix is the root moved up by the first `k` steps. */
  lemma {:induction false} ScalePrefixAt(root: nat, pattern: seq<ToneMeasure>, n: nat, k: nat)
    requires k <= n <= |pattern|
    ensures ScalePrefix(root, pattern, n)[k] == NoteAt(root + Offset(pattern, k))
    decreases n
  {
    if k < n {
      ScalePrefixAt(root, pattern, n - 1, k);
    }
  }

  /** Entry `k` of a scale is the root moved up by the first `k` steps. */
  lemma ScaleAt(root: nat, pattern: seq<ToneMeasure>, k: nat)
    requires k <= |pattern|
    ensures Scale(root, pattern)[k] == NoteAt(root + Offset(pattern, k))
  {
    ScalePrefixAt(root, pattern, |pattern|, k);
  }

  /** `get_major_harmonic_scale`: an eight-slot array filled with "?" gets
      the root in slot 0, then slot `i + 1` gets the root moved up by the
      running sum of the first `i + 1` steps. An unknown root fails at the
      first move, as the source's `unwrap` does. */
  method MajorHarmonicScale(note: string) returns (r: Result<seq<string>>)
    ensures IndexOf(note).Err? ==> r == Err(UnknownNote(note))
    ensures IndexOf(note).Ok? ==> r == Ok(Scale(IndexOf(note).value, MAJOR_HARMONIC_INTERVALS))
    ensures r.Ok? ==> |r.value| == 8 && r.value[0] == note && r.value[7] == note && "?" !in r.value
  {
    var semitonesToAdd: nat := 0;
    var scale := new string[8](_ => "?");
    scale[0] := note;
    ghost var index := IndexOf(note);
    assert index.Ok? ==> scale[..1] == ScalePrefix(index.value, MAJOR_HARMONIC_INTERVALS, 0) by {
      if index.Ok? {
        NoteAtTable(index.value);
      }
    }
    for i := 0 to |MAJOR_HARMONIC_INTERVALS|
      invariant semitonesToAdd == Offset(MAJOR_HARMONIC_INTERVALS, i)
      invariant i > 0 ==> index.Ok?
      invariant index.Ok? ==> scale[..i + 1] == ScalePrefix(index.value, MAJOR_HARMONIC_INTERVALS, i)
    {
      semitonesToAdd := semitonesToAdd + Steps(MAJOR_HARMONIC_INTERVALS[i]);
      var next := RelativeNote(note, semitonesToAdd);
      RelativeNoteByIndex(note, semitonesToAdd);
      if next.Err? {
        return Err(next.error);
      }
      ghost var done := scale[..i + 1];
      scale[i + 1] := next.value;
      assert scale[..i + 2] == done + [next.value];
      ScalePrefixNext(index.value, MAJOR_HARMONIC_INTERVALS, i);
    }
    assert scale[..8] == scale[..];
    r := Ok(scale[..]);
    if index.Ok? {
      MajorScaleShape(note);
    }
  }

  /** What a caller of `get_major_harmonic_scale` can rely on for a known
      root: eight entries, the root first and last, and no "?" left. */
  lemma MajorScaleShape(note: string)
    requires IndexOf(note).Ok?
    ensures var s := Scale(IndexOf(note).value, MAJOR_HARMONIC_INTERVALS);
      |s| == 8 && s[0] == note && s[7] == note && "?" !in s
  {
    MajorScaleOctave(IndexOf(note).value);
    NoPlaceholder(IndexOf(note).value, MAJOR_HARMONIC_INTERVALS);
  }

  /** Entry `k` of a scale is what `get_relative_note` gives for the running
      step sum: the cumulative-sum invariant of the source's loop. */
  lemma ScaleIsRunningSum(root: nat, pattern: seq<ToneMeasure>, k: nat)
    requires root < |NOTES| && k <= |pattern|
    ensures RelativeNote(NOTES[root], Offset(pattern, k)) == Ok(Scale(root, pattern)[k])
  {
    assert IsIndexOf(root, NOTES[root]);
    ScaleAt(root, pattern, k);
  }

  /** The running step sums of the major pattern: 0 2 4 5 7 9 11 12, so the
      pattern spans exactly one octave. */
  lemma MajorOffsets()
    ensures Offset(MAJOR_HARMONIC_INTERVALS, 0) == 0
    ensures Offset(MAJOR_HARMONIC_INTERVALS, 1) == 2
    ensures Offset(MAJOR_HARMONIC_INTERVALS, 2) == 4
    ensures Offset(MAJOR_HARMONIC_INTERVALS, 3) == 5
    ensures Offset(MAJOR_HARMONIC_INTERVALS, 4) == 7
    ensures Offset(MAJOR_HARMONIC_INTERVALS, 5) == 9
    ensures Offset(MAJOR_HARMONIC_INTERVALS, 6) == 11
    ensures Offset(MAJOR_HARMONIC_INTERVALS, 7) == 12
  {
  }

  /** A major scale, spelled out: the root and the notes 2, 4, 5, 7, 9, 11
      and 12 semitones above it. */
  lemma MajorScaleEntries(root: nat)
    ensures Scale(root, MAJOR_HARMONIC_INTERVALS) ==
              [NoteAt(root), NoteAt(root + 2), NoteAt(root + 4), NoteAt(root + 5),
               NoteAt(root + 7), NoteAt(root + 9), NoteAt(root + 11), NoteAt(root + 12)]
  {
    MajorOffsets();
    var p := MAJOR_HARMONIC_INTERVALS;
    var s := Scale(root, p);
    ScaleAt(root, p, 0); ScaleAt(root, p, 1); ScaleAt(root, p, 2); ScaleAt(root, p, 3);
    ScaleAt(root, p, 4); ScaleAt(root, p, 5); ScaleAt(root, p, 6); ScaleAt(root, p, 7);
    assert s == [s[0], s[1], s[2], s[3], s[4], s[5], s[6], s[7]];
  }

  /** A major scale has eight entries, starts on its root and ends on it
      an octave higher. */
  lemma MajorScaleOctave(root: nat)
    requires root < |NOTES|
    ensures |Scale(root, MAJOR_HARMONIC_INTERVALS)| == 8
    ensures Scale(root, MAJOR_HARMONIC_INTERVALS)[0] == NOTES[root]
    ensures Scale(root, MAJOR_HARMONIC_INTERVALS)[7] == NOTES[root]
  {
    MajorScaleEntries(root);
    NoteAtTable(root);
    NoteAtOctave(root);
  }

  /** No "?" placeholder survives in a built scale: every entry is a name
      from the note table. */
  lemma NoPlaceholder(root: nat, pattern: seq<ToneMeasure>)
    ensures forall k :: 0 <= k < |Scale(root, pattern)| ==> Scale(root, pattern)[k] in NOTES
    ensures "?" !in Scale(root, pattern)
  {
    forall k | 0 <= k < |Scale(root, pattern)| ensures Scale(root, pattern)[k] in NOTES {
      ScaleAt(root, pattern, k);
    }
    assert "?" !in NOTES;
  }

  /** The scale of C: the white keys. "C" sits at index 3, so this is what
      `get_major_harmonic_scale("C")` returns. */
  lemma ScaleOfC()
    ensures IndexOf("C") == Ok(3)
    ensures Scale(3, MAJOR_HARMONIC_INTERVALS) == ["C", "D", "E", "F", "G", "A", "B", "C"]
  {
    assert IsIndexOf(3, "C");
    MajorScaleEntries(3);
  }

  /** The scale of A: three sharps. "A" sits at index 0, so this is what
      `get_major_harmonic_scale("A")` returns. */
  lemma ScaleOfA()
    ensures IndexOf("A") == Ok(0)
    ensures Scale(0, MAJOR_HARMONIC_INTERVALS) == ["A", "B", "C#", "D", "E", "F#", "G#", "A"]
  {
    assert IsIndexOf(0, "A");
    MajorScaleEntries(0);
  }
}
