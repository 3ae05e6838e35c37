/** The two decks the program builds: one card per note and interval name
    ("third of C" / "E"), then one card per note for its major scale
    ("Major harmonic scale of C" / "C D E F G A B C"). A card is the
    (front, back) pair handed to the flashcard exporter. */
module Cards {
  import opened Theory
  import opened Scales

  datatype Card = Card(front: string, back: string)

  /** Cutting a text at every space: the reading of a joined answer. */
  function Split(s: string): (r: seq<string>)
    ensures |r| > 0
    decreases |s|
  {
    if s == [] then [""]
    else if s[0] == ' ' then [""] + Split(s[1..])
    else
      var rest := Split(s[1..]);
      [[s[0]] + rest[0]] + rest[1..]
  }

  /** A word without spaces splits into itself. */
  lemma {:induction false} SplitWord(w: string)
    ensures ' ' !in w ==> Split(w) == [w]
    decreases |w|
  {
    if w != [] && ' ' !in w {
      assert ' ' !in w[1..] by {
        forall k | 0 <= k < |w[1..]| ensures w[1..][k] != ' ' {
          assert w[1..][k] == w[k + 1];
        }
      }
      SplitWord(w[1..]);
      assert [w[0]] + w[1..] == w;
    }
  }

  /** A word without spaces followed by a space splits off as one part. */
  lemma {:induction false} SplitFirst(w: string, t: string)
    ensures ' ' !in w ==> Split(w + " " + t) == [w] + Split(t)
    decreases |w|
  {
    if ' ' !in w && w == [] {
      assert w + " " + t == [' '] + t;
      assert (w + " " + t)[1..] == t;
    } else if ' ' !in w {
      assert ' ' !in w[1..] by {
        forall k | 0 <= k < |w[1..]| ensures w[1..][k] != ' ' {
          assert w[1..][k] == w[k + 1];
        }
      }
      SplitFirst(w[1..], t);
      assert (w + " " + t)[1..] == w[1..] + " " + t;
      assert [w[0]] + w[1..] == w;
    }
  }

  /** None of `parts` holds a space. */
  predicate NoSpaces(parts: seq<string>) {
    forall k :: 0 <= k < |parts| ==> ' ' !in parts[k]
  }

  /** `parts.join(" ")`: the parts with one space between neighbours.
      Joining words that hold no space and cutting the result at spaces
      gives the words back, so the answer text of a scale card carries the
      scale itself. */
  function Join(parts: seq<string>): (r: string)
    ensures |parts| > 0 && NoSpaces(parts) ==> Split(r) == parts
    decreases |parts|
  {
    if |parts| == 0 then ""
    else if |parts| == 1 then
      SplitWord(parts[0]);
      parts[0]
    else
      var rest := Join(parts[1..]);
      SplitFirst(parts[0], rest);
      assert NoSpaces(parts) ==> NoSpaces(parts[1..]) by {
        if NoSpaces(parts) {
          forall k | 0 <= k < |parts[1..]| ensures ' ' !in parts[1..][k] {
            assert parts[1..][k] == parts[k + 1];
          }
        }
      }
      assert [parts[0]] + parts[1..] == parts;
      parts[0] + " " + rest
  }

  /** No note name holds a space. */
  lemma NoteNamesHaveNoSpace(k: nat)
    ensures ' ' !in NoteAt(k)
  {
    var i := k % |NOTES|;
    assert NOTES[i][0] != ' ' && (|NOTES[i]| == 1 || NOTES[i][1] == '#');
  }

  /** `format!("{} of {}", what, note)`: the question side of a card. The
      text starts with `what`, then " of ", then ends with `note`;
      `FrontSplit` reads both names back. */
  function Front(what: string, note: string): (s: string)
    ensures |s| == |what| + 4 + |note|
    ensures s[..|what|] == what && s[|what|..|what| + 4] == " of " && s[|what| + 4..] == note
  {
    what + " of " + note
  }

  /** Cutting a question at its spaces gives back the two names and the
      word "of" between them, as long as neither name holds a space. */
  lemma FrontSplit(what: string, note: string)
    requires ' ' !in what && ' ' !in note
    ensures Split(Front(what, note)) == [what, "of", note]
  {
    assert Front(what, note) == what + " " + ("of" + " " + note);
    SplitFirst(what, "of" + " " + note);
    SplitFirst("of", note);
    SplitWord(note);
  }

  /** Questions built from names without spaces determine both names. */
  lemma FrontInjective(what1: string, note1: string, what2: string, note2: string)
    requires ' ' !in what1 && ' ' !in note1 && ' ' !in what2 && ' ' !in note2
    requires Front(what1, note1) == Front(what2, note2)
    ensures what1 == what2 && note1 == note2
  {
    FrontSplit(what1, note1);
    FrontSplit(what2, note2);
  }

  /** The card for interval number `j` above note number `n`: its back
      side is what `get_relative_interval` answers for that pair. */
  function IntervalCard(n: nat, j: nat): (c: Card)
    requires n < |NOTES| && j < |INTERVALS|
    ensures RelativeInterval(NOTES[n], INTERVALS[j]) == Ok(c.back)
  {
    RelativeIntervalAtIndex(n, j);
    Card(Front(INTERVALS[j], NOTES[n]), NoteAt(n + Semitones(ALL_INTERVALS[j])))
  }

  /** The interval deck: notes in table order, and for each note the
      intervals in table order, so card `k` is interval `k % 6` of note
      `k / 6`. */
  function IntervalDeck(): (deck: seq<Card>)
    ensures |deck| == |NOTES| * |INTERVALS|
  {
    seq(|NOTES| * |INTERVALS|, k requires 0 <= k < |NOTES| * |INTERVALS| =>
      IntervalCard(k / |INTERVALS|, k % |INTERVALS|))
  }

  /** Card `6 * n + j` of the deck is interval `j` of note `n`. */
  lemma IntervalDeckEntry(n: nat, j: nat)
    requires n < |NOTES| && j < |INTERVALS|
    ensures |INTERVALS| * n + j < |IntervalDeck()|
    ensures IntervalDeck()[|INTERVALS| * n + j] == IntervalCard(n, j)
  {
    var k := |INTERVALS| * n + j;
    assert k < |NOTES| * |INTERVALS| by { assert |INTERVALS| == 6 && |NOTES| == 12; }
    assert IntervalDeck()[k] == IntervalCard(k / |INTERVALS|, k % |INTERVALS|);
    DeckPosition(n, j);
  }

  /** Position `6 * n + j` of a deck laid out in rows of six is row `n`,
      column `j`. */
  lemma DeckPosition(n: nat, j: nat)
    requires j < |INTERVALS|
    ensures (|INTERVALS| * n + j) / |INTERVALS| == n && (|INTERVALS| * n + j) % |INTERVALS| == j
  {
    assert |INTERVALS| == 6;
  }

  /** The cards for the first `n` notes and the first `j + 1` intervals of
      note `n` are those up to interval `j` followed by the card for it. */
  lemma IntervalDeckPrefixNext(n: nat, j: nat)
    requires n < |NOTES| && j < |INTERVALS|
    ensures |INTERVALS| * n + (j + 1) <= |IntervalDeck()|
    ensures IntervalDeck()[..|INTERVALS| * n + (j + 1)] == IntervalDeck()[..|INTERVALS| * n + j] + [IntervalCard(n, j)]
  {
    var m: nat := |INTERVALS| * n + j;
    IntervalDeckEntry(n, j);
    TakeOneMore(IntervalDeck(), m);
    assert m + 1 == |INTERVALS| * n + (j + 1);
  }

  /** A prefix one longer is the prefix and the next element. */
  lemma TakeOneMore<T>(s: seq<T>, m: nat)
    requires m < |s|
    ensures s[..m + 1] == s[..m] + [s[m]]
  {
  }

  /** The first loop of `main`: for each note, for each interval name, the
      card "<interval> of <note>" with the note that interval above. */
  method BuildIntervalDeck() returns (deck: seq<Card>)
    ensures deck == IntervalDeck()
  {
    deck := [];
    for n := 0 to |NOTES|
      invariant deck == IntervalDeck()[..|INTERVALS| * n]
    {
      var note := NOTES[n];
      for j := 0 to |INTERVALS|
        invariant deck == IntervalDeck()[..|INTERVALS| * n + j]
      {
        var interval := INTERVALS[j];
        var answer := RelativeInterval(note, interval);
        RelativeIntervalAtIndex(n, j);
        var card := Card(Front(interval, note), answer.value);
        IntervalDeckPrefixNext(n, j);
        deck := deck + [card];
      }
    }
    assert IntervalDeck()[..|INTERVALS| * |NOTES|] == IntervalDeck();
  }

  /** The interval deck holds 72 cards; card `6 * n + j` asks for interval
      `j` above note `n`, and its back side is what `get_relative_interval`
      answers for that note and interval. */
  lemma IntervalDeckAnswers(n: nat, j: nat)
    requires n < |NOTES| && j < |INTERVALS|
    ensures |IntervalDeck()| == 72
    ensures IntervalDeck()[|INTERVALS| * n + j].front == Front(INTERVALS[j], NOTES[n])
    ensures RelativeInterval(NOTES[n], INTERVALS[j]) == Ok(IntervalDeck()[|INTERVALS| * n + j].back)
  {
    IntervalDeckEntry(n, j);
    RelativeIntervalAtIndex(n, j);
  }

  /** No entry of a scale holds a space. */
  lemma ScaleHasNoSpaces(n: nat)
    ensures NoSpaces(Scale(n, MAJOR_HARMONIC_INTERVALS))
  {
    var s := Scale(n, MAJOR_HARMONIC_INTERVALS);
    forall k | 0 <= k < |s| ensures ' ' !in s[k] {
      ScaleAt(n, MAJOR_HARMONIC_INTERVALS, k);
      NoteNamesHaveNoSpace(n + Offset(MAJOR_HARMONIC_INTERVALS, k));
    }
  }

  /** No two cards of the interval deck ask the same question. */
  lemma IntervalPromptsDistinct(n1: nat, j1: nat, n2: nat, j2: nat)
    requires n1 < |NOTES| && j1 < |INTERVALS| && n2 < |NOTES| && j2 < |INTERVALS|
    requires IntervalDeck()[|INTERVALS| * n1 + j1].front == IntervalDeck()[|INTERVALS| * n2 + j2].front
    ensures n1 == n2 && j1 == j2
  {
    IntervalDeckEntry(n1, j1);
    IntervalDeckEntry(n2, j2);
    NoteNamesHaveNoSpace(n1);
    NoteNamesHaveNoSpace(n2);
    NoteAtTable(n1);
    NoteAtTable(n2);
    IntervalNameHasNoSpace(j1);
    IntervalNameHasNoSpace(j2);
    FrontInjective(INTERVALS[j1], NOTES[n1], INTERVALS[j2], NOTES[n2]);
    IndexUnique(n1, n2, NOTES[n1]);
    IntervalNameUnique(j1, j2);
  }

  /** No interval name contains a space. */
  lemma IntervalNameHasNoSpace(j: nat)
    requires j < |INTERVALS|
    ensures ' ' !in INTERVALS[j]
  {
    assert INTERVALS[j][0] != ' ';
  }

  /** An interval name sits at only one position of `INTERVALS`. */
  lemma IntervalNameUnique(j1: nat, j2: nat)
    requires j1 < |INTERVALS| && j2 < |INTERVALS| && INTERVALS[j1] == INTERVALS[j2]
    ensures j1 == j2
  {
    assert IsIntervalIndex(j1, INTERVALS[j1]) && IsIntervalIndex(j2, INTERVALS[j1]);
    SemitoneTable();
  }

  /** The card for the major scale of note number `n`: cutting its back
      side at spaces gives the eight notes of the scale. */
  function ScaleCard(n: nat): (c: Card)
    requires n < |NOTES|
    ensures Split(c.back) == Scale(n, MAJOR_HARMONIC_INTERVALS)
  {
    ScaleHasNoSpaces(n);
    Card(Front("Major harmonic scale", NOTES[n]), Join(Scale(n, MAJOR_HARMONIC_INTERVALS)))
  }

  /** The scale deck after the first `count` notes, in table order. */
  function ScaleDeck(count: nat): (deck: seq<Card>)
    requires count <= |NOTES|
    ensures |deck| == count
  {
    if count == 0 then [] else ScaleDeck(count - 1) + [ScaleCard(count - 1)]
  }

  /** The second loop of `main`: for each note, the card "Major harmonic
      scale of <note>" with the scale's notes joined by spaces. */
  method BuildScaleDeck() returns (deck: seq<Card>)
    ensures deck == ScaleDeck(|NOTES|)
  {
    deck := [];
    for n := 0 to |NOTES|
      invariant deck == ScaleDeck(n)
    {
      var note := NOTES[n];
      var scale := MajorHarmonicScale(note);
      assert IsIndexOf(n, note);
      deck := deck + [Card(Front("Major harmonic scale", note), Join(scale.value))];
    }
  }

  /** Card `n` of the scale deck is the scale of note `n`, and reading its
      back side word by word gives the eight notes of that scale. */
  lemma {:induction false} ScaleDeckAt(count: nat, n: nat)
    requires count <= |NOTES| && n < count
    ensures ScaleDeck(count)[n] == ScaleCard(n)
    ensures Split(ScaleDeck(count)[n].back) == Scale(n, MAJOR_HARMONIC_INTERVALS)
    decreases count
  {
    if n < count - 1 {
      ScaleDeckAt(count - 1, n);
    }
  }
}
