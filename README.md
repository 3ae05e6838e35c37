# Music-theory card builder: a verified model

The program builds two decks of flashcards. Each card is a (question, answer)
pair of text.

1. **Interval deck.** For each of the twelve notes and each of six interval
   names, it makes the card "`<interval> of <note>`". The answer is the note
   that many semitones higher ("third of C" / "E").
2. **Scale deck.** For each note, it makes the card "Major harmonic scale of
   `<note>`". The answer is the eight notes of its major scale, joined by
   spaces.

All the music theory is arithmetic on pitch classes:

- Twelve sharp-spelled names in chromatic order from A.
- A note's index is found by binary search in that table. The search works
  because the table happens to be in lexicographic order.
- An offset is added to the index.
- The result wraps back into the octave.

The model is in four modules, one file each.

- `lex_order.dfy` (`LexOrder`)
  - Rust's order on string slices, written out as a three-way comparison
    (Dafny's own `<` on sequences means "proper prefix").
  - `binary_search` over a sorted slice.
  - Proofs that the order is a strict order, and that the search finds
    exactly the keys that are present.
- `theory.dfy` (`Theory`)
  - The note and interval tables, and the failures of the original as an
    `Err` result.
  - The two resolvers `get_relative_interval` and `get_relative_note`.
  - Their algebra:
    - The two-branch comparison against `max = 11` is a plain `% 12`.
    - Moving by zero changes nothing.
    - Moving by an octave changes nothing.
    - Two moves are one move by the sum.
    - Results are always table names.
    - An interval resolves like its number of semitones.
- `scales.dfy` (`Scales`)
  - The whole/half-step pattern.
  - `get_major_harmonic_scale` as a method. It keeps the original's
    eight-slot array that starts filled with `"?"`, and its running sum of
    steps. It is proved equal to a specification `Scale` given by the
    running step sums.
  - Lemmas:
    - The running sums are 0 2 4 5 7 9 11 12.
    - The scale ends on its root an octave up.
    - No placeholder survives.
    - The scales of C and A, spelled out.
- `cards.dfy` (`Cards`)
  - The two card loops of `main`, as methods that build a sequence of
    cards. Each is proved equal to a deck specification.
  - Lemmas:
    - The interval deck has 72 cards, in note-major order, and each answer
      is what `get_relative_interval` gives.
    - No two interval cards ask the same question.
    - The scale deck has one card per note.
    - Splitting a scale card's answer at spaces gives the scale back.

## Model

| member | source | states |
|---|---|---|
| LexOrder.CompareNat | src/main.rs:56-61 | `target.cmp(&max)`: the result is `Less`, `Equal` or `Greater` exactly when `target` is below, equal to or above `max` |
| LexOrder.Compare | src/main.rs:51 | the string order `binary_search` compares with: two strings compare `Equal` if and only if they are the same string |
| LexOrder.CompareFlip | src/main.rs:51 | comparing `b` with `a` gives the flipped result of comparing `a` with `b` |
| LexOrder.BeforeIrreflexive | src/main.rs:51 | no string sorts strictly before itself |
| LexOrder.BeforeTransitive | src/main.rs:51 | "sorts before" is transitive |
| LexOrder.ChainIsStrictlySorted | src/main.rs:7-9 | a sequence in which each name sorts before the next is sorted strictly, with every name before every later one |
| LexOrder.SearchIn | src/main.rs:51 | binary search of a sorted slice window. `Found(i)` points at the key inside the window. `NotFound(k)` is an insertion point inside the window, with every entry before `k` sorting below the key and every entry from `k` on sorting above it |
| LexOrder.BinarySearch | src/main.rs:51 | on a sorted slice, the search reports `Found` if and only if the key occurs, and a found index holds the key |
| Theory.Semitones | src/main.rs:37-42 | every interval spans between 4 (a third) and 19 (a thirteenth) semitones, always one more than a multiple of three |
| Theory.SemitoneTable | src/main.rs:36-43 | the six interval distances, in table order, are 4, 7, 10, 13, 16, 19 (that is, 4 + 3j) |
| Theory.IntervalNamed | src/main.rs:36-48 | the map lookup with its panic. A name at position `j` of `INTERVALS` gives the `j`-th interval. Any other name gives `UnknownInterval`, never a value |
| Theory.NotesSorted | src/main.rs:7-9 | the note table is in strictly increasing lexicographic order |
| Theory.NoteAtTable | src/main.rs:73 | for an index up to `max`, the wrapped lookup is a direct table read |
| Theory.NoteAtOctave | src/main.rs:75-76 | the note twelve semitones higher has the same name |
| Theory.IndexOf | src/main.rs:67 | `NOTES.binary_search(&note).unwrap()`. A result is an index holding `note`. Every index holding `note` is the result. A string that is not a table name gives `UnknownNote` |
| Theory.IndexUnique | src/main.rs:7-9 | a note name sits at only one index of the table |
| Theory.WrapIndex | src/main.rs:69-78 | both branches of the comparison against `max = 11` give `target % 12`, which is a valid index |
| Theory.RelativeNote | src/main.rs:65-79 | for a note at index `i`, the answer is the note at `(i + semitones_to_add) % 12`. An unknown note gives `UnknownNote` |
| Theory.RelativeNoteByIndex | src/main.rs:65-79 | the result of a move is the lookup's error, or the note at the looked-up index moved up |
| Theory.RelativeInterval | src/main.rs:35-63 | an unknown interval name gives `UnknownInterval`, even when the note is unknown too. A known interval resolves exactly like `get_relative_note` with that interval's semitones |
| Theory.RelativeIntervalAtIndex | src/main.rs:50-62 | every table note with every table interval has an answer: the note that many semitones above it |
| Theory.RelativeNoteIdentity | src/main.rs:65-79 | moving a table note by 0 semitones gives the same note |
| Theory.RelativeNotePeriodic | src/main.rs:65-79 | moving by `k + 12` gives the same result as moving by `k`, for every string, unknown names included |
| Theory.RelativeNoteAtIndex | src/main.rs:65-79 | the table note at index `i`, moved by `k`, is the note at `(i + k) % 12` |
| Theory.RelativeNoteCompose | src/main.rs:65-79 | moving on by `b` from where a move by `a` landed is the same as one move by `a + b` |
| Theory.RelativeNoteAfterMove | src/main.rs:65-79 | moving by `b` from the note `a` above index `i` lands `a + b` above index `i` |
| Theory.RelativeNoteInTable | src/main.rs:65-79 | a move from a table note always succeeds, and its result is a table name |
| Theory.IntervalsOfC | src/main.rs:35-63 | the third of C is E, and the fifth of C is G |
| Theory.WrappingIntervalsOfC | src/main.rs:56-61 | the seventh of C is A# (3 + 10 = 13 wraps to 1), and the thirteenth of C is G |
| Theory.UnknownNames | src/main.rs:45-51 | "second" is an unknown interval, and "Db" and "H" are unknown notes. When both names are unknown, the interval is the one reported |
| Scales.Steps | src/main.rs:87-90 | each step of the pattern moves up one or two semitones |
| Scales.OffsetSpan | src/main.rs:82-89 | the running sum `semitones_to_add` grows by at least one and at most two per step: between steps `i` and `k` it rises by `k - i` to `2(k - i)`, so from 0 it stays between `k` and `2k` and strictly increases |
| Scales.ScalePrefix | src/main.rs:85-94 | after `n` turns of the loop, `n + 1` slots are filled |
| Scales.Scale | src/main.rs:81-97 | a scale has one entry more than the pattern has steps |
| Scales.ScalePrefixNext | src/main.rs:86-93 | one more turn of the loop adds the next step to the running sum and fills one more slot with the root moved up by the new sum |
| Scales.ScalePrefixAt | src/main.rs:92-93 | slot `k` holds the root moved up by the sum of the first `k` steps |
| Scales.ScaleAt | src/main.rs:86-94 | entry `k` of a scale is the root moved up by the sum of the first `k` steps |
| Scales.MajorHarmonicScale | src/main.rs:81-97 | an unknown root fails with `UnknownNote`. A known root gives `Scale(index, MAJOR_HARMONIC_INTERVALS)`, with 8 entries, the root first and last, and no `"?"` left |
| Scales.MajorScaleShape | src/main.rs:81-97 | for a known root the returned scale has 8 entries, starts and ends on the root, and holds no `"?"` |
| Scales.ScaleIsRunningSum | src/main.rs:86-93 | entry `k` is `get_relative_note(root, s)`, where `s` is the running step sum after `k` steps (the loop's cumulative-sum invariant) |
| Scales.MajorOffsets | src/main.rs:25-33 | the running sums of Tone = 2 and SemiTone = 1 over the major pattern are 0 2 4 5 7 9 11 12 |
| Scales.MajorScaleEntries | src/main.rs:25-33 | a major scale is the root and the notes 2, 4, 5, 7, 9, 11 and 12 semitones above it |
| Scales.MajorScaleOctave | src/main.rs:81-97 | a major scale has 8 entries, starts on its root, and ends on the root an octave higher |
| Scales.NoPlaceholder | src/main.rs:83-94 | every scale entry is a table name, and the placeholder `"?"` never survives |
| Scales.ScaleOfC | src/main.rs:81-97 | "C" is found at index 3, and the scale there is C D E F G A B C, so `get_major_harmonic_scale("C")` returns it |
| Scales.ScaleOfA | src/main.rs:81-97 | "A" is found at index 0, and the scale there is A B C# D E F# G# A, so `get_major_harmonic_scale("A")` returns it |
| Cards.Split | src/main.rs:133 | cutting a text at its spaces yields at least one part |
| Cards.Join | src/main.rs:133 | `join(" ")`: joining one or more words that hold no space and cutting the result at spaces gives the words back |
| Cards.NoteNamesHaveNoSpace | src/main.rs:7-9 | no note name contains a space |
| Cards.Front | src/main.rs:111 | `format!("{} of {}", ..)`: the text is the first name, then `" of "`, then the second name, and its length is the two names' lengths plus 4 |
| Cards.FrontSplit | src/main.rs:111 | cutting a question built from two space-free names at its spaces gives exactly the first name, `"of"` and the second name |
| Cards.FrontInjective | src/main.rs:111 | two questions built from space-free names are equal only if both names are equal |
| Cards.IntervalNameHasNoSpace | src/main.rs:11-18 | no interval name contains a space |
| Cards.IntervalNameUnique | src/main.rs:11-18 | an interval name sits at only one position of the table |
| Cards.IntervalCard | src/main.rs:110-113 | the back of the card for note `n` and interval `j` is exactly what `get_relative_interval` answers for that pair |
| Cards.IntervalDeck | src/main.rs:106-116 | the interval deck has 12 × 6 cards |
| Cards.IntervalDeckEntry | src/main.rs:106-116 | card `6n + j` is interval `j` of note `n` (note-major order) |
| Cards.IntervalDeckPrefixNext | src/main.rs:106-116 | the cards so far, followed by the card for interval `j` of note `n`, are the cards up to and including that one |
| Cards.BuildIntervalDeck | src/main.rs:106-116 | the nested loop, asking `get_relative_interval` for every answer, builds exactly the interval deck |
| Cards.IntervalPromptsDistinct | src/main.rs:106-116 | no two of the 72 interval cards ask the same question: equal questions mean the same note and the same interval |
| Cards.IntervalDeckAnswers | src/main.rs:106-116 | there are 72 interval cards. Card `6n + j` asks "`INTERVALS[j]` of `NOTES[n]`", and its answer is what `get_relative_interval` returns for that pair |
| Cards.ScaleHasNoSpaces | src/main.rs:133 | no entry of a major scale contains a space |
| Cards.ScaleCard | src/main.rs:131-134 | cutting the back of the scale card for note `n` at its spaces gives that note's major scale |
| Cards.ScaleDeck | src/main.rs:128-136 | after `count` notes the scale deck has `count` cards |
| Cards.BuildScaleDeck | src/main.rs:128-136 | the loop, calling `get_major_harmonic_scale` for each note, builds exactly the scale deck |
| Cards.ScaleDeckAt | src/main.rs:128-136 | card `n` of the scale deck is the card for note `n`, and cutting its answer at spaces gives the eight notes of that note's major scale |

## Left out

- The flashcard library (`Deck::new`, `Note::new`, `basic_model`,
  `add_note`, `write_to_file`) and its `Error` results. This is foreign
  code and file output. The model ends with the sequence of
  (question, answer) pairs handed to it.
- The `println!` progress messages and the `curr_id` deck counter. They are
  console output and export identifiers, with no logic.
- The panic message text. An unknown interval or note is an `Err` value
  naming the offending string, and no output is produced for it.
- Chord and mode decks. `src/main.rs` has no chord or mode tables: it
  builds exactly two decks, 72 interval cards and 12 scale cards, and the
  model covers both.
- LexOrder.SearchIn: does not follow the exact probe order of the standard
  library's `binary_search`, whose midpoint rule is an implementation
  detail. On the strictly sorted note table, both report the unique index
  of a present name. For an absent name, the insertion point is discarded
  by `unwrap` anyway.
- Theory.RelativeNote: does not model `usize` overflow of
  `index + semitones_to_add`, because the model uses unbounded naturals.
  The program only passes offsets up to 19.
- Scales.MajorHarmonicScale: returns the eight slots as a sequence, not as
  a fixed-size array value. For an unknown root it returns the error
  instead of panicking after writing slot 0.
