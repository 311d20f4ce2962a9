/** How the staff view spells the targets (src/components/SheetMusic.tsx,
    the `noteDataList` computation and its sort). The drawing itself is not
    modelled; a note's VexFlow key `letter/octave` is kept as a pair. */
module SheetMusic {
  import opened Common
  import opened Sorting
  import opened Fretboard

  /** Letter of each semitone 0..11 when black keys are spelled as flats. */
  const FlatNames: seq<char> := ['c', 'd', 'd', 'e', 'e', 'f', 'g', 'g', 'a', 'a', 'b', 'b']
  /** Letter of each semitone 0..11 when black keys are spelled as sharps. */
  const SharpNames: seq<char> := ['c', 'c', 'd', 'd', 'e', 'f', 'f', 'g', 'g', 'a', 'a', 'b']

  predicate IsBlackKey(semitone: int)
  {
    semitone == 1 || semitone == 3 || semitone == 6 || semitone == 8 || semitone == 10
  }

  /** The VexFlow key `letter/octave`. The letter is absent when the semitone
      is negative and the table lookup yields `undefined`. */
  datatype StaffKey = StaffKey(letter: Option<char>, octave: int)

  /** One entry of `noteDataList`; `color` is absent when `colors` is empty. */
  datatype NoteData = NoteData(key: StaffKey, accidental: Option<char>, color: Option<string>, rawVal: int)

  /** The MIDI number drawn for a target value: a WINDOW pitch class is placed
      in the octave from middle C, an OCTAVE pitch is raised an octave to sit
      on the treble clef written an octave higher than it sounds. */
  function RenderMidi(mode: GameMode, val: int): int
  {
    if mode == Window then 60 + val else val + 12
  }

  /** The mapping applied to the `i`-th target `val`. */
  function MapNote(val: int, i: nat, colors: seq<string>, mode: GameMode, useFlats: bool): (n: NoteData)
    ensures n.rawVal == RenderMidi(mode, val)
    ensures n.rawVal >= 0 ==> n.key.letter.Some? && 12 * (n.key.octave + 1) + n.rawVal % 12 == n.rawVal
    ensures n.accidental.Some? <==> IsBlackKey(JsRem12(n.rawVal))
    ensures n.accidental.Some? ==> n.accidental.value == (if useFlats then 'b' else '#')
    ensures n.color.Some? <==> |colors| > 0
    ensures n.color.Some? ==> n.color.value == colors[i % |colors|]
  {
    var renderMidi := RenderMidi(mode, val);
    var octave := renderMidi / 12 - 1;
    var semitone := JsRem12(renderMidi);
    var names := if useFlats then FlatNames else SharpNames;
    var letter := if 0 <= semitone then Some(names[semitone]) else None;
    var accidental := if IsBlackKey(semitone) then Some(if useFlats then 'b' else '#') else None;
    NoteData(StaffKey(letter, octave), accidental, if |colors| == 0 then None else Some(colors[i % |colors|]), renderMidi)
  }

  function MapNotes(notes: seq<int>, colors: seq<string>, mode: GameMode, useFlats: bool): (ns: seq<NoteData>)
    ensures |ns| == |notes|
    ensures forall i :: 0 <= i < |ns| ==> ns[i].rawVal == RenderMidi(mode, notes[i])
    ensures forall i :: 0 <= i < |ns| && |colors| > 0 ==> ns[i].color == Some(colors[i % |colors|])
  {
    seq(|notes|, i requires 0 <= i < |notes| => MapNote(notes[i], i, colors, mode, useFlats))
  }

  function RawVal(n: NoteData): int
  {
    n.rawVal
  }

  /** `noteDataList` after `sort((a, b) => a.rawVal - b.rawVal)`: the mapped
      targets, each once, ascending by drawn pitch. */
  function SpellNotes(notes: seq<int>, colors: seq<string>, mode: GameMode, useFlats: bool): (r: seq<NoteData>)
    ensures |r| == |notes|
    ensures SortedBy(r, RawVal)
    ensures multiset(r) == multiset(MapNotes(notes, colors, mode, useFlats))
  {
    SortBy(MapNotes(notes, colors, mode, useFlats), RawVal)
  }

  /** The semitone above C of a natural letter. */
  function NaturalSemitone(letter: char): (n: int)
    requires letter in "abcdefg"
    ensures 0 <= n < 12
  {
    if letter == 'c' then 0
    else if letter == 'd' then 2
    else if letter == 'e' then 4
    else if letter == 'f' then 5
    else if letter == 'g' then 7
    else if letter == 'a' then 9
    else 11
  }

  function AccidentalShift(accidental: Option<char>): int
  {
    match accidental
    case Some('#') => 1
    case Some('b') => -1
    case _ => 0
  }

  /** The MIDI number a staff key and accidental stand for. */
  function Denote(key: StaffKey, accidental: Option<char>): int
    requires key.letter.Some? && key.letter.value in "abcdefg"
  {
    12 * (key.octave + 1) + NaturalSemitone(key.letter.value) + AccidentalShift(accidental)
  }

  /** Every spelling is correct: the letter, accidental and octave drawn stand
      for exactly the pitch that was rendered, in both spellings. */
  lemma SpellingDenotesPitch(val: int, i: nat, colors: seq<string>, mode: GameMode, useFlats: bool)
    requires RenderMidi(mode, val) >= 0
    ensures var n := MapNote(val, i, colors, mode, useFlats);
      n.key.letter.Some? && n.key.letter.value in "abcdefg" && Denote(n.key, n.accidental) == n.rawVal
  {
    var n := MapNote(val, i, colors, mode, useFlats);
    var m := n.rawVal;
    var semitone := m % 12;
    assert JsRem12(m) == semitone;
    var names := if useFlats then FlatNames else SharpNames;
    assert n.key.letter == Some(names[semitone]);
    SemitoneSpelled(semitone, useFlats);
  }

  lemma SemitoneSpelled(semitone: int, useFlats: bool)
    requires 0 <= semitone < 12
    ensures var names := if useFlats then FlatNames else SharpNames;
      names[semitone] in "abcdefg" &&
      NaturalSemitone(names[semitone])
        + AccidentalShift(if IsBlackKey(semitone) then Some(if useFlats then 'b' else '#') else None)
      == semitone
  {
  }

  /** The letter one step up the musical alphabet. */
  function NextLetter(letter: char): char
  {
    match letter
    case 'a' => 'b'
    case 'b' => 'c'
    case 'c' => 'd'
    case 'd' => 'e'
    case 'e' => 'f'
    case 'f' => 'g'
    case 'g' => 'a'
    case _ => letter
  }

  /** The two tables agree on the white keys, and on a black key the flat is
      written on the letter above the sharp's (C# = Db, ..., A# = Bb). */
  lemma FlatAndSharpSpellings(semitone: int)
    requires 0 <= semitone < 12
    ensures !IsBlackKey(semitone) ==> FlatNames[semitone] == SharpNames[semitone]
    ensures IsBlackKey(semitone) ==> FlatNames[semitone] == NextLetter(SharpNames[semitone])
  {
  }

  /** Every WINDOW target (a pitch class) is drawn in octave 4. */
  lemma WindowTargetsInOctaveFour(val: int, i: nat, colors: seq<string>, useFlats: bool)
    requires 0 <= val < 12
    ensures MapNote(val, i, colors, Window, useFlats).key.octave == 4
  {
  }

  /** A sort by a key the sequence is already ordered by changes nothing. */
  lemma {:induction false} SortBySorted<T>(s: seq<T>, key: T -> int)
    requires SortedBy(s, key)
    ensures SortBy(s, key) == s
  {
    if s != [] {
      assert SortedBy(s[1..], key);
      SortBySorted(s[1..], key);
    }
  }

  /** For the strictly increasing targets of a round, drawing keeps them in
      order, so the `i`-th drawn note is the `i`-th target and carries colour
      `colors[i % |colors|]`, the colour of the `i`-th label. */
  lemma RoundSpelledInOrder(notes: seq<int>, colors: seq<string>, mode: GameMode, useFlats: bool)
    requires StrictlyIncreasing(notes)
    ensures SpellNotes(notes, colors, mode, useFlats) == MapNotes(notes, colors, mode, useFlats)
    ensures forall i :: 0 <= i < |notes| ==>
      SpellNotes(notes, colors, mode, useFlats)[i] == MapNote(notes[i], i, colors, mode, useFlats)
  {
    var ms := MapNotes(notes, colors, mode, useFlats);
    assert SortedBy(ms, RawVal) by {
      forall i, j | 0 <= i < j < |ms| ensures RawVal(ms[i]) <= RawVal(ms[j]) {
        assert notes[i] < notes[j];
      }
    }
    SortBySorted(ms, RawVal);
  }
}
