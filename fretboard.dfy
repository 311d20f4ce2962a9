/** The pure part of the game hook (src/hooks/useFretboardGame.ts): the
    tuning, note naming, the active fret window, and which fretboard positions
    sound a target note. */
module Fretboard {
  import opened Common
  import opened Sorting

  /** Open-string MIDI pitches, high E (string 0) down to low E (string 5). */
  const Tuning: seq<int> := [64, 59, 55, 50, 45, 40]
  const NoteNames: seq<string> := ["C", "C#", "D", "D#", "E", "F", "F#", "G", "G#", "A", "A#", "B"]

  datatype GameMode = Window | Octave
  datatype GameState = Guessing | Revealed
  datatype FretPosition = FretPosition(stringIndex: int, fret: int)
  datatype NoteName = NoteName(note: Option<string>, octave: int)

  /** One round: the sorted target notes, the anchor fret of the window, and
      the order in which palette slots are handed to the targets. */
  datatype RoundData = RoundData(notes: seq<int>, anchor: int, colorIndices: seq<int>)

  function Flip(mode: GameMode): (r: GameMode)
    ensures r != mode
  {
    if mode == Window then Octave else Window
  }

  /** Note name and scientific octave of a MIDI number. A negative number
      whose remainder is not zero indexes the name table below 0 and yields
      no name. */
  function GetNoteName(midi: int): (r: NoteName)
    ensures midi >= 0 ==> r.note == Some(NoteNames[midi % 12]) && 12 * (r.octave + 1) + midi % 12 == midi
    ensures midi < 0 ==> (r.note.Some? <==> midi % 12 == 0)
  {
    var i := JsRem12(midi);
    NoteName(if 0 <= i < 12 then Some(NoteNames[i]) else None, midi / 12 - 1)
  }

  /** Name and octave together identify the MIDI number. */
  lemma NoteNameDeterminesMidi(m1: int, m2: int)
    requires m1 >= 0 && m2 >= 0
    requires GetNoteName(m1) == GetNoteName(m2)
    ensures m1 == m2
  {
  }

  /** The first playable fret: three below the anchor in WINDOW mode, but
      never below the nut; the nut in OCTAVE mode. */
  function WindowStart(mode: GameMode, anchor: int): (lo: int)
    ensures 0 <= lo
    ensures mode == Octave ==> lo == 0
    ensures mode == Window ==> anchor - 3 <= lo && (lo == 0 || lo == anchor - 3)
  {
    if mode == Window then Max(0, anchor - 3) else 0
  }

  /** The last playable fret: three above the anchor in WINDOW mode, but
      never past fret 14; fret 14 in OCTAVE mode. */
  function WindowEnd(mode: GameMode, anchor: int): (hi: int)
    ensures hi <= 14
    ensures mode == Octave ==> hi == 14
    ensures mode == Window ==> hi <= anchor + 3 && (hi == 14 || hi == anchor + 3)
  {
    if mode == Window then Min(14, anchor + 3) else 14
  }

  /** For every anchor a round can draw the window needs no clamping: it is
      the seven frets centred on the anchor, inside the fifteen frets drawn. */
  lemma WindowOfValidAnchor(mode: GameMode, anchor: int)
    requires 3 <= anchor <= 11
    ensures mode == Window ==> WindowStart(mode, anchor) == anchor - 3 && WindowEnd(mode, anchor) == anchor + 3
    ensures mode == Octave ==> WindowStart(mode, anchor) == 0 && WindowEnd(mode, anchor) == 14
    ensures 0 <= WindowStart(mode, anchor) <= anchor <= WindowEnd(mode, anchor) <= 14
  {
  }

  /** What a sounding pitch is compared against: its pitch class in WINDOW
      mode, the pitch itself in OCTAVE mode. */
  function MatchKey(mode: GameMode, pitch: int): int
  {
    if mode == Window then JsRem12(pitch) else pitch
  }

  predicate IsMatch(mode: GameMode, notes: seq<int>, pitch: int)
  {
    MatchKey(mode, pitch) in notes
  }

  predicate IsCorrectPosition(mode: GameMode, notes: seq<int>, lo: int, hi: int, p: FretPosition)
  {
    0 <= p.stringIndex < 6 && lo <= p.fret <= hi && IsMatch(mode, notes, Tuning[p.stringIndex] + p.fret)
  }

  /** Every position in the window frets lo..hi whose pitch matches a target. */
  function CorrectSet(mode: GameMode, notes: seq<int>, lo: int, hi: int): (c: set<FretPosition>)
    ensures forall p :: p in c <==> IsCorrectPosition(mode, notes, lo, hi, p)
  {
    set s, f | 0 <= s < 6 && lo <= f <= hi && IsMatch(mode, notes, Tuning[s] + f) :: FretPosition(s, f)
  }

  /** A pitch some string sounds at some fret 0..14. */
  predicate OnBoard(p: int)
  {
    exists s :: 0 <= s < 6 && Tuning[s] <= p < Tuning[s] + 15
  }

  lemma OnBoardRange(p: int)
    requires OnBoard(p)
    ensures 40 <= p <= 78
  {
  }

  predicate InPitchRange(mode: GameMode, p: int)
  {
    if mode == Window then 0 <= p < 12 else OnBoard(p)
  }

  predicate IsColorOrder(colorIndices: seq<int>)
  {
    multiset(colorIndices) == multiset([0, 1, 2, 3, 4, 5])
  }

  /** What every round the generator hands out satisfies. */
  predicate ValidRound(rd: RoundData, mode: GameMode, count: int)
  {
    && StrictlyIncreasing(rd.notes)
    && |rd.notes| == Max(0, Min(count, 12))
    && (forall i :: 0 <= i < |rd.notes| ==> InPitchRange(mode, rd.notes[i]))
    && 3 <= rd.anchor <= 11
    && IsColorOrder(rd.colorIndices)
  }

  /** String `s` stopped at fret `f` sounds `note` (as compared in `mode`). */
  predicate SoundsAt(mode: GameMode, s: int, f: int, note: int)
  {
    0 <= s < 6 && MatchKey(mode, Tuning[s] + f) == note
  }

  /** Strings 0 and 1 (pitch classes 4 and 11) already cover all twelve
      pitch classes within any seven consecutive frets. */
  lemma PitchClassInWindow(n: int, a: int)
    requires 0 <= n < 12 && 3 <= a <= 11
    ensures exists s, f :: a - 3 <= f <= a + 3 && SoundsAt(Window, s, f, n)
  {
    var d := (n - a + 3) % 12;
    if 4 <= d <= 10 {
      var f := a - 3 + (d - 4);
      assert (64 + f) % 12 == n;
      assert SoundsAt(Window, 0, f, n);
    } else {
      var f := a - 3 + (d + 1) % 12;
      assert (59 + f) % 12 == n;
      assert SoundsAt(Window, 1, f, n);
    }
  }

  /** Every target of a valid round can be played inside the window, so a
      round with targets always has something to click. */
  lemma TargetsReachable(rd: RoundData, mode: GameMode, count: int, k: nat)
    requires ValidRound(rd, mode, count)
    requires k < |rd.notes|
    ensures exists s, f :: WindowStart(mode, rd.anchor) <= f <= WindowEnd(mode, rd.anchor) && SoundsAt(mode, s, f, rd.notes[k])
  {
    var n, a := rd.notes[k], rd.anchor;
    assert InPitchRange(mode, n);
    if mode == Window {
      PitchClassInWindow(n, a);
    } else {
      var s :| 0 <= s < 6 && Tuning[s] <= n < Tuning[s] + 15;
      assert SoundsAt(mode, s, n - Tuning[s], n);
    }
  }

  /** Consequently the correct set of a round with targets is never empty. */
  lemma CorrectSetNonEmpty(rd: RoundData, mode: GameMode, count: int)
    requires ValidRound(rd, mode, count)
    requires count >= 1
    ensures CorrectSet(mode, rd.notes, WindowStart(mode, rd.anchor), WindowEnd(mode, rd.anchor)) != {}
  {
    TargetsReachable(rd, mode, count, 0);
    var lo, hi := WindowStart(mode, rd.anchor), WindowEnd(mode, rd.anchor);
    var s, f :| lo <= f <= hi && SoundsAt(mode, s, f, rd.notes[0]);
    assert FretPosition(s, f) in CorrectSet(mode, rd.notes, lo, hi);
  }
}
