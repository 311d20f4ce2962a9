# Fretboard trainer: a Dafny model of the game core

The fretboard trainer is a guitar ear-and-eye game. Each round draws one or
more target notes. In WINDOW (position) mode these are pitch classes, and
play is restricted to a seven-fret window centred on an anchor fret. In
OCTAVE mode they are absolute pitches and the whole board (frets 0..14) is
live. The player clicks the cells that sound the targets and submits. The
guess is scored as an exact match with the correct cells, and a streak of
won rounds is kept. The board then reveals found, missed and wrong cells,
each target in its own palette colour. Targets can also be shown on a staff,
spelled with sharps or flats.

The model has seven modules:

- `Common` (`common.dfy`) holds `Option`, JavaScript's truncating `% 12`
  (`JsRem12`), duplicate-freedom, and `Dedup`, the insertion order a
  JavaScript `Set` keeps.
- `Sorting` (`sorting.dfy`) is an insertion sort by an integer key, proved
  stable. It stands for the numeric `Array.prototype.sort` comparators.
- `Fretboard` (`fretboard.dfy`) holds the pure parts of the game hook: the
  tuning, `getNoteName`, the fret window, the match predicate, the set of
  correct cells, and what every valid round satisfies.
- `RoundGeneration` (`round.dfy`) is `createRoundData`. The values
  `Math.random()` would return are an input (`RandomDraws`). `DrawRound`
  specifies the round, and the method `CreateRoundData` runs the source's
  loop and is proved against it.
- `Game` (`game.dfy`) holds the hook's state twice. `HookState` is the state
  as a value, with one transition function per handler and the lemmas about
  them. The class `FretboardGame` keeps the same state in fields, with one
  method per handler; each method is proved to move the fields exactly as the
  transition function says. The module also holds the nested loops of
  `submitGuess` (`CorrectPositions`, `ScoreGuess`) and the click toggle.
- `SheetMusic` (`sheet_music.dfy`) spells targets for the staff and sorts
  them by drawn pitch.
- `FretboardCells` (`fretboard_cells.dfy`) is the per-cell logic of the board
  component: window, target, palette slot and marker kind.

Some facts about the code that the model keeps:

- The note count is clamped to 1..4 (src/hooks/useFretboardGame.ts:81).
- Generation draws until the set of targets is full, with no other rule
  (src/hooks/useFretboardGame.ts:22-31).
- Changing the note count keeps the streak (src/hooks/useFretboardGame.ts:79-89).
  Only a lost round and a switch of mode reset it (lines 129 and 71).
- A win also needs at least one correct cell (src/hooks/useFretboardGame.ts:126).

## Model

| member | source | states |
|---|---|---|
| Common.JsRem12 | src/hooks/useFretboardGame.ts:13 | JavaScript `x % 12`: the result has the sign of `x`, its magnitude is below 12, and it differs from `x` by a multiple of 12 |
| Common.DedupMembers | src/hooks/useFretboardGame.ts:19-31 | the `Set` filled by the loop holds every candidate added and nothing else, each once |
| Common.DedupPrefix | src/hooks/useFretboardGame.ts:22-31 | adding more candidates never reorders what the `Set` already holds: the set after `k` additions is a prefix of the final one |
| Sorting.SortBy | src/hooks/useFretboardGame.ts:37 | `sort((a, b) => a - b)`: the result is ascending by the key and is a permutation of the input |
| Sorting.InsertByFirstAmongEquals | src/hooks/useFretboardGame.ts:37 | inserting into a sorted list places the new element before every element with the same key and keeps the others' order |
| Sorting.SortByStable | src/components/SheetMusic.tsx:76 | the sort is stable: for every key, the elements with that key come out in the order they went in |
| Sorting.SortedDistinctIsStrict | src/hooks/useFretboardGame.ts:37 | sorting the set's distinct values gives a strictly increasing list |
| Fretboard.Flip | src/hooks/useFretboardGame.ts:70 | the mode switch always yields the other mode |
| Fretboard.GetNoteName | src/hooks/useFretboardGame.ts:12-16 | for `midi >= 0` the name is `NOTE_NAMES[midi % 12]` and `12 * (octave + 1) + midi % 12 == midi`; for negative `midi` a name exists only when the truncating remainder is 0 |
| Fretboard.WindowStart | src/hooks/useFretboardGame.ts:59 | the first playable fret is never below 0; it is 0 in OCTAVE mode, and `anchor - 3` in WINDOW mode unless that is below 0, when it is 0 |
| Fretboard.WindowEnd | src/hooks/useFretboardGame.ts:60 | the last playable fret is never above 14; it is 14 in OCTAVE mode, and `anchor + 3` in WINDOW mode unless that is above 14, when it is 14 |
| Fretboard.NoteNameDeterminesMidi | src/hooks/useFretboardGame.ts:12-16 | two non-negative MIDI numbers with the same name and octave are equal |
| Fretboard.WindowOfValidAnchor | src/hooks/useFretboardGame.ts:59-60 | with an anchor in 3..11 the WINDOW window is exactly anchor-3..anchor+3, the OCTAVE window is 0..14, and both lie within 0..14 and contain the anchor |
| Fretboard.CorrectSet | src/hooks/useFretboardGame.ts:105-115 | a position is correct iff its string is 0..5, its fret lies in the window, and its pitch (mod 12 in WINDOW mode) is a target |
| Fretboard.OnBoardRange | src/hooks/useFretboardGame.ts:26-28 | every pitch some string sounds at frets 0..14 lies in 40..78 |
| Fretboard.PitchClassInWindow | src/hooks/useFretboardGame.ts:59-60 | every pitch class is sounded inside every window of seven frets around an anchor 3..11 |
| Fretboard.TargetsReachable | src/hooks/useFretboardGame.ts:18-41 | every target of a valid round can be played at some fret inside the round's window |
| Fretboard.CorrectSetNonEmpty | src/hooks/useFretboardGame.ts:102-117 | a valid round with at least one target always has a correct position, so a winning guess exists |
| RoundGeneration.RandomBelow | src/hooks/useFretboardGame.ts:24 | `Math.floor(Math.random() * n)` lies in 0..n-1 |
| RoundGeneration.CandidatesInRange | src/hooks/useFretboardGame.ts:23-30 | each candidate is a pitch class 0..11 in WINDOW mode and `TUNING[s] + f` with `s < 6`, `f < 15` in OCTAVE mode |
| RoundGeneration.DrawRound | src/hooks/useFretboardGame.ts:18-41 | the round the draws determine: it exists iff the draws hold `min(count, 12)` distinct candidates; then its targets are the first that many distinct candidates sorted, so there are exactly that many (0 for a negative count), its anchor is in 3..11 and its colour order is the drawn one |
| RoundGeneration.DrawRoundValid | src/hooks/useFretboardGame.ts:18-41 | a drawn round has strictly increasing notes, exactly `min(count, 12)` of them (0 when the count is negative), each in the mode's range; its anchor is in 3..11 and its colour indices are a permutation of 0..5 |
| RoundGeneration.StoppedRound | src/hooks/useFretboardGame.ts:22-31 | when the loop stops on size, the draws suffice and its set is the first `min(count, 12)` distinct candidates |
| RoundGeneration.ExhaustedRound | src/hooks/useFretboardGame.ts:22 | when the draws run out before the set is full, they hold too few distinct candidates and no round is drawn |
| RoundGeneration.CreateRoundData | src/hooks/useFretboardGame.ts:18-41 | the loop returns exactly the drawn round; it returns one iff the draws suffice, and what it returns is a valid round |
| Game.Without | src/hooks/useFretboardGame.ts:97 | the filter removes the clicked position and keeps every other one, keeps the list duplicate-free, and changes nothing when the position is absent |
| Game.Toggle | src/hooks/useFretboardGame.ts:95-99 | after the toggle a position is selected iff it was selected xor it is the one clicked; no duplicates arise |
| Game.ToggleTwice | src/hooks/useFretboardGame.ts:95-99 | clicking the same position twice restores the selection, exactly when the position was not selected before |
| Game.WithoutAppended | src/hooks/useFretboardGame.ts:95-99 | removing a just-appended position gives back the earlier list |
| Game.CorrectPositions | src/hooks/useFretboardGame.ts:103-117 | the nested loops collect exactly the correct set, in string-then-fret order |
| Game.EmptyGuessLoses | src/hooks/useFretboardGame.ts:126 | submitting with nothing clicked never wins |
| Game.ListVerdict | src/hooks/useFretboardGame.ts:119-126 | the `every`/`some` checks on the collected list, plus its non-emptiness, decide exactly `IsWin` on the correct set |
| Game.ScoreGuess | src/hooks/useFretboardGame.ts:103-126 | collecting the positions and running the source's three checks yields a win iff `IsWin` holds on the correct set |
| Game.ClampCount | src/hooks/useFretboardGame.ts:81 | `Math.max(1, Math.min(4, n))` lies in 1..4, is `n` inside 1..4, 1 below it and 4 above it |
| Game.Initial | src/hooks/useFretboardGame.ts:43-55 | the starting state: WINDOW mode, the given count, both toggles off, a round drawn for the count in WINDOW mode, nothing clicked, guessing, streak 0 |
| Game.AfterClick | src/hooks/useFretboardGame.ts:91-100 | a click after the reveal or outside the window leaves the state as it is; otherwise it toggles the clicked position in the selection and changes nothing else |
| Game.AfterSubmit | src/hooks/useFretboardGame.ts:102-133 | submitting reveals the board and sets the streak to streak+1 when the clicks are exactly the correct set and it is non-empty, else to 0 |
| Game.AfterNewRound | src/hooks/useFretboardGame.ts:62-66 | a new round replaces the round with one drawn for the current count and mode, clears the clicks and sets guessing; mode, count, toggles and streak stay |
| Game.AfterToggleMode | src/hooks/useFretboardGame.ts:68-77 | switching mode flips the mode, resets the streak, draws a round for the count in the new mode, clears the clicks and sets guessing |
| Game.AfterUpdateCount | src/hooks/useFretboardGame.ts:79-89 | the count becomes the clamped `count + delta`; if that equals the old count nothing else changes, otherwise a round is drawn for it, the clicks are cleared and guessing is set; the streak stays |
| Game.FreshRoundValid | src/hooks/useFretboardGame.ts:62-89 | any state holding a freshly drawn round for its mode and count, with no clicks, satisfies the game invariant |
| Game.InitialValid | src/hooks/useFretboardGame.ts:43-55 | the starting state satisfies the game invariant, and it has a target iff `initialCount >= 1` |
| Game.ClickKeepsValid | src/hooks/useFretboardGame.ts:91-100 | a click keeps the invariant and changes only the clicks; while guessing and inside the window it toggles exactly the clicked position, otherwise the selection is unchanged |
| Game.ClickTwice | src/hooks/useFretboardGame.ts:91-100 | two identical clicks select the same positions as before, and restore the very same state when the position was not selected |
| Game.SubmitScores | src/hooks/useFretboardGame.ts:102-133 | submitting keeps the invariant, the clicks and the round and reveals; the streak is positive afterwards iff the clicks are exactly the correct positions and not empty, and then it is the old streak plus one |
| Game.NewRoundKeepsValid | src/hooks/useFretboardGame.ts:62-66 | a new round leaves the game valid |
| Game.ToggleModeKeepsValid | src/hooks/useFretboardGame.ts:68-77 | switching mode leaves the game valid in the other mode, with the count kept, the streak 0, nothing clicked and guessing |
| Game.UpdateCountKeepsValid | src/hooks/useFretboardGame.ts:79-89 | a count change leaves the game valid, the count becomes the clamped `count + delta`, and the streak and mode are kept |
| Game.FretboardGame.constructor | src/hooks/useFretboardGame.ts:43-55 | the fields are the starting state: WINDOW mode, the given count, a drawn round, nothing clicked, guessing, streak 0, both toggles off; the invariant holds |
| Game.FretboardGame.HandleFretClick | src/hooks/useFretboardGame.ts:91-100 | the new fields are `AfterClick` of the old ones (ignored after the reveal or outside the window, else a toggle); the invariant is kept |
| Game.FretboardGame.SubmitGuess | src/hooks/useFretboardGame.ts:102-133 | the nested loops and checks produce `AfterSubmit` of the old fields: streak+1 on a win, otherwise 0, and REVEALED; the invariant is kept |
| Game.FretboardGame.GenerateNewRound | src/hooks/useFretboardGame.ts:62-66 | the new fields are `AfterNewRound`: same mode, count and streak; the drawn round, no clicks, guessing; the invariant is kept |
| Game.FretboardGame.ToggleMode | src/hooks/useFretboardGame.ts:68-77 | the new fields are `AfterToggleMode`: the other mode, a round drawn for it, streak 0, no clicks, guessing; the invariant is kept |
| Game.FretboardGame.UpdateNoteCount | src/hooks/useFretboardGame.ts:79-89 | the new fields are `AfterUpdateCount`: the clamped count; an unchanged count changes nothing, a changed one draws a round, clears the clicks and sets guessing; the invariant is kept |
| Game.FretboardGame.SetSheetMode | src/hooks/useFretboardGame.ts:48 | only the staff toggle changes |
| Game.FretboardGame.SetHiddenMode | src/hooks/useFretboardGame.ts:49 | only the hide-guesses toggle changes |
| SheetMusic.MapNote | src/components/SheetMusic.tsx:43-74 | the drawn pitch is `60 + val` (WINDOW) or `val + 12` (OCTAVE); `12 * (octave + 1) + semitone` is that pitch; an accidental appears iff the semitone is 1, 3, 6, 8 or 10, `b` under flats and `#` under sharps; the colour is `colors[i % colors.length]`, absent for no colours |
| SheetMusic.MapNotes | src/components/SheetMusic.tsx:43-74 | the `notes.map`: one entry per target, in the targets' order; entry `i` is drawn at the rendered pitch of target `i` and gets colour `colors[i % colors.length]` |
| SheetMusic.SpellNotes | src/components/SheetMusic.tsx:76 | the list is sorted by drawn pitch and is a permutation of the mapped targets |
| SheetMusic.SpellingDenotesPitch | src/components/SheetMusic.tsx:48-64 | the letter, accidental and octave drawn stand for exactly the rendered pitch (c=0, d=2, e=4, f=5, g=7, a=9, b=11, plus 1 for `#` and minus 1 for `b`), in both spellings |
| SheetMusic.SemitoneSpelled | src/components/SheetMusic.tsx:54-64 | each table letter and accidental denotes its semitone |
| SheetMusic.FlatAndSharpSpellings | src/components/SheetMusic.tsx:55-60 | the two tables agree on white keys; on a black key the flat letter is the one after the sharp letter |
| SheetMusic.WindowTargetsInOctaveFour | src/components/SheetMusic.tsx:44-48 | a WINDOW target 0..11 is drawn in octave 4 |
| SheetMusic.SortBySorted | src/components/SheetMusic.tsx:76 | sorting a list already ordered by the key leaves it unchanged |
| SheetMusic.RoundSpelledInOrder | src/components/SheetMusic.tsx:71-76 | for strictly increasing targets the sort keeps the order, so staff note `i` is target `i` with colour `colors[i % colors.length]` |
| FretboardCells.IndexOf | src/components/FretboardGame.tsx:212 | `indexOf` gives -1 iff the value is absent, otherwise the first index holding it |
| FretboardCells.ColorSlot | src/components/FretboardGame.tsx:105 | `colorIndices[idx % colorIndices.length]` exists iff there are colour indices, and is one of them |
| FretboardCells.TargetLabels | src/components/FretboardGame.tsx:104-107 | one label per target; label `k` gets the palette slot `colorIndices[k % length]` |
| FretboardCells.CellMarker | src/components/FretboardGame.tsx:224-248 | while guessing, a clicked cell shows the selection unless guesses are hidden, and nothing else shows; after the reveal, found means target and clicked, missed means target, unclicked and in the window, false positive means clicked and not a target; found and missed markers carry the target's palette slot |
| FretboardCells.ClassifyCell | src/components/FretboardGame.tsx:200-248 | a cell is active iff its fret is in the window; it is a target iff it matches as `submitGuess` does, and a target inside the window is exactly a correct position; the anchor mark is in WINDOW mode on string 0 at the anchor; while guessing only a clicked cell shows the selection, unless hidden; after the reveal, found means target and clicked, missed means target, unclicked and active, false positive means clicked and not a target; found and missed markers carry the cell's palette slot |
| FretboardCells.CellColourMatchesLabel | src/components/FretboardGame.tsx:212-218 | with distinct targets a target cell gets the palette slot of the label of the target it sounds |
| FretboardCells.DistinctTargetColours | src/components/FretboardGame.tsx:105-106 | up to six targets with a permuted 0..5 colour order get pairwise different slots, each in 0..5 |
| FretboardCells.AnchorInsideWindow | src/components/FretboardGame.tsx:203 | the anchor mark of an anchor 0..14 lies in an active cell |
| FretboardCells.RevealedBoardShowsVerdict | src/components/FretboardGame.tsx:236-248 | after the reveal, with clicks on the board and inside the window, the board shows no false positive, no missed cell and at least one found cell iff the guess is a win |
| FretboardCells.SubmittedBoardShowsVerdict | src/components/FretboardGame.tsx:236-248 | after `submitGuess` on a valid game whose clicks are on strings 0..5, the board shows a clean sheet iff the streak went up by one |

## Left out

- Rendering is not modelled: React's state hooks and re-render timing, VexFlow drawing, Tailwind classes, the palette's colour names, the fret inlays and numbers, and `src/App.tsx`. Each handler is one atomic state transition.
- Game.Initial: the default `initialCount = 1` of `useFretboardGame` is not modelled; the count is always passed in.
- The staff key is kept as a pair (letter, octave). The text `letter/octave` handed to VexFlow is not formed.
- The palette is kept as the slot index a cell or label uses. A slot outside 0..5 yields an undefined palette entry in the source; the model does not capture that.
- `Math.random()` is modelled as a finite list of draws in [0, 1). The probabilities are not modelled. The order that the random comparator gives `[0..5]` is taken as a given permutation.
- RoundGeneration.CreateRoundData: the source loop ends with probability 1 but after no fixed number of draws. The model runs it over the draws given and returns `None` when they run out first.
- Game.FretboardGame.constructor, GenerateNewRound, ToggleMode, UpdateNoteCount: these require draws that suffice for the round they draw. Running out of draws stands for a loop that has not ended yet.
- Game.FretboardGame.HandleFretClick: the source removes a clicked position by object identity. The model removes it by value. The two agree because the list never holds the same position twice, which the game invariant keeps.
- Game.FretboardGame.HandleFretClick: the string index is not range-checked, as in the source. FretboardCells.SubmittedBoardShowsVerdict therefore asks for clicks on strings 0..5, which the board's cells always supply.
- The staff component is modelled by its own props (`notes`, `colors`, `gameMode`, `useFlats`). The call at src/components/FretboardGame.tsx:117 passes `noteValue` instead, and that call is not modelled.
