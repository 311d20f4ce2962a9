/** The game hook's state and handlers (src/hooks/useFretboardGame.ts,
    `useFretboardGame`). Each handler is one atomic transition of the state. */
module Game {
  import opened Common
  import opened Fretboard
  import opened RoundGeneration

  /** `prev.filter(p => p !== exists)`: the clicked list without `pos`. */
  function Without(clicked: seq<FretPosition>, pos: FretPosition): (r: seq<FretPosition>)
    ensures forall p :: p in r <==> p in clicked && p != pos
    ensures NoDuplicates(clicked) ==> NoDuplicates(r)
    ensures pos !in clicked ==> r == clicked
  {
    if clicked == [] then []
    else
      var rest := Without(clicked[1..], pos);
      assert clicked == [clicked[0]] + clicked[1..];
      assert NoDuplicates(clicked) ==> clicked[0] !in clicked[1..];
      if clicked[0] == pos then rest else [clicked[0]] + rest
  }

  /** A click on a position inside the window: unselect it when selected,
      otherwise append it. */
  function Toggle(clicked: seq<FretPosition>, pos: FretPosition): (r: seq<FretPosition>)
    ensures forall p :: p in r <==> (p in clicked <==> p != pos)
    ensures NoDuplicates(clicked) ==> NoDuplicates(r)
  {
    if pos in clicked then Without(clicked, pos) else clicked + [pos]
  }

  /** Two identical clicks select the same positions as before; when the
      position was not selected they restore the list exactly. */
  lemma {:induction false} ToggleTwice(clicked: seq<FretPosition>, pos: FretPosition)
    ensures forall p :: p in Toggle(Toggle(clicked, pos), pos) <==> p in clicked
    ensures pos !in clicked ==> Toggle(Toggle(clicked, pos), pos) == clicked
  {
    if pos !in clicked {
      WithoutAppended(clicked, pos);
    }
  }

  lemma {:induction false} WithoutAppended(clicked: seq<FretPosition>, pos: FretPosition)
    requires pos !in clicked
    ensures Without(clicked + [pos], pos) == clicked
  {
    if clicked == [] {
      assert Without([pos], pos) == Without([], pos);
    } else {
      assert (clicked + [pos])[1..] == clicked[1..] + [pos];
      WithoutAppended(clicked[1..], pos);
    }
  }

  predicate BoardOrdered(ps: seq<FretPosition>)
  {
    forall i, j :: 0 <= i < j < |ps| ==> Before(ps[i], ps[j])
  }

  /** String by string, then fret by fret: the order `submitGuess` visits cells. */
  predicate Before(p: FretPosition, q: FretPosition)
  {
    p.stringIndex < q.stringIndex || (p.stringIndex == q.stringIndex && p.fret < q.fret)
  }

  /** The nested loops of `submitGuess` that collect `correctPositions`. */
  method CorrectPositions(mode: GameMode, notes: seq<int>, lo: int, hi: int) returns (correct: seq<FretPosition>)
    ensures forall p :: p in correct <==> p in CorrectSet(mode, notes, lo, hi)
    ensures BoardOrdered(correct)
  {
    correct := [];
    for s := 0 to 6
      invariant forall p :: p in correct <==> IsCorrectPosition(mode, notes, lo, hi, p) && p.stringIndex < s
      invariant BoardOrdered(correct)
    {
      var f := lo;
      while f <= hi
        invariant lo <= f
        invariant forall p :: p in correct <==> IsCorrectPosition(mode, notes, lo, hi, p) && (p.stringIndex < s || (p.stringIndex == s && p.fret < f))
        invariant BoardOrdered(correct)
      {
        var pitch := Tuning[s] + f;
        var isMatch := false;
        if mode == Window {
          isMatch := JsRem12(pitch) in notes;
        } else {
          isMatch := pitch in notes;
        }
        if isMatch {
          correct := correct + [FretPosition(s, f)];
        }
        f := f + 1;
      }
    }
  }

  /** The round is won when the clicked positions are exactly the correct
      ones and there is at least one. */
  predicate IsWin(clicked: seq<FretPosition>, correct: set<FretPosition>)
  {
    && (forall p :: p in correct ==> p in clicked)
    && (forall p :: p in clicked ==> p in correct)
    && correct != {}
  }

  /** The checks `submitGuess` makes on the collected list decide `IsWin`. */
  lemma ListVerdict(correct: seq<FretPosition>, clicked: seq<FretPosition>, cs: set<FretPosition>)
    requires forall p :: p in correct <==> p in cs
    ensures IsWin(clicked, cs) <==>
      && (forall cp :: cp in correct ==> cp in clicked)
      && (forall cf :: cf in clicked ==> cf in correct)
      && |correct| > 0
  {
    if cs != {} {
      var p :| p in cs;
      assert p in correct;
    }
    if |correct| > 0 {
      assert correct[0] in cs;
    }
  }

  /** The scoring part of `submitGuess`: collect the correct positions, then
      check that every one was clicked, that every click is one of them, and
      that there is at least one. */
  method ScoreGuess(mode: GameMode, notes: seq<int>, lo: int, hi: int, clicked: seq<FretPosition>) returns (won: bool)
    ensures won == IsWin(clicked, CorrectSet(mode, notes, lo, hi))
  {
    var correct := CorrectPositions(mode, notes, lo, hi);
    var allCorrectFound := forall cp :: cp in correct ==> cp in clicked;
    var noFalsePositives := forall cf :: cf in clicked ==> cf in correct;
    ListVerdict(correct, clicked, CorrectSet(mode, notes, lo, hi));
    won := allCorrectFound && noFalsePositives && |correct| > 0;
  }

  /** Submitting with nothing clicked never wins. */
  lemma EmptyGuessLoses(correct: set<FretPosition>)
    ensures !IsWin([], correct)
  {
    if correct != {} {
      var p :| p in correct;
      assert p !in [];
    }
  }

  /** The hook's state as a value: everything `useFretboardGame` keeps in
      `useState`. */
  datatype HookState = HookState(
    gameMode: GameMode,
    noteCount: int,
    isSheetMode: bool,
    isHiddenMode: bool,
    roundData: RoundData,
    clickedFrets: seq<FretPosition>,
    gameState: GameState,
    streak: nat)

  function Lo(st: HookState): int
  {
    WindowStart(st.gameMode, st.roundData.anchor)
  }

  function Hi(st: HookState): int
  {
    WindowEnd(st.gameMode, st.roundData.anchor)
  }

  /** What the game keeps true between handlers: a valid round for the
      current mode and count, and distinct clicks, all inside the window. */
  predicate ValidState(st: HookState)
  {
    && ValidRound(st.roundData, st.gameMode, st.noteCount)
    && NoDuplicates(st.clickedFrets)
    && forall p :: p in st.clickedFrets ==> Lo(st) <= p.fret <= Hi(st)
  }

  /** `useFretboardGame(initialCount)`. */
  function Initial(initialCount: int, rnd: RandomDraws): HookState
    requires rnd.Valid() && Suffices(initialCount, Window, rnd)
  {
    HookState(Window, initialCount, false, false, DrawRound(initialCount, Window, rnd).value, [], Guessing, 0)
  }

  /** `handleFretClick`. */
  function AfterClick(st: HookState, stringIndex: int, fret: int): HookState
  {
    if st.gameState == Revealed || fret < Lo(st) || fret > Hi(st) then st
    else st.(clickedFrets := Toggle(st.clickedFrets, FretPosition(stringIndex, fret)))
  }

  /** `submitGuess`. */
  function AfterSubmit(st: HookState): HookState
  {
    var won := IsWin(st.clickedFrets, CorrectSet(st.gameMode, st.roundData.notes, Lo(st), Hi(st)));
    st.(streak := if won then st.streak + 1 else 0, gameState := Revealed)
  }

  /** `generateNewRound`. */
  function AfterNewRound(st: HookState, rnd: RandomDraws): HookState
    requires rnd.Valid() && Suffices(st.noteCount, st.gameMode, rnd)
  {
    st.(roundData := DrawRound(st.noteCount, st.gameMode, rnd).value, clickedFrets := [], gameState := Guessing)
  }

  /** `toggleMode`. */
  function AfterToggleMode(st: HookState, rnd: RandomDraws): HookState
    requires rnd.Valid() && Suffices(st.noteCount, Flip(st.gameMode), rnd)
  {
    var newMode := Flip(st.gameMode);
    st.(gameMode := newMode, streak := 0, roundData := DrawRound(st.noteCount, newMode, rnd).value,
      clickedFrets := [], gameState := Guessing)
  }

  /** `Math.max(1, Math.min(4, n))`. */
  function ClampCount(n: int): (c: int)
    ensures 1 <= c <= 4
    ensures 1 <= n <= 4 ==> c == n
    ensures n < 1 ==> c == 1
    ensures n > 4 ==> c == 4
  {
    Max(1, Min(4, n))
  }

  /** Whether the draws pay for the round `updateNoteCount` would draw. */
  predicate CountDrawsSuffice(st: HookState, delta: int, rnd: RandomDraws)
    requires rnd.Valid()
  {
    ClampCount(st.noteCount + delta) != st.noteCount ==> Suffices(ClampCount(st.noteCount + delta), st.gameMode, rnd)
  }

  /** `updateNoteCount`. */
  function AfterUpdateCount(st: HookState, delta: int, rnd: RandomDraws): HookState
    requires rnd.Valid() && CountDrawsSuffice(st, delta, rnd)
  {
    var newCount := ClampCount(st.noteCount + delta);
    if newCount == st.noteCount then st
    else st.(noteCount := newCount, roundData := DrawRound(newCount, st.gameMode, rnd).value,
      clickedFrets := [], gameState := Guessing)
  }

  /** A state holding a freshly drawn round for its mode and count, with no
      clicks, is valid. */
  lemma FreshRoundValid(st: HookState, rnd: RandomDraws)
    requires rnd.Valid() && Suffices(st.noteCount, st.gameMode, rnd)
    requires st.roundData == DrawRound(st.noteCount, st.gameMode, rnd).value && st.clickedFrets == []
    ensures ValidState(st)
  {
    DrawRoundValid(st.noteCount, st.gameMode, rnd);
  }

  /** The game starts valid. */
  lemma InitialValid(initialCount: int, rnd: RandomDraws)
    requires rnd.Valid() && Suffices(initialCount, Window, rnd)
    ensures ValidState(Initial(initialCount, rnd))
    ensures Initial(initialCount, rnd).roundData.notes != [] <==> initialCount >= 1
  {
    FreshRoundValid(Initial(initialCount, rnd), rnd);
  }

  /** A click keeps the game valid; it changes only the clicks, and those
      only while guessing and inside the window, where it toggles one
      position. */
  lemma ClickKeepsValid(st: HookState, stringIndex: int, fret: int)
    requires ValidState(st)
    ensures ValidState(AfterClick(st, stringIndex, fret))
    ensures AfterClick(st, stringIndex, fret) == st.(clickedFrets := AfterClick(st, stringIndex, fret).clickedFrets)
    ensures forall p :: p in AfterClick(st, stringIndex, fret).clickedFrets <==>
      if st.gameState == Guessing && Lo(st) <= fret <= Hi(st)
      then (p in st.clickedFrets <==> p != FretPosition(stringIndex, fret))
      else p in st.clickedFrets
  {
  }

  /** Two identical clicks while guessing select the same positions as
      before, and give back the very same state when the position was not
      selected. */
  lemma ClickTwice(st: HookState, stringIndex: int, fret: int)
    requires ValidState(st)
    ensures forall p :: p in AfterClick(AfterClick(st, stringIndex, fret), stringIndex, fret).clickedFrets <==> p in st.clickedFrets
    ensures FretPosition(stringIndex, fret) !in st.clickedFrets ==>
      AfterClick(AfterClick(st, stringIndex, fret), stringIndex, fret) == st
  {
    ToggleTwice(st.clickedFrets, FretPosition(stringIndex, fret));
  }

  /** Submitting keeps the game valid and the clicks, reveals the board, and
      raises the streak exactly for an exact, non-empty match. */
  lemma SubmitScores(st: HookState)
    requires ValidState(st)
    ensures ValidState(AfterSubmit(st))
    ensures AfterSubmit(st).gameState == Revealed
    ensures AfterSubmit(st).clickedFrets == st.clickedFrets && AfterSubmit(st).roundData == st.roundData
    ensures AfterSubmit(st).streak > 0 <==>
      && (forall p :: p in st.clickedFrets <==> IsCorrectPosition(st.gameMode, st.roundData.notes, Lo(st), Hi(st), p))
      && st.clickedFrets != []
    ensures AfterSubmit(st).streak > 0 ==> AfterSubmit(st).streak == st.streak + 1
  {
    var cs := CorrectSet(st.gameMode, st.roundData.notes, Lo(st), Hi(st));
    if st.clickedFrets != [] && forall p :: p in st.clickedFrets <==> IsCorrectPosition(st.gameMode, st.roundData.notes, Lo(st), Hi(st), p) {
      assert st.clickedFrets[0] in cs;
    }
  }

  /** A new round keeps mode, count and streak and leaves the game valid. */
  lemma NewRoundKeepsValid(st: HookState, rnd: RandomDraws)
    requires ValidState(st) && rnd.Valid() && Suffices(st.noteCount, st.gameMode, rnd)
    ensures ValidState(AfterNewRound(st, rnd))
  {
    FreshRoundValid(AfterNewRound(st, rnd), rnd);
  }

  /** Switching mode leaves the game valid in the other mode, with the
      count kept, the streak reset, nothing clicked and guessing. */
  lemma ToggleModeKeepsValid(st: HookState, rnd: RandomDraws)
    requires ValidState(st) && rnd.Valid() && Suffices(st.noteCount, Flip(st.gameMode), rnd)
    ensures ValidState(AfterToggleMode(st, rnd))
    ensures AfterToggleMode(st, rnd).gameMode != st.gameMode
    ensures AfterToggleMode(st, rnd).noteCount == st.noteCount
    ensures AfterToggleMode(st, rnd).streak == 0
    ensures AfterToggleMode(st, rnd).clickedFrets == [] && AfterToggleMode(st, rnd).gameState == Guessing
  {
    FreshRoundValid(AfterToggleMode(st, rnd), rnd);
  }

  /** Changing the count leaves the game valid with a count in 1..4 (or the
      unchanged count) and never touches the streak or the mode. */
  lemma UpdateCountKeepsValid(st: HookState, delta: int, rnd: RandomDraws)
    requires ValidState(st) && rnd.Valid() && CountDrawsSuffice(st, delta, rnd)
    ensures ValidState(AfterUpdateCount(st, delta, rnd))
    ensures AfterUpdateCount(st, delta, rnd).noteCount == ClampCount(st.noteCount + delta)
    ensures AfterUpdateCount(st, delta, rnd).streak == st.streak
    ensures AfterUpdateCount(st, delta, rnd).gameMode == st.gameMode
  {
    if ClampCount(st.noteCount + delta) != st.noteCount {
      FreshRoundValid(AfterUpdateCount(st, delta, rnd), rnd);
    }
  }

  class FretboardGame {
    var gameMode: GameMode
    var noteCount: int
    var isSheetMode: bool
    var isHiddenMode: bool
    var roundData: RoundData
    var clickedFrets: seq<FretPosition>
    var gameState: GameState
    var streak: nat

    /** The fields as one value. */
    function Snap(): HookState
      reads this
    {
      HookState(gameMode, noteCount, isSheetMode, isHiddenMode, roundData, clickedFrets, gameState, streak)
    }

    ghost predicate Valid()
      reads this
    {
      ValidState(Snap())
    }

    /** `useFretboardGame(initialCount)`: WINDOW mode, a fresh round, nothing clicked. */
    constructor (initialCount: int, rnd: RandomDraws)
      requires rnd.Valid() && Suffices(initialCount, Window, rnd)
      ensures Snap() == Initial(initialCount, rnd)
      ensures Valid()
    {
      var r := CreateRoundData(initialCount, Window, rnd);
      gameMode := Window;
      noteCount := initialCount;
      isSheetMode := false;
      isHiddenMode := false;
      roundData := r.value;
      clickedFrets := [];
      gameState := Guessing;
      streak := 0;
      InitialValid(initialCount, rnd);
    }

    /** `handleFretClick`: ignored after the reveal and outside the window,
      otherwise toggles the position. */
    method HandleFretClick(stringIndex: int, fret: int)
      requires Valid()
      modifies this
      ensures Snap() == AfterClick(old(Snap()), stringIndex, fret)
      ensures Valid()
    {
      ClickKeepsValid(Snap(), stringIndex, fret);
      if gameState == Revealed {
        return;
      }
      if fret < WindowStart(gameMode, roundData.anchor) || fret > WindowEnd(gameMode, roundData.anchor) {
        return;
      }
      clickedFrets := Toggle(clickedFrets, FretPosition(stringIndex, fret));
    }

    /** `submitGuess`: scores the clicks against the correct positions and reveals. */
    method SubmitGuess()
      requires Valid()
      modifies this
      ensures Snap() == AfterSubmit(old(Snap()))
      ensures Valid()
    {
      var st := Snap();
      var won := ScoreGuess(st.gameMode, st.roundData.notes, Lo(st), Hi(st), st.clickedFrets);
      Commit(st.(streak := if won then st.streak + 1 else 0, gameState := Revealed));
    }

    /** `generateNewRound`: same mode, count and streak; a fresh round. */
    method GenerateNewRound(rnd: RandomDraws)
      requires Valid()
      requires rnd.Valid() && Suffices(noteCount, gameMode, rnd)
      modifies this
      ensures Snap() == AfterNewRound(old(Snap()), rnd)
      ensures Valid()
    {
      var st := Snap();
      NewRoundKeepsValid(st, rnd);
      var r := CreateRoundData(noteCount, gameMode, rnd);
      Commit(st.(roundData := r.value, clickedFrets := [], gameState := Guessing));
    }

    /** `toggleMode`: the other mode, a fresh round for it, and the streak reset. */
    method ToggleMode(rnd: RandomDraws)
      requires Valid()
      requires rnd.Valid() && Suffices(noteCount, Flip(gameMode), rnd)
      modifies this
      ensures Snap() == AfterToggleMode(old(Snap()), rnd)
      ensures Valid()
    {
      var st := Snap();
      ToggleModeKeepsValid(st, rnd);
      var newMode := Flip(gameMode);
      var r := CreateRoundData(noteCount, newMode, rnd);
      Commit(st.(gameMode := newMode, streak := 0, roundData := r.value, clickedFrets := [], gameState := Guessing));
    }

    /** `updateNoteCount`: clamps the new count to 1..4; only a changed count
      draws a new round, and the streak is kept either way. */
    method UpdateNoteCount(delta: int, rnd: RandomDraws)
      requires Valid()
      requires rnd.Valid() && CountDrawsSuffice(Snap(), delta, rnd)
      modifies this
      ensures Snap() == AfterUpdateCount(old(Snap()), delta, rnd)
      ensures Valid()
    {
      var st := Snap();
      UpdateCountKeepsValid(st, delta, rnd);
      var newCount := ClampCount(st.noteCount + delta);
      if newCount != st.noteCount {
        var r := CreateRoundData(newCount, st.gameMode, rnd);
        Commit(st.(noteCount := newCount, roundData := r.value, clickedFrets := [], gameState := Guessing));
      }
    }

    /** Stores a whole new state, as the handlers' `set...` calls do together. */
    method Commit(next: HookState)
      modifies this
      ensures Snap() == next
    {
      gameMode, noteCount, isSheetMode, isHiddenMode := next.gameMode, next.noteCount, next.isSheetMode, next.isHiddenMode;
      roundData, clickedFrets, gameState, streak := next.roundData, next.clickedFrets, next.gameState, next.streak;
    }

    /** The "Sheet Music" checkbox. */
    method SetSheetMode(on: bool)
      requires Valid()
      modifies this
      ensures Snap() == old(Snap()).(isSheetMode := on)
      ensures Valid()
    {
      isSheetMode := on;
    }

    /** The "Hide Guesses" checkbox. */
    method SetHiddenMode(on: bool)
      requires Valid()
      modifies this
      ensures Snap() == old(Snap()).(isHiddenMode := on)
      ensures Valid()
    {
      isHiddenMode := on;
    }
  }
}
