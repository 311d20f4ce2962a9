/** What the board shows (src/components/FretboardGame.tsx): the colour of
    each target label, and for every (string, fret) cell whether it is in the
    window, whether it is a target, which palette slot it is painted with and
    which marker it carries. Tailwind class strings become the `Marker` kinds. */
module FretboardCells {
  import opened Common
  import opened Sorting
  import opened Fretboard
  import opened Game

  /** The marker drawn on a cell. `Found` and `Missed` carry the palette slot
      of the target (absent when there are no colour indices). */
  datatype Marker = NoMarker | Selection | Found(slot: Option<int>) | Missed(slot: Option<int>) | FalsePositive

  /** The hook values the board is drawn from. */
  datatype BoardView = BoardView(
    mode: GameMode,
    notes: seq<int>,
    colorIndices: seq<int>,
    anchor: int,
    clicked: seq<FretPosition>,
    state: GameState,
    hidden: bool)

  datatype Cell = Cell(active: bool, clicked: bool, anchorMark: bool, target: bool, slot: Option<int>, marker: Marker)

  /** `Array.prototype.indexOf`: the first index holding `x`, or -1. */
  function IndexOf(s: seq<int>, x: int): (r: int)
    ensures -1 <= r < |s|
    ensures r == -1 <==> x !in s
    ensures 0 <= r ==> s[r] == x && forall j :: 0 <= j < r ==> s[j] != x
  {
    if s == [] then -1
    else if s[0] == x then 0
    else
      var k := IndexOf(s[1..], x);
      if k == -1 then -1 else k + 1
  }

  /** `colorIndices[idx % colorIndices.length]`: the palette slot for the
      target at index `idx`. */
  function ColorSlot(colorIndices: seq<int>, idx: nat): (c: Option<int>)
    ensures c.Some? <==> |colorIndices| > 0
    ensures c.Some? ==> c.value in colorIndices
  {
    if |colorIndices| == 0 then None else Some(colorIndices[idx % |colorIndices|])
  }

  /** The label shown above the board for one target: its palette slot and
      its name. */
  datatype Label = Label(slot: Option<int>, name: NoteName)

  function TargetLabels(notes: seq<int>, colorIndices: seq<int>): (ls: seq<Label>)
    ensures |ls| == |notes|
    ensures forall k :: 0 <= k < |ls| ==> ls[k].slot == ColorSlot(colorIndices, k)
  {
    seq(|notes|, k requires 0 <= k < |notes| => Label(ColorSlot(colorIndices, k), GetNoteName(notes[k])))
  }

  /** The marker a cell gets from the game state and what is known about it. */
  function CellMarker(state: GameState, hidden: bool, isTarget: bool, isClicked: bool, isActive: bool, slot: Option<int>): (m: Marker)
    ensures (m.Found? || m.Missed?) ==> m.slot == slot && isTarget
    ensures state == Guessing ==> (m == Selection <==> isClicked && !hidden) && (m == Selection || m == NoMarker)
    ensures state == Revealed ==>
      && (m.Found? <==> isTarget && isClicked)
      && (m.Missed? <==> isTarget && !isClicked && isActive)
      && (m == FalsePositive <==> !isTarget && isClicked)
      && m != Selection
  {
    if state == Guessing then
      if isClicked && !hidden then Selection else NoMarker
    else if isTarget && isClicked then Found(slot)
    else if isTarget && !isClicked && isActive then Missed(slot)
    else if !isTarget && isClicked then FalsePositive
    else NoMarker
  }

  /** One cell of the board, for string `s` and fret `fret`. */
  function ClassifyCell(v: BoardView, s: int, fret: int): (c: Cell)
    requires 0 <= s < 6
    ensures c.active <==> WindowStart(v.mode, v.anchor) <= fret <= WindowEnd(v.mode, v.anchor)
    ensures c.clicked <==> FretPosition(s, fret) in v.clicked
    ensures c.anchorMark <==> v.mode == Window && s == 0 && fret == v.anchor
    ensures c.target <==> IsMatch(v.mode, v.notes, Tuning[s] + fret)
    ensures c.target && c.active <==>
      FretPosition(s, fret) in CorrectSet(v.mode, v.notes, WindowStart(v.mode, v.anchor), WindowEnd(v.mode, v.anchor))
    ensures c.slot.Some? ==> c.target
    ensures (c.marker.Found? || c.marker.Missed?) ==> c.marker.slot == c.slot
    ensures v.state == Guessing ==>
      (c.marker == Selection <==> c.clicked && !v.hidden) && (c.marker == Selection || c.marker == NoMarker)
    ensures v.state == Revealed ==>
      && (c.marker.Found? <==> c.target && c.clicked)
      && (c.marker.Missed? <==> c.target && !c.clicked && c.active)
      && (c.marker.FalsePositive? <==> !c.target && c.clicked)
      && c.marker != Selection
  {
    var lo, hi := WindowStart(v.mode, v.anchor), WindowEnd(v.mode, v.anchor);
    var isActive := lo <= fret <= hi;
    var isClicked := FretPosition(s, fret) in v.clicked;
    var isAnchor := v.mode == Window && s == 0 && fret == v.anchor;
    var pitch := Tuning[s] + fret;
    var targetIdx := IndexOf(v.notes, MatchKey(v.mode, pitch));
    var isTarget := targetIdx != -1;
    var slot := if isTarget then ColorSlot(v.colorIndices, targetIdx) else None;
    Cell(isActive, isClicked, isAnchor, isTarget, slot, CellMarker(v.state, v.hidden, isTarget, isClicked, isActive, slot))
  }

  /** With distinct targets a target cell is painted with the same palette
      slot as the label of the target it sounds. */
  lemma CellColourMatchesLabel(v: BoardView, s: int, fret: int, k: nat)
    requires 0 <= s < 6
    requires StrictlyIncreasing(v.notes)
    requires k < |v.notes| && v.notes[k] == MatchKey(v.mode, Tuning[s] + fret)
    ensures ClassifyCell(v, s, fret).target
    ensures ClassifyCell(v, s, fret).slot == TargetLabels(v.notes, v.colorIndices)[k].slot
  {
  }

  /** A round of at most six targets whose colour indices are a permutation
      of the six palette slots paints different targets in different colours,
      each one of the six. */
  lemma DistinctTargetColours(notes: seq<int>, colorIndices: seq<int>, k1: nat, k2: nat)
    requires |notes| <= 6 && IsColorOrder(colorIndices)
    requires k1 < |notes| && k2 < |notes| && k1 != k2
    ensures ColorSlot(colorIndices, k1).Some? && ColorSlot(colorIndices, k2).Some?
    ensures ColorSlot(colorIndices, k1) != ColorSlot(colorIndices, k2)
    ensures 0 <= ColorSlot(colorIndices, k1).value < 6
  {
    var six := [0, 1, 2, 3, 4, 5];
    assert |colorIndices| == 6 by {
      assert |multiset(colorIndices)| == |multiset(six)|;
    }
    assert NoDuplicates(six);
    NoDuplicatesCounts(six);
    NoDuplicatesCounts(colorIndices);
    assert k1 % 6 == k1 && k2 % 6 == k2;
    assert colorIndices[k1] in multiset(six);
  }

  /** The anchor marker of a valid anchor lies inside the active window. */
  lemma AnchorInsideWindow(v: BoardView, s: int, fret: int)
    requires 0 <= s < 6 && 0 <= v.anchor <= 14
    requires ClassifyCell(v, s, fret).anchorMark
    ensures ClassifyCell(v, s, fret).active
  {
  }

  predicate OnBoardCell(p: FretPosition)
  {
    0 <= p.stringIndex < 6 && 0 <= p.fret <= 14
  }

  /** No false positive or missed marker anywhere, and at least one found. */
  predicate ShowsWin(v: BoardView)
  {
    && (forall s, f :: 0 <= s < 6 && 0 <= f <= 14 ==>
          !ClassifyCell(v, s, f).marker.FalsePositive? && !ClassifyCell(v, s, f).marker.Missed?)
    && (exists s, f :: 0 <= s < 6 && 0 <= f <= 14 && ClassifyCell(v, s, f).marker.Found?)
  }

  /** After the reveal, the board shows a clean sheet (no false positive, no
      missed target, something found) exactly when `submitGuess` scored the
      clicks as a win. The clicks lie on the board and inside the window, as
      the game keeps them. */
  lemma RevealedBoardShowsVerdict(v: BoardView)
    requires v.state == Revealed
    requires forall p :: p in v.clicked ==>
      OnBoardCell(p) && WindowStart(v.mode, v.anchor) <= p.fret <= WindowEnd(v.mode, v.anchor)
    ensures ShowsWin(v) <==>
      IsWin(v.clicked, CorrectSet(v.mode, v.notes, WindowStart(v.mode, v.anchor), WindowEnd(v.mode, v.anchor)))
  {
    var lo, hi := WindowStart(v.mode, v.anchor), WindowEnd(v.mode, v.anchor);
    var cs := CorrectSet(v.mode, v.notes, lo, hi);
    if ShowsWin(v) {
      forall p | p in cs ensures p in v.clicked {
        var c := ClassifyCell(v, p.stringIndex, p.fret);
        assert !c.marker.Missed?;
      }
      forall p | p in v.clicked ensures p in cs {
        var c := ClassifyCell(v, p.stringIndex, p.fret);
        assert !c.marker.FalsePositive?;
      }
      var s, f :| 0 <= s < 6 && 0 <= f <= 14 && ClassifyCell(v, s, f).marker.Found?;
      assert FretPosition(s, f) in v.clicked;
      assert FretPosition(s, f) in cs;
    }
    if IsWin(v.clicked, cs) {
      forall s, f | 0 <= s < 6 && 0 <= f <= 14
        ensures !ClassifyCell(v, s, f).marker.FalsePositive? && !ClassifyCell(v, s, f).marker.Missed?
      {
        var p := FretPosition(s, f);
        if p in v.clicked {
          assert p in cs;
        }
      }
      var p :| p in cs;
      assert p in v.clicked;
      assert ClassifyCell(v, p.stringIndex, p.fret).marker.Found?;
    }
  }

  /** The board drawn for a game state. */
  function ViewOf(st: HookState): BoardView
  {
    BoardView(st.gameMode, st.roundData.notes, st.roundData.colorIndices, st.roundData.anchor,
      st.clickedFrets, st.gameState, st.isHiddenMode)
  }

  /** After `submitGuess` on a valid game whose clicks came from the six
      drawn strings, the board shows a clean sheet exactly when the streak
      went up. */
  lemma SubmittedBoardShowsVerdict(st: HookState)
    requires ValidState(st)
    requires forall p :: p in st.clickedFrets ==> 0 <= p.stringIndex < 6
    ensures ShowsWin(ViewOf(AfterSubmit(st))) <==> AfterSubmit(st).streak == st.streak + 1
  {
    RevealedBoardShowsVerdict(ViewOf(AfterSubmit(st)));
  }
}
