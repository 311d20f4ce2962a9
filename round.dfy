/** Drawing a round (`createRoundData` in src/hooks/useFretboardGame.ts).

    The source draws from `Math.random()`; here the values it would return are
    an input, `RandomDraws`. The loop that adds notes to a `Set` runs until the
    set is big enough, which happens with probability 1 but not within any fixed
    number of draws; the model runs it over the finite draws it is given and
    reports `None` when they run out first. */
module RoundGeneration {
  import opened Common
  import opened Sorting
  import opened Fretboard

  /** The values `Math.random()` returns during one call: the draws for the
      target loop, one draw for the anchor, and the order that sorting
      [0..5] with a random comparator happens to produce. */
  datatype RandomDraws = RandomDraws(noteDraws: seq<real>, anchorDraw: real, colorOrder: seq<int>)
  {
    predicate Valid()
    {
      && (forall i :: 0 <= i < |noteDraws| ==> IsUnitDraw(noteDraws[i]))
      && IsUnitDraw(anchorDraw)
      && IsColorOrder(colorOrder)
    }
  }

  predicate IsUnitDraw(u: real)
  {
    0.0 <= u < 1.0
  }

  lemma ScaledDrawBelow(u: real, m: real)
    requires IsUnitDraw(u) && m > 0.0
    ensures 0.0 <= u * m < m
  {
    assert (1.0 - u) * m > 0.0;
  }

  /** `Math.floor(Math.random() * n)` for the draw `u`. */
  function RandomBelow(u: real, n: nat): (r: int)
    requires IsUnitDraw(u) && n > 0
    ensures 0 <= r < n
  {
    ScaledDrawBelow(u, n as real);
    (u * n as real).Floor
  }

  /** How many loop iterations the draws pay for: one draw per iteration in
      WINDOW mode, two (string, then fret) in OCTAVE mode. */
  function StepCount(mode: GameMode, draws: seq<real>): nat
  {
    if mode == Window then |draws| else |draws| / 2
  }

  /** The candidate the loop adds in iteration `i`. */
  function StepPitch(mode: GameMode, rnd: RandomDraws, i: nat): (p: int)
    requires rnd.Valid() && i < StepCount(mode, rnd.noteDraws)
  {
    var d := rnd.noteDraws;
    if mode == Window then RandomBelow(d[i], 12)
    else
      var s := RandomBelow(d[2 * i], 6);
      Tuning[s] + RandomBelow(d[2 * i + 1], 15)
  }

  /** All candidates the draws produce, in order. */
  function Candidates(mode: GameMode, rnd: RandomDraws): (ps: seq<int>)
    requires rnd.Valid()
    ensures |ps| == StepCount(mode, rnd.noteDraws)
  {
    seq(StepCount(mode, rnd.noteDraws), i requires 0 <= i < StepCount(mode, rnd.noteDraws) => StepPitch(mode, rnd, i))
  }

  /** Each candidate is a pitch class in WINDOW mode and a pitch some string
      sounds at frets 0..14 in OCTAVE mode. */
  lemma CandidatesInRange(mode: GameMode, rnd: RandomDraws)
    requires rnd.Valid()
    ensures forall i :: 0 <= i < |Candidates(mode, rnd)| ==> InPitchRange(mode, Candidates(mode, rnd)[i])
  {
    var ps := Candidates(mode, rnd);
    forall i | 0 <= i < |ps| ensures InPitchRange(mode, ps[i]) {
      if mode == Octave {
        var s := RandomBelow(rnd.noteDraws[2 * i], 6);
        assert 0 <= s < 6 && Tuning[s] <= ps[i] < Tuning[s] + 15;
      }
    }
  }

  /** The draws produce at least as many distinct candidates as `count` asks
      for (never more than 12), so the loop stops within them. */
  predicate Suffices(count: int, mode: GameMode, rnd: RandomDraws)
    requires rnd.Valid()
  {
    |Dedup(Candidates(mode, rnd))| >= Min(count, 12)
  }

  /** The round the draws determine: the first `min(count, 12)` distinct
      candidates, sorted ascending; the anchor 3 + floor(u * 9); the colour order. */
  function DrawRound(count: int, mode: GameMode, rnd: RandomDraws): (r: Option<RoundData>)
    requires rnd.Valid()
    ensures r.Some? <==> Suffices(count, mode, rnd)
    ensures r.Some? ==> 3 <= r.value.anchor <= 11 && r.value.colorIndices == rnd.colorOrder
    ensures r.Some? ==> |r.value.notes| == Max(0, Min(count, 12))
  {
    if !Suffices(count, mode, rnd) then None
    else Some(BuildRound(Dedup(Candidates(mode, rnd))[..Max(0, Min(count, 12))], RandomBelow(rnd.anchorDraw, 9) + 3, rnd.colorOrder))
  }

  /** The round data returned once the targets, anchor and colour order are
      chosen: the targets sorted ascending. */
  function BuildRound(chosen: seq<int>, anchor: int, colorIndices: seq<int>): RoundData
  {
    RoundData(SortBy(chosen, Identity), anchor, colorIndices)
  }

  /** Every round drawn is a valid round: strictly increasing (hence distinct)
      notes, exactly min(count, 12) of them, each in the mode's pitch range,
      an anchor in 3..11 and a permutation of the six palette slots. */
  lemma DrawRoundValid(count: int, mode: GameMode, rnd: RandomDraws)
    requires rnd.Valid()
    requires DrawRound(count, mode, rnd).Some?
    ensures ValidRound(DrawRound(count, mode, rnd).value, mode, count)
  {
    var ps := Candidates(mode, rnd);
    CandidatesInRange(mode, rnd);
    var distinct := Dedup(ps);
    DedupMembers(ps);
    var chosen := distinct[..Max(0, Min(count, 12))];
    var notes := SortBy(chosen, Identity);
    assert DrawRound(count, mode, rnd).value == BuildRound(chosen, RandomBelow(rnd.anchorDraw, 9) + 3, rnd.colorOrder);
    assert NoDuplicates(chosen);
    PermutationKeepsNoDuplicates(chosen, notes);
    SortedDistinctIsStrict(notes);
    forall i | 0 <= i < |notes| ensures InPitchRange(mode, notes[i]) {
      ChosenInRange(mode, ps, chosen, notes[i]);
    }
  }

  lemma ChosenInRange(mode: GameMode, ps: seq<int>, chosen: seq<int>, x: int)
    requires forall i :: 0 <= i < |ps| ==> InPitchRange(mode, ps[i])
    requires |chosen| <= |Dedup(ps)| && chosen == Dedup(ps)[..|chosen|]
    requires x in multiset(chosen)
    ensures InPitchRange(mode, x)
  {
    var j :| 0 <= j < |chosen| && chosen[j] == x;
    DedupMembers(ps);
    assert Dedup(ps)[j] in ps;
  }

  /** Where the loop stops on size, its set is the first `min(count, 12)`
      distinct candidates: the targets of the drawn round. */
  lemma StoppedRound(count: int, mode: GameMode, rnd: RandomDraws, i: nat, newNotes: seq<int>)
    requires rnd.Valid()
    requires i <= StepCount(mode, rnd.noteDraws)
    requires newNotes == Dedup(Candidates(mode, rnd)[..i])
    requires |newNotes| == Max(0, Min(count, 12))
    ensures Suffices(count, mode, rnd)
    ensures Dedup(Candidates(mode, rnd))[..Max(0, Min(count, 12))] == newNotes
  {
    DedupPrefix(Candidates(mode, rnd), i);
  }

  /** Where the draws run out first, they hold too few distinct candidates. */
  lemma ExhaustedRound(count: int, mode: GameMode, rnd: RandomDraws, newNotes: seq<int>)
    requires rnd.Valid()
    requires newNotes == Dedup(Candidates(mode, rnd))
    requires |newNotes| < Min(count, 12)
    ensures !Suffices(count, mode, rnd)
    ensures DrawRound(count, mode, rnd) == None
  {
  }

  /** The source's loop over `Math.random()`, run over the given draws. */
  method CreateRoundData(count: int, mode: GameMode, rnd: RandomDraws) returns (r: Option<RoundData>)
    requires rnd.Valid()
    ensures r == DrawRound(count, mode, rnd)
    ensures r.Some? <==> Suffices(count, mode, rnd)
    ensures r.Some? ==> ValidRound(r.value, mode, count)
  {
    var safeCount := Min(count, 12);
    ghost var ps := Candidates(mode, rnd);
    var steps := StepCount(mode, rnd.noteDraws);
    var newNotes: seq<int> := [];
    var i := 0;
    while |newNotes| < safeCount
      invariant 0 <= i <= steps
      invariant newNotes == Dedup(ps[..i])
      invariant |newNotes| <= Max(0, safeCount)
      decreases steps - i
    {
      if i == steps {
        assert ps[..i] == ps;
        ExhaustedRound(count, mode, rnd, newNotes);
        return None;
      }
      var pitch := StepPitch(mode, rnd, i);
      DedupStep(ps, i);
      if pitch !in newNotes {
        newNotes := newNotes + [pitch];
      }
      i := i + 1;
    }
    var anchor := RandomBelow(rnd.anchorDraw, 9) + 3;
    var colorIndices := rnd.colorOrder;
    r := Some(BuildRound(newNotes, anchor, colorIndices));
    StoppedRound(count, mode, rnd, i, newNotes);
    DrawRoundValid(count, mode, rnd);
  }
}
