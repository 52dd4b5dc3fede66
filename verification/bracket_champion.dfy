/** What every run of a generated bracket comes to: one champion, and one defeat for everybody else. */
module BracketChampion {
  import opened Common
  import opened Matches
  import opened Seeding
  import opened BracketShape
  import opened BracketRounds
  import opened BracketFirstRound
  import opened BracketPlay

  /** A bracket generated from participants with distinct ids. */
  ghost predicate Generated(p: Plan, input: seq<Participant>, shuffle: bool, choices: seq<nat>, rows: seq<MatchState>) {
    PlansFor(p, input, shuffle, choices) && DistinctIds(input) && IsBracket(p, rows)
  }

  ghost predicate Enters(input: seq<Participant>, v: Id) {
    exists i :: 0 <= i < |input| && input[i].id == v
  }

  lemma {:induction false} LaterSlots(p: Plan, rows: seq<MatchState>, k: nat, v: Id)
    requires IsBracket(p, rows) && Half(|p.order|) <= k <= |rows|
    ensures Slots(rows, k, v) == Slots(rows, Half(|p.order|), v)
    decreases k
  {
    if k > Half(|p.order|) {
      LaterSlots(p, rows, k - 1, v);
      var row := Row(p, k - 1, |rows| - 1);
    }
  }

  lemma SlotsOfAll(p: Plan, input: seq<Participant>, shuffle: bool, choices: seq<nat>, rows: seq<MatchState>, v: Id)
    requires Generated(p, input, shuffle, choices, rows)
    ensures Slots(rows, |rows|, v) == One(Enters(input, v))
  {
    LaterSlots(p, rows, |rows|, v);
    EverybodySitsOnce(p, input, shuffle, choices, rows, v);
  }

  lemma GeneratedIsFair(p: Plan, input: seq<Participant>, shuffle: bool, choices: seq<nat>, rows: seq<MatchState>)
    requires Generated(p, input, shuffle, choices, rows)
    ensures Fair(rows)
  {
    forall v
      ensures Slots(rows, |rows|, v) <= 1
    {
      SlotsOfAll(p, input, shuffle, choices, rows, v);
    }
  }

  /** The invariant, for the state that a legal list of moves leads to. */
  lemma ReachedInvariant(p: Plan, rows: seq<MatchState>, moves: seq<Move>)
    requires IsBracket(p, rows) && Legal(rows, Kickoff(rows), moves)
    ensures Invariant(p, rows, After(rows, Kickoff(rows), moves))
  {
    KickoffInvariant(p, rows);
    RunsKeepInvariant(p, rows, Kickoff(rows), moves);
  }

  /** Every decided match of a later round had exactly two distinct entrants, and one of them won. */
  lemma DecidedMatchHadTwo(p: Plan, input: seq<Participant>, shuffle: bool, choices: seq<nat>, rows: seq<MatchState>,
                           moves: seq<Move>, y: nat)
    requires Generated(p, input, shuffle, choices, rows) && Legal(rows, Kickoff(rows), moves)
    requires Half(|input|) <= y < |rows|
    ensures var s := After(rows, Kickoff(rows), moves);
            s.advanced[y].Some? ==>
              && s.seated[y].one.Some? && s.seated[y].two.Some? && s.seated[y].one != s.seated[y].two
              && Holds(s.seated[y], s.advanced[y].value)
  {
    var s, h := After(rows, Kickoff(rows), moves), Half(|input|);
    ReachedInvariant(p, rows, moves);
    if s.advanced[y].Some? {
      GeneratedIsFair(p, input, shuffle, choices, rows);
      assert SeatsFeeders(h, s, y) && WaitsForFeeders(h, s, y) && WinnerEntered(s, y);
      var v := s.seated[y].one.value;
      assert NobodyTwice(s, v);
      assert Count(s.seated[y], v) <= 1;
    }
  }

  /** Once the final is decided, so is every match. */
  lemma {:induction false} FinalComesLast(p: Plan, rows: seq<MatchState>, s: Progress, x: nat)
    requires Sound(p, rows, s) && x < |rows| && s.advanced[|rows| - 1].Some?
    ensures s.advanced[x].Some?
    decreases |rows| - x
  {
    if x < |rows| - 1 {
      var h := Half(|p.order|);
      var up := Parent(h, x);
      FinalComesLast(p, rows, s, up);
      assert WaitsForFeeders(h, s, up);
      assert x == LeftFeeder(h, up) || x == LeftFeeder(h, up) + 1;
    }
  }

  lemma {:induction false} NobodyStands(s: Progress, k: nat, v: Id)
    requires k <= |s.seated| == |s.advanced|
    requires forall x :: 0 <= x < k ==> s.advanced[x].Some?
    ensures Standing(s, k, v) == 0
  {
    if k > 0 {
      NobodyStands(s, k - 1, v);
    }
  }

  /**
   However the matches were decided, when the final is there is one champion, who entered the
   tournament and was never beaten; every other participant has lost exactly once and nobody else
   has lost at all.
   */
  lemma OneChampion(p: Plan, input: seq<Participant>, shuffle: bool, choices: seq<nat>, rows: seq<MatchState>,
                    moves: seq<Move>, v: Id)
    requires Generated(p, input, shuffle, choices, rows) && Legal(rows, Kickoff(rows), moves)
    requires After(rows, Kickoff(rows), moves).advanced[|rows| - 1].Some?
    ensures var s := After(rows, Kickoff(rows), moves);
            var champion := s.advanced[|rows| - 1].value;
            && Enters(input, champion)
            && s.losses[v] == One(Enters(input, v) && v != champion)
  {
    var s := After(rows, Kickoff(rows), moves);
    ReachedInvariant(p, rows, moves);
    forall x | 0 <= x < |rows|
      ensures s.advanced[x].Some?
    {
      FinalComesLast(p, rows, s, x);
    }
    var champion := s.advanced[|rows| - 1].value;
    NobodyStands(s, |rows|, v);
    NobodyStands(s, |rows|, champion);
    SlotsOfAll(p, input, shuffle, choices, rows, v);
    SlotsOfAll(p, input, shuffle, choices, rows, champion);
    assert Conserved(rows, s, v) && Conserved(rows, s, champion);
  }

  /** At every moment each participant is either beaten once, or the champion, or seated in exactly one open match. */
  lemma AliveOrBeaten(p: Plan, input: seq<Participant>, shuffle: bool, choices: seq<nat>, rows: seq<MatchState>,
                      moves: seq<Move>, v: Id)
    requires Generated(p, input, shuffle, choices, rows) && Legal(rows, Kickoff(rows), moves)
    ensures var s := After(rows, Kickoff(rows), moves);
            Standing(s, |rows|, v) + s.losses[v] + One(s.advanced[|rows| - 1] == Some(v)) == One(Enters(input, v))
  {
    ReachedInvariant(p, rows, moves);
    SlotsOfAll(p, input, shuffle, choices, rows, v);
    assert Conserved(rows, After(rows, Kickoff(rows), moves), v);
  }

  // ---------- the bracket can always be played to its end ----------

  ghost predicate CanMove(rows: seq<MatchState>, s: Progress)
    requires Fits(rows, s)
  {
    exists m :: Playable(rows, s, m)
  }

  /** A match of the first round can be decided from the beginning. */
  lemma FirstRoundIsPlayable(p: Plan, rows: seq<MatchState>, s: Progress, x: nat)
    requires Sound(p, rows, s) && x < Half(|p.order|) && s.advanced[x].None?
    ensures CanMove(rows, s)
  {
    var row := Row(p, x, |rows| - 1);
    assert s.seated[x] == PairOf(rows[x]);
    assert Playable(rows, s, Move(x, row.seats.participant1Id.value));
  }

  /** A later match can be decided as soon as its feeders are. */
  lemma FedMatchIsPlayable(p: Plan, rows: seq<MatchState>, s: Progress, x: nat)
    requires Sound(p, rows, s) && Half(|p.order|) <= x < |rows| && s.advanced[x].None?
    requires s.advanced[LeftFeeder(Half(|p.order|), x)].Some? && s.advanced[LeftFeeder(Half(|p.order|), x) + 1].Some?
    ensures CanMove(rows, s)
  {
    var row := Row(p, x, |rows| - 1);
    assert SeatsFeeders(Half(|p.order|), s, x);
    assert Playable(rows, s, Move(x, s.seated[x].one.value));
  }

  /** While a match is undecided, it or one that leads to it is playable. */
  lemma {:induction false} FirstOpenIsPlayable(p: Plan, rows: seq<MatchState>, s: Progress, x: nat)
    requires Sound(p, rows, s) && x < |rows| && s.advanced[x].None?
    ensures CanMove(rows, s)
    decreases x
  {
    var h := Half(|p.order|);
    if x < h {
      FirstRoundIsPlayable(p, rows, s, x);
    } else {
      var left := LeftFeeder(h, x);
      if s.advanced[left].None? {
        FirstOpenIsPlayable(p, rows, s, left);
      } else if s.advanced[left + 1].None? {
        FirstOpenIsPlayable(p, rows, s, left + 1);
      } else {
        FedMatchIsPlayable(p, rows, s, x);
      }
    }
  }

  /** A run is stuck exactly when the final is decided. */
  lemma StuckOnlyAtTheEnd(p: Plan, rows: seq<MatchState>, moves: seq<Move>)
    requires IsBracket(p, rows) && Legal(rows, Kickoff(rows), moves)
    ensures var s := After(rows, Kickoff(rows), moves);
            !CanMove(rows, s) <==> s.advanced[|rows| - 1].Some?
  {
    var s := After(rows, Kickoff(rows), moves);
    ReachedInvariant(p, rows, moves);
    if s.advanced[|rows| - 1].None? {
      FirstOpenIsPlayable(p, rows, s, |rows| - 1);
    } else {
      forall m: Move | m.at < |rows|
        ensures !Playable(rows, s, m)
      {
        FinalComesLast(p, rows, s, m.at);
      }
    }
  }

  function Decided(s: Progress, k: nat): nat
    requires k <= |s.advanced|
  {
    if k == 0 then 0 else Decided(s, k - 1) + One(s.advanced[k - 1].Some?)
  }

  lemma {:induction false} MoveDecidesOne(rows: seq<MatchState>, s: Progress, m: Move, k: nat)
    requires Fits(rows, s) && m.at < |rows| && s.advanced[m.at].None? && k <= |rows|
    ensures Decided(Decide(rows, s, m), k) == Decided(s, k) + One(m.at < k)
  {
    if k > 0 {
      MoveDecidesOne(rows, s, m, k - 1);
    }
  }

  lemma {:induction false} MovesAreDecisions(rows: seq<MatchState>, s: Progress, moves: seq<Move>)
    requires Fits(rows, s) && Legal(rows, s, moves)
    ensures Decided(After(rows, s, moves), |rows|) == Decided(s, |rows|) + |moves|
    decreases |moves|
  {
    if moves != [] {
      MoveDecidesOne(rows, s, moves[0], |rows|);
      MovesAreDecisions(rows, Decide(rows, s, moves[0]), moves[1..]);
    }
  }

  lemma {:induction false} DecidedBounds(s: Progress, k: nat)
    requires k <= |s.advanced|
    ensures Decided(s, k) <= k
    ensures (forall x :: 0 <= x < k ==> s.advanced[x].None?) ==> Decided(s, k) == 0
    ensures Decided(s, k) == k <==> forall x :: 0 <= x < k ==> s.advanced[x].Some?
  {
    if k > 0 {
      DecidedBounds(s, k - 1);
    }
  }

  /** All matches are decided exactly when the final is. */
  lemma FinalMeansAll(p: Plan, rows: seq<MatchState>, s: Progress)
    requires Sound(p, rows, s)
    ensures s.advanced[|rows| - 1].Some? <==> Decided(s, |rows|) == |rows|
  {
    DecidedBounds(s, |rows|);
    if s.advanced[|rows| - 1].Some? {
      forall x | 0 <= x < |rows|
        ensures s.advanced[x].Some?
      {
        FinalComesLast(p, rows, s, x);
      }
    }
  }

  /** Every run ends after at most |rows| moves, and has its champion exactly when it took all of them. */
  lemma RunsEnd(p: Plan, rows: seq<MatchState>, moves: seq<Move>)
    requires IsBracket(p, rows) && Legal(rows, Kickoff(rows), moves)
    ensures |moves| <= |rows|
    ensures |moves| == |rows| <==> After(rows, Kickoff(rows), moves).advanced[|rows| - 1].Some?
  {
    var s := After(rows, Kickoff(rows), moves);
    MovesAreDecisions(rows, Kickoff(rows), moves);
    DecidedBounds(Kickoff(rows), |rows|);
    DecidedBounds(s, |rows|);
    ReachedInvariant(p, rows, moves);
    FinalMeansAll(p, rows, s);
  }
}
