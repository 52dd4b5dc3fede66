/**
 Playing a generated bracket: matches are decided one at a time, in any order the bracket allows and
 with any winners, and every winner is pushed to the match that nextMatchId names.
 */
module BracketPlay {
  import opened Common
  import opened Matches
  import opened BracketShape
  import opened BracketRounds

  /** The two slots of a match. */
  datatype Pair = Pair(one: Option<Id>, two: Option<Id>)

  function PairOf(m: MatchState): Pair {
    Pair(m.seats.participant1Id, m.seats.participant2Id)
  }

  /** An arriving winner takes the first free slot. */
  function Join(pair: Pair, winner: Id): Pair {
    if pair.one.None? then Pair(Some(winner), pair.two) else Pair(pair.one, Some(winner))
  }

  predicate HasRoom(pair: Pair) {
    pair.one.None? || pair.two.None?
  }

  predicate Holds(pair: Pair, v: Id) {
    pair.one == Some(v) || pair.two == Some(v)
  }

  function Count(pair: Pair, v: Id): nat {
    One(pair.one == Some(v)) + One(pair.two == Some(v))
  }

  /** The one left behind when the winner goes on; a bye leaves nobody behind. */
  function Loser(pair: Pair, winner: Id): Option<Id> {
    if pair.one == Some(winner) then pair.two else pair.one
  }

  /** Who has been seated in each match, who went on from it, and every defeat so far. */
  datatype Progress = Progress(seated: seq<Pair>, advanced: seq<Option<Id>>, losses: multiset<Id>)

  datatype Move = Move(at: nat, winner: Id)

  predicate Fits(rows: seq<MatchState>, s: Progress) {
    |s.seated| == |s.advanced| == |rows|
  }

  function Kickoff(rows: seq<MatchState>): (s: Progress)
    ensures Fits(rows, s)
  {
    Progress(seq(|rows|, x requires 0 <= x < |rows| => PairOf(rows[x])), seq(|rows|, _ => None), multiset{})
  }

  /** A match that is already over passes on its stored winner; any other needs two entrants, and either can win. */
  predicate Playable(rows: seq<MatchState>, s: Progress, m: Move)
    requires Fits(rows, s)
  {
    && m.at < |rows|
    && s.advanced[m.at].None?
    && if rows[m.at].status == Completed then rows[m.at].winnerId == Some(m.winner)
       else s.seated[m.at].one.Some? && s.seated[m.at].two.Some? && Holds(s.seated[m.at], m.winner)
  }

  function Push(rows: seq<MatchState>, s: Progress, m: Move): (seated: seq<Pair>)
    requires Fits(rows, s) && m.at < |rows|
    ensures |seated| == |rows|
  {
    match NextOf(rows, m.at)
    case None => s.seated
    case Some(y) => s.seated[y := Join(s.seated[y], m.winner)]
  }

  function Decide(rows: seq<MatchState>, s: Progress, m: Move): (after: Progress)
    requires Fits(rows, s) && m.at < |rows|
    ensures Fits(rows, after)
  {
    Progress(Push(rows, s, m), s.advanced[m.at := Some(m.winner)], s.losses + Seat(Loser(s.seated[m.at], m.winner)))
  }

  /** Every move of the list is playable when its turn comes. */
  predicate Legal(rows: seq<MatchState>, s: Progress, moves: seq<Move>)
    requires Fits(rows, s)
    decreases |moves|
  {
    moves == [] || (Playable(rows, s, moves[0]) && Legal(rows, Decide(rows, s, moves[0]), moves[1..]))
  }

  function After(rows: seq<MatchState>, s: Progress, moves: seq<Move>): (after: Progress)
    requires Fits(rows, s) && Legal(rows, s, moves)
    ensures Fits(rows, after)
    decreases |moves|
  {
    if moves == [] then s else After(rows, Decide(rows, s, moves[0]), moves[1..])
  }

  // ---------- how the entrants of a match come about ----------

  /** The pair holds exactly the winners a and b that there are, in the order of their arrival. */
  ghost predicate FedBy(pair: Pair, a: Option<Id>, b: Option<Id>) {
    if a.Some? && b.Some? then pair == Pair(a, b) || pair == Pair(b, a)
    else pair == Pair(if a.Some? then a else b, None)
  }

  /** A later match holds the winners of its two feeders. */
  ghost predicate SeatsFeeders(h: nat, s: Progress, y: nat)
    requires h <= y < |s.seated| && |s.advanced| == |s.seated| == 2 * h - 1
  {
    FedBy(s.seated[y], s.advanced[LeftFeeder(h, y)], s.advanced[LeftFeeder(h, y) + 1])
  }

  /** No match is decided before its feeders. */
  ghost predicate WaitsForFeeders(h: nat, s: Progress, y: nat)
    requires h <= y < |s.advanced| && |s.advanced| == 2 * h - 1
  {
    s.advanced[y].Some? ==> s.advanced[LeftFeeder(h, y)].Some? && s.advanced[LeftFeeder(h, y) + 1].Some?
  }

  /** A winner comes from among the entrants. */
  ghost predicate WinnerEntered(s: Progress, x: nat)
    requires x < |s.advanced| == |s.seated|
  {
    s.advanced[x].Some? ==> Holds(s.seated[x], s.advanced[x].value)
  }

  ghost predicate SeatsFollow(h: nat, rows: seq<MatchState>, s: Progress)
    requires Fits(rows, s) && |rows| == 2 * h - 1
  {
    && (forall x :: 0 <= x < h ==> s.seated[x] == PairOf(rows[x]))
    && (forall y :: h <= y < |rows| ==> SeatsFeeders(h, s, y))
  }

  ghost predicate WinnersEarned(h: nat, rows: seq<MatchState>, s: Progress)
    requires Fits(rows, s) && |rows| == 2 * h - 1
  {
    && (forall x :: 0 <= x < |rows| ==> WinnerEntered(s, x))
    && (forall y :: h <= y < |rows| ==> WaitsForFeeders(h, s, y))
  }

  ghost predicate Sound(p: Plan, rows: seq<MatchState>, s: Progress) {
    && IsBracket(p, rows)
    && Fits(rows, s)
    && SeatsFollow(Half(|p.order|), rows, s)
    && WinnersEarned(Half(|p.order|), rows, s)
  }

  lemma KickoffIsSound(p: Plan, rows: seq<MatchState>)
    requires IsBracket(p, rows)
    ensures Sound(p, rows, Kickoff(rows))
  {
    forall y | Half(|p.order|) <= y < |rows|
      ensures SeatsFeeders(Half(|p.order|), Kickoff(rows), y)
    {
      var row := Row(p, y, |rows| - 1);
    }
  }

  lemma PlayableIsEarned(p: Plan, rows: seq<MatchState>, s: Progress, m: Move)
    requires Sound(p, rows, s) && Playable(rows, s, m)
    ensures Holds(s.seated[m.at], m.winner)
    ensures var h := Half(|p.order|);
            m.at >= h ==> s.advanced[LeftFeeder(h, m.at)].Some? && s.advanced[LeftFeeder(h, m.at) + 1].Some?
  {
    var row := Row(p, m.at, |rows| - 1);
    if m.at >= Half(|p.order|) {
      assert SeatsFeeders(Half(|p.order|), s, m.at);
    }
  }

  /** Whatever is decided, its next match is still open. */
  lemma NextIsOpen(p: Plan, rows: seq<MatchState>, s: Progress, m: Move)
    requires Sound(p, rows, s) && Playable(rows, s, m)
    ensures NextOf(rows, m.at) == (if m.at == |rows| - 1 then None else Some(Parent(Half(|p.order|), m.at)))
    ensures var up := Parent(Half(|p.order|), m.at);
            m.at < |rows| - 1 ==> m.at < up < |rows| && s.advanced[up].None? && HasRoom(s.seated[up])
  {
    NextIsParent(p, rows, m.at);
    if m.at < |rows| - 1 {
      var h, up := Half(|p.order|), Parent(Half(|p.order|), m.at);
      assert WaitsForFeeders(h, s, up) && SeatsFeeders(h, s, up);
    }
  }

  lemma MoveSeatsFeeders(p: Plan, rows: seq<MatchState>, s: Progress, m: Move, y: nat)
    requires Sound(p, rows, s) && Playable(rows, s, m) && Half(|p.order|) <= y < |rows|
    ensures SeatsFeeders(Half(|p.order|), Decide(rows, s, m), y)
  {
    var h, after := Half(|p.order|), Decide(rows, s, m);
    NextIsOpen(p, rows, s, m);
    assert SeatsFeeders(h, s, y);
    var left := LeftFeeder(h, y);
    if m.at == left {
      assert s.advanced[left].None? && after.advanced[left + 1] == s.advanced[left + 1];
      assert y == Parent(h, m.at);
    } else if m.at == left + 1 {
      assert s.advanced[left + 1].None? && after.advanced[left] == s.advanced[left];
      assert y == Parent(h, m.at);
    } else {
      assert m.at == |rows| - 1 || y != Parent(h, m.at);
      assert after.seated[y] == s.seated[y];
    }
  }

  lemma MoveKeepsSound(p: Plan, rows: seq<MatchState>, s: Progress, m: Move)
    requires Sound(p, rows, s) && Playable(rows, s, m)
    ensures Sound(p, rows, Decide(rows, s, m))
  {
    var h, after := Half(|p.order|), Decide(rows, s, m);
    PlayableIsEarned(p, rows, s, m);
    NextIsOpen(p, rows, s, m);
    forall y | h <= y < |rows|
      ensures SeatsFeeders(h, after, y) && WaitsForFeeders(h, after, y)
    {
      MoveSeatsFeeders(p, rows, s, m, y);
      assert WaitsForFeeders(h, s, y);
    }
    forall x | 0 <= x < |rows|
      ensures WinnerEntered(after, x)
    {
      assert WinnerEntered(s, x);
    }
  }

  // ---------- nobody is lost on the way ----------

  /** How many seats v holds in the undecided matches among the first k. */
  function Standing(s: Progress, k: nat, v: Id): nat
    requires k <= |s.seated| == |s.advanced|
  {
    if k == 0 then 0
    else Standing(s, k - 1, v) + if s.advanced[k - 1].None? then Count(s.seated[k - 1], v) else 0
  }

  /** Every seat of the first round is either still standing, beaten, or the champion's. */
  ghost predicate Conserved(rows: seq<MatchState>, s: Progress, v: Id)
    requires Fits(rows, s) && |rows| > 0
  {
    Standing(s, |rows|, v) + s.losses[v] + One(s.advanced[|rows| - 1] == Some(v)) == Slots(rows, |rows|, v)
  }

  lemma {:induction false} KickoffStanding(rows: seq<MatchState>, k: nat, v: Id)
    requires k <= |rows|
    ensures Standing(Kickoff(rows), k, v) == Slots(rows, k, v)
  {
    if k > 0 {
      KickoffStanding(rows, k - 1, v);
    }
  }

  lemma {:induction false} MoveShiftsStanding(rows: seq<MatchState>, s: Progress, m: Move, k: nat, v: Id)
    requires Fits(rows, s) && m.at < |rows| && s.advanced[m.at].None? && k <= |rows|
    requires var next := NextOf(rows, m.at);
             next.Some? ==> next.value > m.at && s.advanced[next.value].None? && HasRoom(s.seated[next.value])
    ensures var next := NextOf(rows, m.at);
            Standing(Decide(rows, s, m), k, v) ==
            Standing(s, k, v) - (if m.at < k then Count(s.seated[m.at], v) else 0)
            + One(next.Some? && next.value < k && m.winner == v)
  {
    if k > 0 {
      MoveShiftsStanding(rows, s, m, k - 1, v);
    }
  }

  lemma MoveConserves(p: Plan, rows: seq<MatchState>, s: Progress, m: Move, v: Id)
    requires Sound(p, rows, s) && Playable(rows, s, m) && Conserved(rows, s, v)
    ensures Conserved(rows, Decide(rows, s, m), v)
  {
    NextIsOpen(p, rows, s, m);
    PlayableIsEarned(p, rows, s, m);
    MoveShiftsStanding(rows, s, m, |rows|, v);
  }

  lemma {:induction false} StandingCovers(s: Progress, k: nat, x: nat, v: Id)
    requires x < k <= |s.seated| == |s.advanced| && s.advanced[x].None?
    ensures Count(s.seated[x], v) <= Standing(s, k, v)
    decreases k
  {
    if x < k - 1 {
      StandingCovers(s, k - 1, x, v);
    }
  }

  /** No match seats anybody against themselves. */
  ghost predicate NobodyTwice(s: Progress, v: Id) {
    forall x :: 0 <= x < |s.seated| ==> Count(s.seated[x], v) <= 1
  }

  lemma MoveSeatsNobodyTwice(p: Plan, rows: seq<MatchState>, s: Progress, m: Move, v: Id)
    requires Sound(p, rows, s) && Playable(rows, s, m) && Conserved(rows, s, v)
    requires Slots(rows, |rows|, v) <= 1 && NobodyTwice(s, v)
    ensures NobodyTwice(Decide(rows, s, m), v)
  {
    var after := Decide(rows, s, m);
    NextIsOpen(p, rows, s, m);
    MoveConserves(p, rows, s, m, v);
    if m.at < |rows| - 1 {
      StandingCovers(after, |rows|, Parent(Half(|p.order|), m.at), v);
    }
  }

  // ---------- whole runs ----------

  ghost predicate Fair(rows: seq<MatchState>) {
    forall v :: Slots(rows, |rows|, v) <= 1
  }

  ghost predicate Invariant(p: Plan, rows: seq<MatchState>, s: Progress) {
    && Sound(p, rows, s)
    && (forall v :: Conserved(rows, s, v))
    && (Fair(rows) ==> forall v :: NobodyTwice(s, v))
  }

  lemma KickoffInvariant(p: Plan, rows: seq<MatchState>)
    requires IsBracket(p, rows)
    ensures Invariant(p, rows, Kickoff(rows))
  {
    KickoffIsSound(p, rows);
    var s := Kickoff(rows);
    forall v
      ensures Conserved(rows, s, v)
      ensures Fair(rows) ==> NobodyTwice(s, v)
    {
      KickoffStanding(rows, |rows|, v);
      forall x | 0 <= x < |rows| && Fair(rows)
        ensures Count(s.seated[x], v) <= 1
      {
        StandingCovers(s, |rows|, x, v);
        assert Slots(rows, |rows|, v) <= 1;
      }
    }
  }

  lemma MoveKeepsInvariant(p: Plan, rows: seq<MatchState>, s: Progress, m: Move)
    requires Invariant(p, rows, s) && Playable(rows, s, m)
    ensures Invariant(p, rows, Decide(rows, s, m))
  {
    MoveKeepsSound(p, rows, s, m);
    forall v
      ensures Conserved(rows, Decide(rows, s, m), v)
      ensures Fair(rows) ==> NobodyTwice(Decide(rows, s, m), v)
    {
      assert Conserved(rows, s, v);
      MoveConserves(p, rows, s, m, v);
      if Fair(rows) {
        assert Slots(rows, |rows|, v) <= 1;
        assert NobodyTwice(s, v);
        MoveSeatsNobodyTwice(p, rows, s, m, v);
      }
    }
  }

  /** The invariant holds in every state a run can reach. */
  lemma {:induction false} RunsKeepInvariant(p: Plan, rows: seq<MatchState>, s: Progress, moves: seq<Move>)
    requires Invariant(p, rows, s) && Legal(rows, s, moves)
    ensures Invariant(p, rows, After(rows, s, moves))
    decreases |moves|
  {
    if moves != [] {
      MoveKeepsInvariant(p, rows, s, moves[0]);
      RunsKeepInvariant(p, rows, Decide(rows, s, moves[0]), moves[1..]);
    }
  }
}
