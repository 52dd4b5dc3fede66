/** Paths to the final, the counts of the bracket, and the first round as a partition of the participants. */
module BracketRounds {
  import opened Common
  import opened Powers
  import opened Matches
  import opened Seeding
  import opened BracketShape
  import opened BracketTree

  // ---------- following the links ----------

  function FindIndex(rows: seq<MatchState>, id: Id): (r: Option<nat>)
    ensures r.Some? ==> r.value < |rows| && rows[r.value].id == id
    ensures r.None? ==> forall x :: 0 <= x < |rows| ==> rows[x].id != id
  {
    if rows == [] then None
    else if rows[0].id == id then Some(0)
    else
      match FindIndex(rows[1..], id)
      case None => None
      case Some(x) => Some(x + 1)
  }

  /** The match that the id stored in match x names. */
  function NextOf(rows: seq<MatchState>, x: nat): (r: Option<nat>)
    requires x < |rows|
    ensures r.Some? ==> r.value < |rows|
  {
    if rows[x].nextMatchId.None? then None else FindIndex(rows, rows[x].nextMatchId.value)
  }

  /** Where at most d links lead from match x. */
  function Follow(rows: seq<MatchState>, x: nat, d: nat): (y: nat)
    requires x < |rows|
    ensures y < |rows|
    decreases d
  {
    if d == 0 || NextOf(rows, x).None? then x else Follow(rows, NextOf(rows, x).value, d - 1)
  }

  lemma NextIsParent(p: Plan, rows: seq<MatchState>, x: nat)
    requires IsBracket(p, rows) && x < |rows|
    ensures NextOf(rows, x) == if x == |rows| - 1 then None else Some(Parent(Half(|p.order|), x))
  {
    LinkIsParent(p, rows, x, x);
    if x < |rows| - 1 {
      var up := Parent(Half(|p.order|), x);
      LinkIsParent(p, rows, x, up);
      assert rows[up].id == rows[x].nextMatchId.value;
      IdsAreDistinct(p, rows, up, NextOf(rows, x).value);
    }
  }

  lemma ParentIsNextRound(p: Plan, rows: seq<MatchState>, x: nat)
    requires IsBracket(p, rows) && x < |rows| - 1
    ensures NextOf(rows, x).Some? && rows[NextOf(rows, x).value].roundNumber == rows[x].roundNumber + 1
  {
    NextIsParent(p, rows, x);
    var up := Parent(Half(|p.order|), x);
    LinkIsParent(p, rows, x, up);
    FedByTwo(p, rows, x, up);
  }

  /** A match is scheduled one gap after the matches that lead to it. */
  lemma ScheduledAfterFeeders(p: Plan, rows: seq<MatchState>, x: nat)
    requires IsBracket(p, rows) && x < |rows| - 1
    ensures var up := NextOf(rows, x);
            up.Some? && rows[x].scheduledTime.Some? &&
            rows[up.value].scheduledTime == Some(rows[x].scheduledTime.value + p.gap)
  {
    ParentIsNextRound(p, rows, x);
    var y := NextOf(rows, x).value;
    ScheduledByRound(p, rows, x);
    ScheduledByRound(p, rows, y);
    OneGapMore(rows[x].roundNumber, p.gap);
  }

  lemma ScheduledByRound(p: Plan, rows: seq<MatchState>, x: nat)
    requires IsBracket(p, rows) && x < |rows|
    ensures rows[x].scheduledTime == Some(p.time + (rows[x].roundNumber - 1) * p.gap)
  {
    var row := Row(p, x, |rows| - 1);
  }

  lemma OneGapMore(k: int, gap: int)
    ensures (k + 1 - 1) * gap == (k - 1) * gap + gap
  {
  }

  lemma OnlyTheFinalIsInTheLastRound(p: Plan, rows: seq<MatchState>, x: nat)
    requires IsBracket(p, rows) && x < |rows|
    ensures rows[x].roundNumber <= CeilLog2(|p.order|)
    ensures rows[x].roundNumber == CeilLog2(|p.order|) <==> x == |rows| - 1
  {
    RoundsAreNumbered(p, rows);
    var r := CeilLog2(|p.order|);
    assert Pow2(0) == 1 && Pow2(1) == 2;
    assert PositionOf(r, r, 1) == |rows| - 1;
  }

  /** From any match the links climb one round at a time and reach the one final in exactly r - round steps. */
  lemma {:induction false} LinksReachTheFinal(p: Plan, rows: seq<MatchState>, x: nat, d: nat)
    requires IsBracket(p, rows) && x < |rows|
    ensures var r := CeilLog2(|p.order|);
            && (rows[x].roundNumber + d <= r ==> rows[Follow(rows, x, d)].roundNumber == rows[x].roundNumber + d)
            && (Follow(rows, x, d) == |rows| - 1 <==> rows[x].roundNumber + d >= r)
    decreases d
  {
    OnlyTheFinalIsInTheLastRound(p, rows, x);
    NextIsParent(p, rows, x);
    if d > 0 && x < |rows| - 1 {
      ParentIsNextRound(p, rows, x);
      LinksReachTheFinal(p, rows, NextOf(rows, x).value, d - 1);
    }
  }

  // ---------- counts ----------

  function Seat(id: Option<Id>): multiset<Id> {
    if id.Some? then multiset{id.value} else multiset{}
  }

  /** The participants seated in a match, counted once per slot. */
  function Entrants(m: MatchState): multiset<Id> {
    Seat(m.seats.participant1Id) + Seat(m.seats.participant2Id)
  }

  /** Who is seated in a generated match, and which matches are already over. */
  lemma EntrantsOfRow(p: Plan, rows: seq<MatchState>, x: nat)
    requires IsBracket(p, rows) && x < |rows|
    ensures var n, h, b := |p.order|, Half(|p.order|), Byes(|p.order|);
            && (rows[x].roundNumber == 1 <==> x < h)
            && (rows[x].status == Completed <==> x < b)
            && Entrants(rows[x]) == (if x < b then multiset{p.order[x].id}
                                     else if x < h then multiset{p.order[x].id} + multiset{p.order[n - 1 - (x - b)].id}
                                     else multiset{})
            && rows[x].winnerId == (if x < b then Some(p.order[x].id) else None)
  {
    var row := Row(p, x, |rows| - 1);
  }

  /** A finished first-round match is a bye; every other match has to be played. */
  function PlayedMatches(rows: seq<MatchState>, k: nat): nat
    requires k <= |rows|
  {
    if k == 0 then 0 else PlayedMatches(rows, k - 1) + if rows[k - 1].status == Completed then 0 else 1
  }

  lemma {:induction false} CountPlayed(p: Plan, rows: seq<MatchState>, k: nat)
    requires IsBracket(p, rows) && k <= |rows|
    ensures PlayedMatches(rows, k) == if k <= Byes(|p.order|) then 0 else k - Byes(|p.order|)
  {
    if k > 0 {
      EntrantsOfRow(p, rows, k - 1);
      CountPlayed(p, rows, k - 1);
    }
  }

  /**
   Byes are fewer than half the slots, an even number of at least two participants is left to play,
   and of the 2^r - 1 matches exactly n - 1 are played.
   */
  lemma BracketCounts(p: Plan, rows: seq<MatchState>)
    requires IsBracket(p, rows)
    ensures var n, r := |p.order|, CeilLog2(|p.order|);
            && 2 * Byes(n) < Pow2(r)
            && n - Byes(n) >= 2 && (n - Byes(n)) % 2 == 0
            && Byes(n) + (n - Byes(n)) / 2 == Pow2(r - 1)
            && |rows| == Pow2(r) - 1
            && PlayedMatches(rows, |rows|) == n - 1
  {
    CountPlayed(p, rows, |rows|);
  }

  // ---------- the first round ----------

  function One(b: bool): nat {
    if b then 1 else 0
  }

  /** How many slots of a match v fills. */
  function SeatsOf(m: MatchState, v: Id): nat {
    One(m.seats.participant1Id == Some(v)) + One(m.seats.participant2Id == Some(v))
  }

  /** How many slots of the first k matches v fills. */
  function Slots(rows: seq<MatchState>, k: nat, v: Id): nat
    requires k <= |rows|
  {
    if k == 0 then 0 else Slots(rows, k - 1, v) + SeatsOf(rows[k - 1], v)
  }

  /** How many of the participants at positions lo to hi - 1 have the id v. */
  function Entries(ps: seq<Participant>, lo: nat, hi: nat, v: Id): nat
    requires lo <= hi <= |ps|
  {
    if lo == hi then 0 else Entries(ps, lo, hi - 1, v) + One(ps[hi - 1].id == v)
  }

  lemma {:induction false} EntriesSplit(ps: seq<Participant>, lo: nat, mid: nat, hi: nat, v: Id)
    requires lo <= mid <= hi <= |ps|
    ensures Entries(ps, lo, hi, v) == Entries(ps, lo, mid, v) + Entries(ps, mid, hi, v)
    decreases hi
  {
    if mid < hi {
      EntriesSplit(ps, lo, mid, hi - 1, v);
    }
  }

  lemma {:induction false} ByeSlots(p: Plan, rows: seq<MatchState>, k: nat, v: Id)
    requires IsBracket(p, rows) && k <= Byes(|p.order|)
    ensures Slots(rows, k, v) == Entries(p.order, 0, k, v)
  {
    if k > 0 {
      ByeSlots(p, rows, k - 1, v);
      var row := Row(p, k - 1, |rows| - 1);
    }
  }

  lemma {:induction false} PlaySlots(p: Plan, rows: seq<MatchState>, x: nat, v: Id)
    requires IsBracket(p, rows) && Byes(|p.order|) <= x <= Half(|p.order|)
    ensures var n, b := |p.order|, Byes(|p.order|);
            Slots(rows, x, v) == Entries(p.order, 0, x, v) + Entries(p.order, n - (x - b), n, v)
    decreases x
  {
    var n, b := |p.order|, Byes(|p.order|);
    if x == b {
      ByeSlots(p, rows, x, v);
    } else {
      PlaySlots(p, rows, x - 1, v);
      var row := Row(p, x - 1, |rows| - 1);
      var y := n - (x - b);
      EntriesSplit(p.order, y, y + 1, n, v);
      assert Entries(p.order, y, y + 1, v) == One(p.order[y].id == v);
    }
  }

  /**
   Every participant of the order fills exactly as many first-round slots as it has entries, and nobody
   sits later.
   */
  lemma FirstRoundIsPartition(p: Plan, rows: seq<MatchState>, v: Id)
    requires IsBracket(p, rows)
    ensures Slots(rows, Half(|p.order|), v) == Entries(p.order, 0, |p.order|, v)
    ensures forall x :: Half(|p.order|) <= x < |rows| ==> Entrants(rows[x]) == multiset{}
  {
    var n, h, b := |p.order|, Half(|p.order|), Byes(|p.order|);
    PlaySlots(p, rows, h, v);
    EntriesSplit(p.order, 0, h, n, v);
    forall x | h <= x < |rows|
      ensures Entrants(rows[x]) == multiset{}
    {
      EntrantsOfRow(p, rows, x);
    }
  }
}
