/**
 The closed form of a generated single-elimination bracket: what match stands at each position of
 the generated list, and which match each one feeds. The generator is proved to build exactly this
 list; the tree properties are proved about it here.
 */
module BracketShape {
  import opened Common
  import opened Powers
  import opened Matches
  import opened Seeding

  /** Everything the bracket depends on: order is the seeded order, uuid(x) the x-th fresh id. */
  datatype Plan = Plan(tournamentId: Id, order: seq<Participant>, time: int, gap: int, uuid: nat -> Id)

  ghost predicate FreshPair(uuid: nat -> Id, i: nat, j: nat) {
    i != j ==> uuid(i) != uuid(j)
  }

  /** The supply never issues an id twice. */
  ghost predicate FreshIds(uuid: nat -> Id) {
    forall i, j :: FreshPair(uuid, i, j)
  }

  /** Half the slots of the full bracket: the number of first-round matches. */
  function Half(n: nat): (h: nat)
    requires n >= 2
    ensures h >= 1 && 2 * h == Pow2(CeilLog2(n))
    ensures h < n <= 2 * h
  {
    Pow2(CeilLog2(n) - 1)
  }

  function Byes(n: nat): (b: nat)
    requires n >= 2
    ensures b < Half(n)
  {
    2 * Half(n) - n
  }

  /** The position of the match that the winner of match x advances to. */
  function Parent(h: nat, x: nat): nat {
    h + x / 2
  }

  function LeftFeeder(h: nat, y: nat): nat
    requires h <= y
  {
    2 * (y - h)
  }

  function RoundOf(h: nat, x: nat): (k: nat)
    requires x < 2 * h - 1
    ensures k >= 1
  {
    if x < h then 1 else 1 + RoundOf(h, LeftFeeder(h, x))
  }

  function NumberOf(h: nat, x: nat): (j: nat)
    requires x < 2 * h - 1
    ensures j >= 1
  {
    if x < h then x + 1 else (NumberOf(h, LeftFeeder(h, x)) + 1) / 2
  }

  /** The first-round match of a participant without an opponent. */
  function ByeRow(p: Plan, x: nat, next: Option<Id>): MatchState
    requires x < |p.order|
  {
    var holder := Some(p.order[x].id);
    MatchState(p.uuid(x), p.tournamentId, 1, x + 1, Seats(holder, None, None, None), Completed, Some(p.time),
               holder, None, Report(None, None, NoProof, Flag(true)), false, next, false)
  }

  /** The first-round match of two participants, counted from both ends of the order. */
  function PlayRow(p: Plan, x: nat, next: Option<Id>): MatchState
    requires |p.order| >= 2 && Byes(|p.order|) <= x < Half(|p.order|)
  {
    var first, second := Some(p.order[x].id), Some(p.order[|p.order| - 1 - (x - Byes(|p.order|))].id);
    MatchState(p.uuid(x), p.tournamentId, 1, x + 1, Seats(first, None, second, None), Scheduled, Some(p.time),
               None, None, Report(None, None, NoProof, NoProof), false, next, false)
  }

  /** A match of a later round, its participants to be determined. */
  function LaterRow(p: Plan, x: nat, k: nat, number: nat, next: Option<Id>): MatchState {
    MatchState(p.uuid(x), p.tournamentId, k, number, Seats(None, None, None, None), Scheduled,
               Some(p.time + (k - 1) * p.gap), None, None, Report(None, None, NoProof, NoProof), false, next, false)
  }

  /** Match x, when the matches before position linked already know where their winner goes. */
  function Row(p: Plan, x: nat, linked: nat): MatchState
    requires |p.order| >= 2 && x < 2 * Half(|p.order|) - 1
  {
    var h := Half(|p.order|);
    var next := if x < linked then Some(p.uuid(Parent(h, x))) else None;
    if x < Byes(|p.order|) then ByeRow(p, x, next)
    else if x < h then PlayRow(p, x, next)
    else LaterRow(p, x, RoundOf(h, x), NumberOf(h, x), next)
  }

  ghost predicate IsBracket(p: Plan, rows: seq<MatchState>) {
    && |p.order| >= 2
    && FreshIds(p.uuid)
    && |rows| == 2 * Half(|p.order|) - 1
    && forall x {:trigger Row(p, x, |rows| - 1)} :: 0 <= x < |rows| ==> rows[x] == Row(p, x, |rows| - 1)
  }

  /** Setting the next match's link is all that separates one linked from the next. */
  lemma LinkOne(p: Plan, x: nat, linked: nat)
    requires |p.order| >= 2 && x < 2 * Half(|p.order|) - 1
    ensures Row(p, x, linked + 1) ==
            if x == linked then Row(p, x, linked).(nextMatchId := Some(p.uuid(Parent(Half(|p.order|), x))))
            else Row(p, x, linked)
  {
  }

  /** A block of m matches, starting at position 2h - 2m, that make up round k. */
  ghost predicate IsRound(h: nat, k: nat, m: nat) {
    && 1 <= m <= h
    && forall x :: 2 * h - 2 * m <= x < 2 * h - m ==> RoundOf(h, x) == k && NumberOf(h, x) == x - (2 * h - 2 * m) + 1
  }

  lemma FirstRound(h: nat)
    requires h >= 1
    ensures IsRound(h, 1, h)
  {
  }

  lemma NextRound(h: nat, k: nat, m: nat)
    requires m % 2 == 0 && IsRound(h, k, m)
    ensures IsRound(h, k + 1, m / 2)
  {
    forall x | 2 * h - m <= x < 2 * h - m / 2
      ensures RoundOf(h, x) == k + 1 && NumberOf(h, x) == x - (2 * h - m) + 1
    {
      var feeder := LeftFeeder(h, x);
      assert 2 * h - 2 * m <= feeder < 2 * h - m;
    }
  }
}
