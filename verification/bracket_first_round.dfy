/** The first round in terms of the caller's own list of participants. */
module BracketFirstRound {
  import opened Common
  import opened Matches
  import opened Seeding
  import opened Shuffle
  import opened BracketShape
  import opened BracketRounds

  // ---------- counting does not depend on the order ----------

  lemma {:induction false} EntriesAgree(ps: seq<Participant>, lo: nat, qs: seq<Participant>, from: nat, len: nat, v: Id)
    requires lo + len <= |ps| && from + len <= |qs|
    requires forall k :: lo <= k < lo + len ==> ps[k] == qs[k - lo + from]
    ensures Entries(ps, lo, lo + len, v) == Entries(qs, from, from + len, v)
  {
    if len > 0 {
      EntriesAgree(ps, lo, qs, from, len - 1, v);
    }
  }

  lemma EntriesWithout(ps: seq<Participant>, j: nat, v: Id)
    requires j < |ps|
    ensures Entries(ps, 0, |ps|, v) == Entries(Without(ps, j), 0, |ps| - 1, v) + One(ps[j].id == v)
  {
    var rest, tail := Without(ps, j), |ps| - j - 1;
    EntriesSplit(ps, 0, j, |ps|, v);
    EntriesSplit(ps, j, j + 1, |ps|, v);
    EntriesSplit(rest, 0, j, j + tail, v);
    EntriesAgree(ps, 0, rest, 0, j, v);
    EntriesAgree(ps, j + 1, rest, j, tail, v);
    assert Entries(ps, j, j, v) == 0;
  }

  lemma {:induction false} EntriesOfPermutation(ps: seq<Participant>, qs: seq<Participant>, v: Id)
    requires multiset(ps) == multiset(qs)
    ensures Entries(ps, 0, |ps|, v) == Entries(qs, 0, |qs|, v)
    decreases |ps|
  {
    SameLength(ps, qs);
    if ps != [] {
      var last := |ps| - 1;
      assert ps[last] in multiset(qs);
      var j: nat :| j < |qs| && qs[j] == ps[last];
      EntriesWithout(ps, last, v);
      EntriesWithout(qs, j, v);
      WithoutRemovesOne(ps, last);
      WithoutRemovesOne(qs, j);
      EntriesOfPermutation(Without(ps, last), Without(qs, j), v);
    }
  }

  // ---------- distinct participants ----------

  ghost predicate DistinctIds(ps: seq<Participant>) {
    forall i, j :: 0 <= i < j < |ps| ==> ps[i].id != ps[j].id
  }

  /** With distinct ids everybody has exactly one entry. */
  lemma {:induction false} OneEntryEach(ps: seq<Participant>, k: nat, v: Id)
    requires DistinctIds(ps) && k <= |ps|
    ensures Entries(ps, 0, k, v) == One(exists i :: 0 <= i < k && ps[i].id == v)
  {
    if k > 0 {
      OneEntryEach(ps, k - 1, v);
      if ps[k - 1].id == v {
        assert !exists i :: 0 <= i < k - 1 && ps[i].id == v;
      }
    }
  }

  /** A repeated id has two entries. */
  lemma TwoEntries(ps: seq<Participant>, i: nat, j: nat)
    requires i < j < |ps| && ps[i].id == ps[j].id
    ensures Entries(ps, 0, |ps|, ps[i].id) >= 2
  {
    var v := ps[i].id;
    EntriesSplit(ps, 0, i + 1, |ps|, v);
    EntriesSplit(ps, i + 1, j + 1, |ps|, v);
  }

  lemma PermutationKeepsDistinctIds(ps: seq<Participant>, qs: seq<Participant>)
    requires DistinctIds(ps) && multiset(ps) == multiset(qs)
    ensures DistinctIds(qs)
  {
    forall i, j | 0 <= i < j < |qs|
      ensures qs[i].id != qs[j].id
    {
      if qs[i].id == qs[j].id {
        TwoEntries(qs, i, j);
        EntriesOfPermutation(ps, qs, qs[i].id);
        OneEntryEach(ps, |ps|, qs[i].id);
      }
    }
  }

  lemma {:induction false} SlotsCover(rows: seq<MatchState>, k: nat, x: nat, v: Id)
    requires x < k <= |rows|
    ensures SeatsOf(rows[x], v) <= Slots(rows, k, v)
    decreases k
  {
    if x < k - 1 {
      SlotsCover(rows, k - 1, x, v);
    }
  }

  /** The plan of a call, whatever its options. */
  ghost predicate PlansFor(p: Plan, input: seq<Participant>, shuffle: bool, choices: seq<nat>) {
    ValidChoices(choices, |input|) && p.order == SeedOrder(input, shuffle, choices)
  }

  /**
   Round 1 is a partition: every participant of the input fills exactly one slot of the first round,
   nobody else fills any, and no match of the bracket holds one participant twice.
   */
  lemma EverybodySitsOnce(p: Plan, input: seq<Participant>, shuffle: bool, choices: seq<nat>, rows: seq<MatchState>,
                         v: Id)
    requires PlansFor(p, input, shuffle, choices) && DistinctIds(input) && IsBracket(p, rows)
    ensures Slots(rows, Half(|input|), v) == One(exists i :: 0 <= i < |input| && input[i].id == v)
    ensures forall x :: 0 <= x < |rows| ==> SeatsOf(rows[x], v) <= 1
  {
    SeedOrderIsPermutation(input, shuffle, choices);
    EntriesOfPermutation(p.order, input, v);
    OneEntryEach(input, |input|, v);
    FirstRoundIsPartition(p, rows, v);
    forall x | 0 <= x < |rows|
      ensures SeatsOf(rows[x], v) <= 1
    {
      var row := Row(p, x, |rows| - 1);
      if x < Half(|input|) {
        SlotsCover(rows, Half(|input|), x, v);
      }
    }
  }

  // ---------- byes ----------

  ghost predicate HoldsBye(rows: seq<MatchState>, id: Id) {
    exists x :: 0 <= x < |rows| && rows[x].status == Completed && rows[x].seats.participant1Id == Some(id)
  }

  lemma ByeHolders(p: Plan, rows: seq<MatchState>, i: nat)
    requires IsBracket(p, rows) && DistinctIds(p.order) && i < |p.order|
    ensures HoldsBye(rows, p.order[i].id) <==> i < Byes(|p.order|)
  {
    if i < Byes(|p.order|) {
      var row := Row(p, i, |rows| - 1);
    }
    forall x | 0 <= x < |rows| && rows[x].status == Completed && rows[x].seats.participant1Id == Some(p.order[i].id)
      ensures i < Byes(|p.order|)
    {
      var row := Row(p, x, |rows| - 1);
    }
  }

  /** When all have seeds, nobody with a bye is seeded behind somebody without one. */
  lemma ByesGoToTheBestSeeds(p: Plan, input: seq<Participant>, shuffle: bool, choices: seq<nat>, rows: seq<MatchState>,
                             i: nat, j: nat)
    requires PlansFor(p, input, shuffle, choices) && DistinctIds(input) && IsBracket(p, rows)
    requires AllSeeded(input) && i < |input| && j < |input|
    requires HoldsBye(rows, input[i].id) && !HoldsBye(rows, input[j].id)
    ensures input[i].seed.value <= input[j].seed.value
  {
    SeedOrderIsPermutation(input, shuffle, choices);
    PermutationKeepsDistinctIds(input, p.order);
    var a := IndexOf(p.order, input, i);
    var c := IndexOf(p.order, input, j);
    ByeHolders(p, rows, a);
    ByeHolders(p, rows, c);
  }

  lemma IndexOf(ps: seq<Participant>, qs: seq<Participant>, j: nat) returns (i: nat)
    requires multiset(ps) == multiset(qs) && j < |qs|
    ensures i < |ps| && ps[i] == qs[j]
  {
    assert qs[j] in multiset(ps);
    i :| 0 <= i < |ps| && ps[i] == qs[j];
  }

  /**
   The generator's last argument for a bye lands in the second proof field: the match is over and has
   a winner, but it is neither confirmed nor marked as a bye.
   */
  lemma ByesAreNotConfirmed(p: Plan, rows: seq<MatchState>, x: nat)
    requires IsBracket(p, rows) && x < |rows|
    ensures rows[x].status == Completed ==>
              && !rows[x].isConfirmed && !rows[x].wasBye
              && rows[x].report.resultProofUrlP2 == Flag(true)
              && rows[x].winnerId == rows[x].seats.participant1Id && rows[x].seats.participant2Id == None
  {
    var row := Row(p, x, |rows| - 1);
  }
}
