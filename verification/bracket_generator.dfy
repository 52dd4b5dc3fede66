/** BracketLogic.generateSingleElimination of src/domain/tournament/bracket.logic.js. */
module BracketGenerator {
  import opened Common
  import opened Powers
  import opened Matches
  import opened Seeding
  import opened BracketShape
  import Shuffle

  /** The first size matches are those of the plan, the first linked of them with their link set. */
  ghost predicate Follows(p: Plan, matches: seq<Match>, linked: nat)
    reads matches
  {
    && |p.order| >= 2
    && |matches| <= 2 * Half(|p.order|) - 1
    && forall x {:trigger Row(p, x, linked)} :: 0 <= x < |matches| ==> matches[x].State() == Row(p, x, linked)
  }

  lemma FollowsAppend(p: Plan, matches: seq<Match>, m: Match, linked: nat)
    requires Follows(p, matches, linked) && |matches| < 2 * Half(|p.order|) - 1
    requires m.State() == Row(p, |matches|, linked)
    ensures Follows(p, matches + [m], linked)
  {
  }

  /** Array.prototype.find by id. */
  method FindById(matches: seq<Match>, id: Id) returns (found: Match?)
    ensures found == null <==> forall x :: 0 <= x < |matches| ==> matches[x].id != id
    ensures found != null ==> found in matches && found.id == id
  {
    for i := 0 to |matches|
      invariant forall x :: 0 <= x < i ==> matches[x].id != id
    {
      if matches[i].id == id {
        return matches[i];
      }
    }
    return null;
  }

  /** Gives the match with the given id, which is target, its link. */
  method Link(matches: seq<Match>, id: Id, nextId: Id, ghost target: Match)
    requires target in matches && target.id == id
    requires forall m :: m in matches && m.id == id ==> m == target
    modifies target`nextMatchId
    ensures target.nextMatchId == Some(nextId)
  {
    var found := FindById(matches, id);
    if found != null {
      found.nextMatchId := Some(nextId);
    }
  }

  /** One finished match for every holder of a bye. */
  method ByeMatches(p: Plan, numByes: nat) returns (round1Matches: seq<Match>)
    requires |p.order| >= 2 && numByes == Byes(|p.order|)
    ensures fresh(round1Matches)
    ensures |round1Matches| == numByes && Follows(p, round1Matches, 0)
  {
    var participantsWithByes := p.order[..numByes];
    round1Matches := [];
    for i := 0 to numByes
      invariant |round1Matches| == i && Follows(p, round1Matches, 0)
      invariant fresh(round1Matches)
    {
      var holder := Some(participantsWithByes[i].id);
      var byeMatch := new Match(p.uuid(i), p.tournamentId, 1, i + 1, holder, None, Completed, Some(p.time),
                                holder, None, None, NoProof, Flag(true));
      assert byeMatch.State() == ByeRow(p, i, None);
      FollowsAppend(p, round1Matches, byeMatch, 0);
      round1Matches := round1Matches + [byeMatch];
    }
  }

  /** Byes for the top of the order, then the rest paired from both ends. */
  method FirstRoundMatches(p: Plan) returns (round1Matches: seq<Match>)
    requires |p.order| >= 2
    ensures fresh(round1Matches)
    ensures |round1Matches| == Half(|p.order|) && Follows(p, round1Matches, 0)
  {
    var numParticipants := |p.order|;
    var totalSlotsInFirstRound := Pow2(CeilLog2(numParticipants));
    var numByes := totalSlotsInFirstRound - numParticipants;
    var participantsInRound1Play := p.order[numByes..];
    round1Matches := ByeMatches(p, numByes);
    var i := 0;
    while 2 * i < |participantsInRound1Play|
      invariant 2 * i <= |participantsInRound1Play|
      invariant |round1Matches| == numByes + i && Follows(p, round1Matches, 0)
      invariant fresh(round1Matches)
    {
      var p1 := participantsInRound1Play[i];
      var p2 := participantsInRound1Play[|participantsInRound1Play| - 1 - i];
      var paired := new Match(p.uuid(numByes + i), p.tournamentId, 1, numByes + i + 1, Some(p1.id), Some(p2.id),
                              Scheduled, Some(p.time));
      assert paired.State() == PlayRow(p, numByes + i, None);
      FollowsAppend(p, round1Matches, paired, 0);
      round1Matches := round1Matches + [paired];
      i := i + 1;
    }
  }

  lemma IdAt(p: Plan, matches: seq<Match>, linked: nat, x: nat)
    requires Follows(p, matches, linked) && x < |matches|
    ensures matches[x].id == p.uuid(x)
  {
    assert matches[x].State() == Row(p, x, linked);
  }

  /** One link of the loop body: match at of the list learns where its winner goes. */
  method LinkNext(p: Plan, matches: seq<Match>, ghost all: seq<Match>, ghost at: nat, id: Id, nextId: Id)
    requires FreshIds(p.uuid) && Follows(p, all, at) && matches <= all && at < |matches|
    requires id == matches[at].id && nextId == p.uuid(Parent(Half(|p.order|), at))
    modifies matches
    ensures Follows(p, all, at + 1)
  {
    forall x | 0 <= x < |all|
      ensures all[x].id == p.uuid(x) && (x != at ==> all[x].id != id)
      ensures Row(p, x, at + 1) == if x == at then Row(p, x, at).(nextMatchId := Some(nextId)) else Row(p, x, at)
    {
      IdAt(p, all, at, x);
      IdAt(p, all, at, at);
      assert FreshPair(p.uuid, x, at);
      LinkOne(p, x, at);
    }
    Link(matches, id, nextId, matches[at]);
  }

  /** Where the previous round stands in the list. */
  ghost predicate RoundTail(h: nat, matches: seq<Match>, previous: seq<Match>) {
    && 0 < |previous| <= h
    && |matches| == 2 * h - |previous|
    && forall i :: 0 <= i < |previous| ==> previous[i] == matches[|matches| - |previous| + i]
  }

  /** The previous matches are the last of the list and make up round k. */
  ghost predicate RoundEnds(p: Plan, matches: seq<Match>, previous: seq<Match>, k: nat) {
    && |p.order| >= 2 && FreshIds(p.uuid)
    && RoundTail(Half(|p.order|), matches, previous)
    && IsRound(Half(|p.order|), k, |previous|)
  }

  /** Half as many matches appended to a round make up the next one. */
  lemma RoundEndsNext(p: Plan, matches: seq<Match>, previous: seq<Match>, next: seq<Match>, k: nat)
    requires RoundEnds(p, matches, previous, k) && |previous| % 2 == 0 && |next| == |previous| / 2
    ensures RoundEnds(p, matches + next, next, k + 1)
  {
    NextRound(Half(|p.order|), k, |previous|);
  }

  /** Where a match of the next round stands in its round. */
  lemma PlaceInNextRound(p: Plan, matches: seq<Match>, previous: seq<Match>, k: nat, j: nat)
    requires RoundEnds(p, matches, previous, k) && |previous| % 2 == 0 && j < |previous| / 2
    ensures Half(|p.order|) <= |matches| + j < 2 * Half(|p.order|) - 1
    ensures RoundOf(Half(|p.order|), |matches| + j) == k + 1 && NumberOf(Half(|p.order|), |matches| + j) == j + 1
  {
    NextRound(Half(|p.order|), k, |previous|);
  }

  lemma ParentInRound(h: nat, m: nat, i: nat)
    requires i < m <= h
    ensures Parent(h, 2 * h - 2 * m + i) == 2 * h - m + i / 2
  {
    assert 2 * h - 2 * m + i == 2 * (h - m) + i;
  }

  /** Links match i of the previous round, if there is one, to a new match. */
  method LinkPrevious(p: Plan, matches: seq<Match>, previous: seq<Match>, ghost all: seq<Match>, i: nat, matchId: Id)
    requires |p.order| >= 2 && FreshIds(p.uuid) && RoundTail(Half(|p.order|), matches, previous)
    requires i < |previous| && matches <= all && matchId == p.uuid(|matches| + i / 2)
    requires Follows(p, all, |matches| - |previous| + i)
    modifies matches
    ensures Follows(p, all, |matches| - |previous| + i + 1)
  {
    ghost var h, at := Half(|p.order|), |matches| - |previous| + i;
    assert previous[i] == matches[at];
    assert matchId == p.uuid(Parent(h, at)) by {
      ParentInRound(h, |previous|, i);
      assert at == 2 * h - 2 * |previous| + i;
    }
    LinkNext(p, matches, all, at, previous[i].id, matchId);
  }

  /** Links the matches i and i + 1 of the previous round to the new match. */
  method LinkPair(p: Plan, matches: seq<Match>, previous: seq<Match>, ghost all: seq<Match>, i: nat, matchId: Id)
    requires |p.order| >= 2 && FreshIds(p.uuid) && RoundTail(Half(|p.order|), matches, previous)
    requires |previous| % 2 == 0 && i < |previous| && i % 2 == 0
    requires matches <= all && matchId == p.uuid(|matches| + i / 2)
    requires Follows(p, all, |matches| - |previous| + i)
    modifies matches
    ensures Follows(p, all, |matches| - |previous| + i + 2)
  {
    assert (i + 1) / 2 == i / 2;
    LinkPrevious(p, matches, previous, all, i, matchId);
    if i + 1 < |previous| {
      LinkPrevious(p, matches, previous, all, i + 1, matchId);
    }
  }

  /** Creates the next match of the new round, its participants to be determined. */
  method NextMatch(p: Plan, roundNumber: nat, matchNumberInNextRound: nat, matchId: Id, ghost all: seq<Match>,
                   ghost linked: nat)
    returns (paired: Match)
    requires Follows(p, all, linked) && linked <= |all| && Half(|p.order|) <= |all| < 2 * Half(|p.order|) - 1
    requires matchId == p.uuid(|all|)
    requires roundNumber == RoundOf(Half(|p.order|), |all|)
             && matchNumberInNextRound == NumberOf(Half(|p.order|), |all|)
    ensures fresh(paired) && Follows(p, all + [paired], linked)
  {
    paired := new Match(matchId, p.tournamentId, roundNumber, matchNumberInNextRound, None, None, Scheduled,
                        Some(p.time + (roundNumber - 1) * p.gap));
    assert paired.State() == LaterRow(p, |all|, roundNumber, matchNumberInNextRound, None);
    FollowsAppend(p, all, paired, linked);
  }

  /** The body of the loop over the previous round: one new match and the links to it. */
  method NextPairing(p: Plan, matches: seq<Match>, previous: seq<Match>, next: seq<Match>, roundNumber: nat, i: nat)
    returns (longer: seq<Match>)
    requires roundNumber > 1 && RoundEnds(p, matches, previous, roundNumber - 1) && |previous| % 2 == 0
    requires i < |previous| && i % 2 == 0 && |next| == i / 2
    requires Follows(p, matches + next, |matches| - |previous| + i)
    modifies matches
    ensures |longer| == |next| + 1
    ensures forall x :: 0 <= x < |longer| ==> (x < |next| && longer[x] == next[x]) || fresh(longer[x])
    ensures Follows(p, matches + longer, |matches| - |previous| + i + 2)
  {
    var matchId := p.uuid(|matches| + |next|);
    PlaceInNextRound(p, matches, previous, roundNumber - 1, i / 2);
    var paired := NextMatch(p, roundNumber, i / 2 + 1, matchId, matches + next, |matches| - |previous| + i);
    longer := next + [paired];
    assert matches + next + [paired] == matches + longer;
    LinkPair(p, matches, previous, matches + longer, i, matchId);
  }

  /** Pairs up the matches of the previous round and links them to the new ones. */
  method NextRoundMatches(p: Plan, matches: seq<Match>, previous: seq<Match>, roundNumber: nat)
    returns (nextRoundMatches: seq<Match>)
    requires roundNumber > 1 && RoundEnds(p, matches, previous, roundNumber - 1) && |previous| % 2 == 0
    requires Follows(p, matches, |matches| - |previous|)
    modifies matches
    ensures forall x :: 0 <= x < |nextRoundMatches| ==> fresh(nextRoundMatches[x])
    ensures |nextRoundMatches| == |previous| / 2
    ensures Follows(p, matches + nextRoundMatches, |matches|)
  {
    nextRoundMatches := [];
    assert matches + nextRoundMatches == matches;
    var i := 0;
    while i < |previous|
      invariant i <= |previous| && i % 2 == 0
      invariant |nextRoundMatches| == i / 2
      invariant forall x :: 0 <= x < |nextRoundMatches| ==> fresh(nextRoundMatches[x])
      invariant Follows(p, matches + nextRoundMatches, |matches| - |previous| + i)
    {
      nextRoundMatches := NextPairing(p, matches, previous, nextRoundMatches, roundNumber, i);
      i := i + 2;
    }
  }

  const DEFAULT_TIME_PER_ROUND := 3600 * 1000

  /** The plan that the arguments of generateSingleElimination describe. */
  function PlanFor(tournamentId: Id, input: seq<Participant>, shuffle: bool, choices: seq<nat>,
                   defaultMatchTime: int, timePerRound: Option<int>, uuid: nat -> Id): Plan
    requires Shuffle.ValidChoices(choices, |input|)
  {
    var gap := if timePerRound.Some? && timePerRound.value != 0 then timePerRound.value else DEFAULT_TIME_PER_ROUND;
    Plan(tournamentId, SeedOrder(input, shuffle, choices), defaultMatchTime, gap, uuid)
  }

  ghost function States(matches: seq<Match>): (rows: seq<MatchState>)
    reads matches
    ensures |rows| == |matches|
  {
    seq(|matches|, i requires 0 <= i < |matches| reads matches => matches[i].State())
  }

  /** The body of the loop over the rounds. */
  method AppendRound(p: Plan, matches: seq<Match>, previous: seq<Match>, roundNumber: nat)
    returns (longer: seq<Match>, nextRoundMatches: seq<Match>)
    requires roundNumber > 1 && RoundEnds(p, matches, previous, roundNumber - 1) && |previous| % 2 == 0
    requires Follows(p, matches, |matches| - |previous|)
    modifies matches
    ensures |nextRoundMatches| == |previous| / 2
    ensures RoundEnds(p, longer, nextRoundMatches, roundNumber)
    ensures Follows(p, longer, |longer| - |nextRoundMatches|)
    ensures forall x :: 0 <= x < |longer| ==> longer[x] in matches || fresh(longer[x])
  {
    nextRoundMatches := NextRoundMatches(p, matches, previous, roundNumber);
    RoundEndsNext(p, matches, previous, nextRoundMatches, roundNumber - 1);
    longer := matches + nextRoundMatches;
  }

  /** The rounds after the first, until one match is left. */
  method LaterRounds(p: Plan, round1Matches: seq<Match>) returns (matches: seq<Match>)
    requires |p.order| >= 2 && FreshIds(p.uuid)
    requires |round1Matches| == Half(|p.order|) && Follows(p, round1Matches, 0)
    modifies round1Matches
    ensures forall x :: 0 <= x < |matches| ==> matches[x] in round1Matches || fresh(matches[x])
    ensures |matches| == 2 * Half(|p.order|) - 1 && Follows(p, matches, |matches| - 1)
  {
    var numRounds := CeilLog2(|p.order|);
    matches := round1Matches;
    var matchesInPreviousRound := round1Matches;
    var roundNumber := 1;
    FirstRound(Half(|p.order|));
    while |matchesInPreviousRound| > 1
      invariant 1 <= roundNumber <= numRounds
      invariant |matchesInPreviousRound| == Pow2(numRounds - roundNumber)
      invariant RoundEnds(p, matches, matchesInPreviousRound, roundNumber)
      invariant Follows(p, matches, |matches| - |matchesInPreviousRound|)
      invariant forall x :: 0 <= x < |matches| ==> matches[x] in round1Matches || fresh(matches[x])
      decreases |matchesInPreviousRound|
    {
      roundNumber := roundNumber + 1;
      matches, matchesInPreviousRound := AppendRound(p, matches, matchesInPreviousRound, roundNumber);
      if roundNumber > numRounds + 2 {
        // the safety break of the source
        assert false;
      }
    }
  }

  /** Step 1 of the source: seeds, the shuffle, or the order given. */
  method OrderParticipants(input: seq<Participant>, shuffle: bool, choices: seq<nat>)
    returns (participants: seq<Participant>)
    requires Shuffle.ValidChoices(choices, |input|)
    ensures participants == SeedOrder(input, shuffle, choices)
  {
    participants := input;
    if AllSeeded(participants) {
      participants := SortBySeed(participants);
    } else if shuffle {
      var copy := new Participant[|participants|](i requires 0 <= i < |participants| => participants[i]);
      assert copy[..] == participants;
      var shuffled := Shuffle.ShuffleArray(copy, choices);
      participants := shuffled[..];
    }
  }

  lemma FollowsIsBracket(p: Plan, matches: seq<Match>)
    requires |p.order| >= 2 && |matches| == 2 * Half(|p.order|) - 1 && FreshIds(p.uuid)
    requires Follows(p, matches, |matches| - 1)
    ensures IsBracket(p, States(matches))
  {
  }

  method GenerateSingleElimination(
    tournamentId: Id, participantIdsOrObjects: seq<Participant>, shuffle: bool, choices: seq<nat>,
    defaultMatchTime: int, timePerRound: Option<int>, uuid: nat -> Id)
    returns (r: Result<seq<Match>>)
    requires Shuffle.ValidChoices(choices, |participantIdsOrObjects|) && FreshIds(uuid)
    ensures |participantIdsOrObjects| < 2 ==> r == Err(Invalid)
    ensures |participantIdsOrObjects| >= 2 ==>
              && r.Ok?
              && fresh(r.value)
              && IsBracket(
                PlanFor(tournamentId, participantIdsOrObjects, shuffle, choices, defaultMatchTime, timePerRound, uuid),
                States(r.value))
  {
    if |participantIdsOrObjects| < 2 {
      return Err(Invalid);
    }
    var participants := OrderParticipants(participantIdsOrObjects, shuffle, choices);
    var gap := if timePerRound.Some? && timePerRound.value != 0 then timePerRound.value else DEFAULT_TIME_PER_ROUND;
    var p := Plan(tournamentId, participants, defaultMatchTime, gap, uuid);
    assert p == PlanFor(tournamentId, participantIdsOrObjects, shuffle, choices, defaultMatchTime, timePerRound, uuid);
    var round1Matches := FirstRoundMatches(p);
    var matches := LaterRounds(p, round1Matches);
    FollowsIsBracket(p, matches);
    return Ok(matches);
  }
}
