/** What every generated match carries, and which of them can be started. */
module BracketStart {
  import opened Common
  import opened Matches
  import opened Seeding
  import opened BracketShape
  import opened BracketRounds
  import opened BracketGenerator
  import Shuffle

  /**
   Exactly the matches that are no byes can be started, those of later rounds included, which are still
   without participants; the byes are over.
   */
  lemma StartableIff(p: Plan, rows: seq<MatchState>, x: nat)
    requires IsBracket(p, rows) && x < |rows|
    ensures Apply(rows[x], StartMatch) == (rows[x].(status := InProgress), Done) <==> x >= Byes(|p.order|)
    ensures rows[x].status == (if x < Byes(|p.order|) then Completed else Scheduled)
  {
    var row := Row(p, x, |rows| - 1);
  }

  /** Nothing is known yet of a match that is no bye, and of a bye only that it has been won. */
  lemma NothingReported(p: Plan, rows: seq<MatchState>, x: nat)
    requires IsBracket(p, rows) && x < |rows|
    ensures var m := rows[x];
            && m.seats.participant1Type.None? && m.seats.participant2Type.None? && m.winnerType.None?
            && m.report.participant1Score.None? && m.report.participant2Score.None?
            && m.report.resultProofUrlP1 == NoProof && !m.isConfirmed && !m.wasBye
            && (m.report.resultProofUrlP2 != NoProof <==> m.status == Completed)
            && (m.winnerId.Some? <==> m.status == Completed)
  {
    var row := Row(p, x, |rows| - 1);
  }

  /**
   Who sits where: the bye holders first and alone, then pairs from both ends of the order, the one that
   comes earlier in it always in the first seat. Ids are issued in the order of the list.
   */
  lemma EarlierSitsFirst(p: Plan, rows: seq<MatchState>, x: nat)
    requires IsBracket(p, rows) && x < |rows|
    ensures rows[x].id == p.uuid(x)
    ensures var (n, byes, seats) := (|p.order|, Byes(|p.order|), rows[x].seats);
            && (seats.participant1Id.Some? <==> rows[x].roundNumber == 1)
            && (seats.participant2Id.Some? <==> rows[x].roundNumber == 1 && x >= byes)
            && (seats.participant1Id.Some? ==> x < n && seats.participant1Id.value == p.order[x].id)
            && (seats.participant2Id.Some? ==>
                  x < n - 1 - (x - byes) < n && seats.participant2Id.value == p.order[n - 1 - (x - byes)].id)
  {
    var row := Row(p, x, |rows| - 1);
    EntrantsOfRow(p, rows, x);
  }

  /**
   The arguments of the call in the matches: every match is of the tournament; the first round is at the
   default time, and each later one the given gap later, or an hour if that is left out or 0.
   */
  lemma MatchesOfTheCall(tournamentId: Id, input: seq<Participant>, shuffle: bool, choices: seq<nat>,
                         defaultMatchTime: int, timePerRound: Option<int>, uuid: nat -> Id,
                         rows: seq<MatchState>, x: nat)
    requires |input| >= 2 && Shuffle.ValidChoices(choices, |input|) && x < |rows|
    requires IsBracket(
               PlanFor(tournamentId, input, shuffle, choices, defaultMatchTime, timePerRound, uuid), rows)
    ensures rows[x].tournamentId == tournamentId && rows[x].scheduledTime.Some?
    ensures var late := rows[x].scheduledTime.value - defaultMatchTime;
            if timePerRound.None? || timePerRound.value == 0 then late == (rows[x].roundNumber - 1) * 3_600_000
            else late == (rows[x].roundNumber - 1) * timePerRound.value
  {
    var p := PlanFor(tournamentId, input, shuffle, choices, defaultMatchTime, timePerRound, uuid);
    var row := Row(p, x, |rows| - 1);
    ScheduledByRound(p, rows, x);
  }
}
