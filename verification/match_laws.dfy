/** The match entity as an automaton: when each operation goes through, where it leads, what it leaves alone. */
module MatchLaws {
  import opened Common
  import opened Matches
  import opened MatchHistory

  // ---------- statuses ----------

  predicate Plays(m: MatchState, player: Option<Id>) {
    player == m.seats.participant1Id || player == m.seats.participant2Id
  }

  /** The situations in which an operation goes through. */
  predicate GoesThrough(m: MatchState, e: Event) {
    match e
    case UpdateStatus(_) => true
    case StartMatch => m.status in {Scheduled}
    case RecordResult(winner, _, _, _, _) =>
      m.status in {InProgress, AwaitingScores} && (winner.Some? ==> Plays(m, winner))
    case ConfirmResult => m.status in {AwaitingConfirmation, Disputed}
    case DisputeResult(reporterId, reason) =>
      m.status in {AwaitingConfirmation, Completed} && reporterId.Some? && |reason| > 0
    case ResolveDispute(_, _) => m.status in {Disputed}
    case SetParticipants(_) => true
    case SetAsBye(winner, _) => winner.Some?
    case CancelMatch => m.status !in {Completed, Canceled}
  }

  /** How many of the two seats are taken. */
  function Seated(seats: Seats): nat {
    (if seats.participant1Id.Some? then 1 else 0) + if seats.participant2Id.Some? then 1 else 0
  }

  /** The status afterwards when it does. */
  function Target(m: MatchState, e: Event): Status {
    match e
    case UpdateStatus(newStatus) => newStatus
    case StartMatch => InProgress
    case RecordResult(_, _, _, _, _) => AwaitingConfirmation
    case ConfirmResult => Completed
    case DisputeResult(_, _) => Disputed
    case ResolveDispute(_, newStatus) => newStatus
    case SetParticipants(seats) => StatusFor(m, Seated(seats))
    case SetAsBye(_, _) => Bye
    case CancelMatch => Canceled
  }

  /** What the number of participants makes of a match: none at all, a bye while it waits, or a match again. */
  function StatusFor(m: MatchState, seated: nat): Status {
    if seated == 0 then Pending
    else if seated == 1 && m.status in {Scheduled, Pending} then Bye
    else if seated == 2 && (m.status == Bye || (m.status == Completed && m.wasBye)) then Scheduled
    else m.status
  }

  /** Every operation goes through in exactly these situations and leads exactly there; refused, it changes nothing. */
  lemma AutomatonIff(m: MatchState, e: Event)
    ensures var (after, r) := Apply(m, e);
            if GoesThrough(m, e) then r == Done && after.status == Target(m, e) else r == Failed(Invalid) && after == m
  {
  }

  // ---------- the fields ----------

  /** What no operation changes. */
  predicate SameMatch(m: MatchState, after: MatchState) {
    && after.id == m.id && after.tournamentId == m.tournamentId && after.nextMatchId == m.nextMatchId
    && after.roundNumber == m.roundNumber && after.matchNumberInRound == m.matchNumberInRound
    && after.scheduledTime == m.scheduledTime && after.wasBye == m.wasBye
  }

  /** Which operations touch what. */
  lemma OnlyTheseChange(m: MatchState, e: Event)
    ensures var after := Apply(m, e).0;
            && SameMatch(m, after)
            && (after.seats != m.seats ==> e.SetParticipants? || e.SetAsBye?)
            && (after.report != m.report ==> e.RecordResult?)
            && (after.winnerId != m.winnerId || after.winnerType != m.winnerType ==>
                  e.RecordResult? || e.ResolveDispute? || e.SetParticipants? || e.SetAsBye?)
            && (after.isConfirmed != m.isConfirmed ==>
                  if after.isConfirmed then e.ConfirmResult? || e.ResolveDispute? || after.status == Bye
                  else e.RecordResult? || e.DisputeResult?)
  {
  }

  lemma {:induction false} RunsKeepIdentity(m: MatchState, events: seq<Event>)
    ensures SameMatch(m, Run(m, events))
    decreases |events|
  {
    if events != [] {
      OnlyTheseChange(m, events[0]);
      RunsKeepIdentity(Apply(m, events[0]).0, events[1..]);
    }
  }

  /** A result is recorded as reported: scores as given, a proof that is given in its own field, unconfirmed. */
  lemma RecordedAsReported(m: MatchState, winner: Option<Id>, scoreP1: Option<int>, scoreP2: Option<int>,
                           proof1: Option<Id>, proof2: Option<Id>)
    requires GoesThrough(m, RecordResult(winner, scoreP1, scoreP2, proof1, proof2))
    ensures var after := Apply(m, RecordResult(winner, scoreP1, scoreP2, proof1, proof2)).0;
            && after.winnerId == winner && !after.isConfirmed
            && (winner.Some? && winner == m.seats.participant1Id ==> after.winnerType == m.seats.participant1Type)
            && (winner.Some? && winner != m.seats.participant1Id ==> after.winnerType == m.seats.participant2Type)
            && after.report.participant1Score == scoreP1 && after.report.participant2Score == scoreP2
            && (proof1.Some? ==> after.report.resultProofUrlP1 == Url(proof1.value))
            && (proof2.Some? ==> after.report.resultProofUrlP2 == Url(proof2.value))
            && (proof1.None? ==> after.report.resultProofUrlP1 == m.report.resultProofUrlP1)
            && (proof2.None? ==> after.report.resultProofUrlP2 == m.report.resultProofUrlP2)
  {
  }

  /** Confirming, disputing and resolving set the flag; resolving also sets the winner, seated or not. */
  lemma VerdictsSetTheFlag(m: MatchState, e: Event)
    requires GoesThrough(m, e)
    ensures e.ConfirmResult? ==> Apply(m, e).0 == m.(isConfirmed := true, status := Completed)
    ensures e.DisputeResult? ==> Apply(m, e).0 == m.(isConfirmed := false, status := Disputed)
    ensures e.ResolveDispute? ==>
              var after := Apply(m, e).0;
              && after.isConfirmed && after.winnerId == e.resolvedWinner
              && (e.resolvedWinner.Some? && !Plays(m, e.resolvedWinner) ==> after.winnerType.None?)
              && (e.resolvedWinner.Some? && e.resolvedWinner == m.seats.participant1Id ==>
                    after.winnerType == m.seats.participant1Type)
    ensures e.StartMatch? || e.CancelMatch? || e.UpdateStatus? ==> Apply(m, e).0 == m.(status := Target(m, e))
  {
  }

  /** A bye has one seat taken, by its confirmed winner: the one the winner had, or the first. */
  lemma ByeSeatsTheWinner(m: MatchState, winner: Option<Id>, kind: Option<Kind>)
    requires winner.Some?
    ensures var after := Apply(m, SetAsBye(winner, kind)).0;
            var second := m.seats.participant2Id == winner && m.seats.participant1Id != winner;
            && after.winnerId == winner && after.winnerType == kind && after.isConfirmed
            && Seated(after.seats) == 1
            && (if second then after.seats.participant2Id == winner else after.seats.participant1Id == winner)
            && (second ==> after.seats.participant2Type == m.seats.participant2Type)
            && (m.seats.participant1Id == winner ==> after.seats.participant1Type == m.seats.participant1Type)
            && (!Plays(m, winner) ==> after.seats.participant1Type == kind)
            && (second ==> after.seats.participant1Type.None?) && (!second ==> after.seats.participant2Type.None?)
  {
  }

  /** New seats are taken as given, and a waiting match with one participant is won by that one. */
  lemma SeatsAsGiven(m: MatchState, seats: Seats)
    ensures var after := Apply(m, SetParticipants(seats)).0;
            && after.seats.participant1Id == seats.participant1Id && after.seats.participant2Id == seats.participant2Id
            && (if SeatsBye(m, seats) then
                  && after.isConfirmed && after.winnerId.Some? && Plays(after, after.winnerId)
                  && after.seats == (if seats.participant1Id.Some? then seats.(participant2Type := None)
                                     else seats.(participant1Type := None))
                  && after.winnerType == (if seats.participant1Type.Some? then seats.participant1Type
                                          else seats.participant2Type)
                else
                  after == m.(seats := seats, status := after.status))
  {
  }

  // ---------- runs ----------

  /** The i-th event of the run starts the match. */
  ghost predicate StartsAt(m: MatchState, events: seq<Event>, i: nat) {
    i < |events| && events[i].StartMatch? && Run(m, events[..i]).status == Scheduled
  }

  /**
   On every run of guarded operations, a match that came to be in progress was started in the run, when it
   was SCHEDULED.
   */
  lemma {:induction false} InProgressWasStarted(m: MatchState, events: seq<Event>)
    requires m.status != InProgress && Run(m, events).status == InProgress
    requires forall i :: 0 <= i < |events| ==> Guarded(events[i])
    ensures exists i :: StartsAt(m, events, i)
    decreases |events|
  {
    var next := Apply(m, events[0]).0;
    assert events[..0] == [];
    if next.status == InProgress {
      AutomatonIff(m, events[0]);
      assert StartsAt(m, events, 0);
    } else {
      InProgressWasStarted(next, events[1..]);
      var i: nat :| StartsAt(next, events[1..], i);
      assert events[..i + 1][1..] == events[1..][..i];
      assert StartsAt(m, events, i + 1);
    }
  }
}
