/** What holds of a match over whole runs of its operations. */
module MatchHistory {
  import opened Common
  import opened Matches

  function Run(m: MatchState, events: seq<Event>): MatchState
    decreases |events|
  {
    if events == [] then m else Run(Apply(m, events[0]).0, events[1..])
  }

  /** The confirmation flag says what the status says. */
  predicate FlagsAgree(m: MatchState) {
    && (m.status == Completed ==> m.isConfirmed)
    && (m.status == AwaitingConfirmation || m.status == Disputed ==> !m.isConfirmed)
  }

  /** A dispute resolved back into a status that means "not confirmed". */
  predicate ResolvesToUnconfirmed(m: MatchState, e: Event) {
    && e.ResolveDispute?
    && m.status == Disputed
    && (e.resolvedStatus == AwaitingConfirmation || e.resolvedStatus == Disputed)
  }

  /** A raw status update to a status that the flag contradicts. */
  predicate ContradictsFlag(m: MatchState, e: Event) {
    && e.UpdateStatus?
    && (if m.isConfirmed then e.newStatus == AwaitingConfirmation || e.newStatus == Disputed
        else e.newStatus == Completed)
  }

  /** Exactly two kinds of call break the flags. */
  lemma FlagsKeptUnless(m: MatchState, e: Event)
    requires FlagsAgree(m)
    ensures FlagsAgree(Apply(m, e).0) <==> !ResolvesToUnconfirmed(m, e) && !ContradictsFlag(m, e)
  {
  }

  predicate Guarded(e: Event) {
    && !e.UpdateStatus?
    && (e.ResolveDispute? ==> e.resolvedStatus in {Completed, Canceled, Scheduled})
  }

  lemma {:induction false} FlagsAgreeOnEveryRun(m: MatchState, events: seq<Event>)
    requires FlagsAgree(m)
    requires forall i :: 0 <= i < |events| ==> Guarded(events[i])
    ensures FlagsAgree(Run(m, events))
    decreases |events|
  {
    if events != [] {
      FlagsKeptUnless(m, events[0]);
      FlagsAgreeOnEveryRun(Apply(m, events[0]).0, events[1..]);
    }
  }

  /** The statuses a match can only be in once some result stands. */
  predicate ResultStands(m: MatchState) {
    m.status in {AwaitingConfirmation, Disputed, Completed}
  }

  /** The i-th event of the run is a recordResult that succeeds. */
  ghost predicate RecordsAt(m: MatchState, events: seq<Event>, i: nat) {
    && i < |events|
    && events[i].RecordResult?
    && Apply(Run(m, events[..i]), events[i]).1 == Done
  }

  lemma {:induction false} CompletedHasRecordedResult(m: MatchState, events: seq<Event>)
    requires !ResultStands(m)
    requires forall i :: 0 <= i < |events| ==> !events[i].UpdateStatus?
    requires ResultStands(Run(m, events))
    ensures exists i :: RecordsAt(m, events, i)
    decreases |events|
  {
    if ResultStands(Apply(m, events[0]).0) {
      assert events[..0] == [];
      assert RecordsAt(m, events, 0);
    } else {
      CompletedHasRecordedResult(Apply(m, events[0]).0, events[1..]);
      var i: nat :| RecordsAt(Apply(m, events[0]).0, events[1..], i);
      assert events[..i + 1][1..] == events[1..][..i];
      assert RecordsAt(m, events, i + 1);
    }
  }

  /** A run of guarded operations that completes the match although no result is recorded in it. */
  ghost predicate CompletesUnrecorded(m: MatchState, events: seq<Event>) {
    && (forall i :: 0 <= i < |events| ==> Guarded(events[i]))
    && Run(m, events).status == Completed
    && !exists i :: RecordsAt(m, events, i)
  }

  /** Completion without a recorded result is possible from exactly three starting statuses. */
  lemma CompletionNeedsRecordIff(m: MatchState)
    ensures (exists events :: CompletesUnrecorded(m, events)) <==> ResultStands(m)
  {
    if ResultStands(m) {
      var events := if m.status == Completed then [] else [ConfirmResult];
      assert Run(m, events).status == Completed;
      forall i | RecordsAt(m, events, i)
        ensures false
      {
      }
      assert CompletesUnrecorded(m, events);
    } else {
      forall events | CompletesUnrecorded(m, events)
        ensures false
      {
        CompletedHasRecordedResult(m, events);
      }
    }
  }

  /** A result that is recorded and then confirmed stands as reported; proofs on file stay unless replaced. */
  lemma ConfirmedAsRecorded(m: MatchState, winner: Option<Id>, scoreP1: Option<int>, scoreP2: Option<int>,
                            proof1: Option<Id>, proof2: Option<Id>)
    requires Apply(m, RecordResult(winner, scoreP1, scoreP2, proof1, proof2)).1 == Done
    ensures var after := Run(m, [RecordResult(winner, scoreP1, scoreP2, proof1, proof2), ConfirmResult]);
            && after.status == Completed && after.isConfirmed
            && after.winnerId == winner
            && (winner.Some? ==> winner == m.seats.participant1Id || winner == m.seats.participant2Id)
            && after.report.participant1Score == scoreP1 && after.report.participant2Score == scoreP2
            && (proof1.None? ==> after.report.resultProofUrlP1 == m.report.resultProofUrlP1)
            && (proof2.None? ==> after.report.resultProofUrlP2 == m.report.resultProofUrlP2)
            && after.seats == m.seats && after.nextMatchId == m.nextMatchId && after.id == m.id
  {
    var events := [RecordResult(winner, scoreP1, scoreP2, proof1, proof2), ConfirmResult];
    var recorded := Apply(m, events[0]).0;
    assert events[1..] == [ConfirmResult] && events[1..][1..] == [];
    assert Run(recorded, events[1..]) == Run(Apply(recorded, ConfirmResult).0, []);
  }

  /** The recorded type of the winner is the type of the slot the winner occupies. */
  predicate WinnerTyped(m: MatchState) {
    m.winnerId.Some? ==> m.winnerType == TypeOf(m.seats, m.winnerId)
  }

  /** A bye given to a seated participant under a type that is not the slot's. */
  predicate MistypesBye(m: MatchState, e: Event) {
    && e.SetAsBye? && e.byeWinner.Some?
    && ((e.byeWinner == m.seats.participant1Id && e.byeType != m.seats.participant1Type)
        || (e.byeWinner != m.seats.participant1Id && e.byeWinner == m.seats.participant2Id
          && e.byeType != m.seats.participant2Type))
  }

  /** New seats with one id make a waiting match a bye. */
  predicate SeatsBye(m: MatchState, seats: Seats) {
    && seats.participant1Id.Some? != seats.participant2Id.Some?
    && (m.status == Scheduled || m.status == Pending)
  }

  /**
   New seats under which the winner's type is not the seat's. A bye takes the first type that is given,
   whichever slot it belongs to; otherwise the old winner stays, and so does its type.
   */
  predicate MistypesSeats(m: MatchState, e: Event) {
    && e.SetParticipants?
    && var s := e.newSeats;
       if SeatsBye(m, s) then
         if s.participant1Id.Some? then s.participant1Type.None? && s.participant2Type.Some?
         else s.participant1Type.Some? && s.participant1Type != s.participant2Type
       else
         m.winnerId.Some? && m.winnerType != TypeOf(s, m.winnerId)
  }

  /** The winner's type leaves the winner's slot in exactly two kinds of call. */
  lemma WinnerTypedUnless(m: MatchState, e: Event)
    requires WinnerTyped(m)
    ensures WinnerTyped(Apply(m, e).0) <==> !MistypesBye(m, e) && !MistypesSeats(m, e)
  {
  }

  /** The winner, when there is one, sits in one of the two slots. */
  predicate WinnerSeated(m: MatchState) {
    m.winnerId.Some? ==> m.winnerId == m.seats.participant1Id || m.winnerId == m.seats.participant2Id
  }

  /** Resolving in favour of somebody who is not in the match: the entity does not check. */
  predicate ResolvesToStranger(m: MatchState, e: Event) {
    && e.ResolveDispute?
    && m.status == Disputed
    && e.resolvedWinner.Some?
    && e.resolvedWinner != m.seats.participant1Id
    && e.resolvedWinner != m.seats.participant2Id
  }

  /** New seats without the winner, in a match that they do not make a bye: the guard on the status is commented out. */
  predicate UnseatsWinner(m: MatchState, e: Event) {
    && e.SetParticipants?
    && m.winnerId.Some?
    && e.newSeats.participant1Id != m.winnerId && e.newSeats.participant2Id != m.winnerId
    && !SeatsBye(m, e.newSeats)
  }

  /** The winner stops being one of the two participants in exactly two kinds of call. */
  lemma WinnerSeatedUnless(m: MatchState, e: Event)
    requires WinnerSeated(m)
    ensures WinnerSeated(Apply(m, e).0) <==> !ResolvesToStranger(m, e) && !UnseatsWinner(m, e)
  {
  }

  /** The seats of a finished and confirmed match can be given to two others, and the old winner stays. */
  lemma WinnerCanBeUnseated(m: MatchState, three: Id, four: Id)
    requires m.status == Completed && m.isConfirmed && !m.wasBye && WinnerSeated(m) && m.winnerId.Some?
    requires m.winnerId != Some(three) && m.winnerId != Some(four)
    ensures var after := Apply(m, SetParticipants(Seats(Some(three), None, Some(four), None))).0;
            after.status == Completed && after.isConfirmed && after.winnerId == m.winnerId && !WinnerSeated(after)
  {
  }

  /** A dispute over a real match can crown somebody who never played it. */
  lemma StrangerCanWin(m: MatchState)
    requires m.status == Disputed && m.seats.participant1Id == Some(1) && m.seats.participant2Id == Some(2)
    ensures var after := Apply(m, ResolveDispute(Some(3), Completed)).0;
            after.status == Completed && after.isConfirmed && after.winnerId == Some(3) && !WinnerSeated(after)
  {
  }
}
