/** The match entity of src/domain/tournament/match.entity.js. */
module Matches {
  import opened Common

  datatype Status =
    | Pending | Scheduled | InProgress | AwaitingScores | AwaitingConfirmation
    | Disputed | Completed | Canceled | Bye

  datatype Kind = User | Team

  /** A proof field. The bracket generator passes a boolean where a URL belongs, hence Flag. */
  datatype Proof = NoProof | Url(url: Id) | Flag(flag: bool)

  datatype Seats = Seats(
    participant1Id: Option<Id>, participant1Type: Option<Kind>,
    participant2Id: Option<Id>, participant2Type: Option<Kind>)

  datatype Report = Report(
    participant1Score: Option<int>, participant2Score: Option<int>,
    resultProofUrlP1: Proof, resultProofUrlP2: Proof)

  datatype MatchState = MatchState(
    id: Id,
    tournamentId: Id,
    roundNumber: nat,
    matchNumberInRound: nat,
    seats: Seats,
    status: Status,
    scheduledTime: Option<int>,
    winnerId: Option<Id>,
    winnerType: Option<Kind>,
    report: Report,
    isConfirmed: bool,
    nextMatchId: Option<Id>,
    wasBye: bool)

  datatype Event =
    | UpdateStatus(newStatus: Status)
    | StartMatch
    | RecordResult(winner: Option<Id>, scoreP1: Option<int>, scoreP2: Option<int>,
                   proof1: Option<Id>, proof2: Option<Id>)
    | ConfirmResult
    | DisputeResult(reporterId: Option<Id>, reason: string)
    | ResolveDispute(resolvedWinner: Option<Id>, resolvedStatus: Status)
    | SetParticipants(newSeats: Seats)
    | SetAsBye(byeWinner: Option<Id>, byeType: Option<Kind>)
    | CancelMatch

  /** The type recorded beside a winner: that of the slot the winner occupies. */
  function TypeOf(seats: Seats, winner: Option<Id>): Option<Kind> {
    if winner == seats.participant1Id then seats.participant1Type
    else if winner == seats.participant2Id then seats.participant2Type
    else None
  }

  function Proved(proof: Proof, url: Option<Id>): Proof {
    if url.Some? then Url(url.value) else proof
  }

  function NewReport(report: Report, scoreP1: Option<int>, scoreP2: Option<int>, proof1: Option<Id>,
                     proof2: Option<Id>): Report
  {
    Report(scoreP1, scoreP2, Proved(report.resultProofUrlP1, proof1), Proved(report.resultProofUrlP2, proof2))
  }

  /** A bye's winner keeps its slot if it has one and takes the first otherwise; the other slot is emptied. */
  function ByeSeats(seats: Seats, winner: Option<Id>, winnerType: Option<Kind>): Seats {
    if seats.participant1Id == winner then Seats(winner, seats.participant1Type, None, None)
    else if seats.participant2Id == winner then Seats(None, None, winner, seats.participant2Type)
    else Seats(winner, winnerType, None, None)
  }

  function AsBye(m: MatchState, winner: Option<Id>, winnerType: Option<Kind>): MatchState {
    m.(seats := ByeSeats(m.seats, winner, winnerType),
       winnerId := winner, winnerType := winnerType, status := Bye, isConfirmed := true)
  }

  function WithParticipants(m: MatchState, seats: Seats): MatchState {
    var one, two := seats.participant1Id.Some?, seats.participant2Id.Some?;
    var seated := m.(seats := seats);
    if one != two then
      if m.status == Scheduled || m.status == Pending
      then AsBye(seated, if one then seats.participant1Id else seats.participant2Id,
                 if seats.participant1Type.Some? then seats.participant1Type else seats.participant2Type)
      else seated
    else if one && (m.status == Bye || (m.status == Completed && m.wasBye)) then seated.(status := Scheduled)
    else if !one && m.status != Pending then seated.(status := Pending)
    else seated
  }

  function Started(m: MatchState): (MatchState, Outcome) {
    if m.status != Scheduled then (m, Failed(Invalid)) else (m.(status := InProgress), Done)
  }

  function ResultWritten(m: MatchState, winner: Option<Id>, report: Report): MatchState {
    m.(winnerId := winner, winnerType := TypeOf(m.seats, winner), report := report,
       isConfirmed := false, status := AwaitingConfirmation)
  }

  function Recorded(m: MatchState, winner: Option<Id>, scoreP1: Option<int>, scoreP2: Option<int>,
                    proof1: Option<Id>, proof2: Option<Id>): (MatchState, Outcome)
  {
    if m.status != InProgress && m.status != AwaitingScores then (m, Failed(Invalid))
    else if winner.Some? && winner != m.seats.participant1Id && winner != m.seats.participant2Id then
      (m, Failed(Invalid))
    else (ResultWritten(m, winner, NewReport(m.report, scoreP1, scoreP2, proof1, proof2)), Done)
  }

  function Confirmed(m: MatchState): (MatchState, Outcome) {
    if m.status != AwaitingConfirmation && m.status != Disputed then (m, Failed(Invalid))
    else (m.(isConfirmed := true, status := Completed), Done)
  }

  function Contested(m: MatchState, reporterId: Option<Id>, reason: string): (MatchState, Outcome) {
    if m.status != AwaitingConfirmation && m.status != Completed then (m, Failed(Invalid))
    else if !reporterId.Some? || reason == "" then (m, Failed(Invalid))
    else (m.(status := Disputed, isConfirmed := false), Done)
  }

  function Resolved(m: MatchState, winner: Option<Id>, newStatus: Status): (MatchState, Outcome) {
    if m.status != Disputed then (m, Failed(Invalid))
    else (m.(winnerId := winner, winnerType := TypeOf(m.seats, winner), isConfirmed := true, status := newStatus), Done)
  }

  function MadeBye(m: MatchState, winner: Option<Id>, winnerType: Option<Kind>): (MatchState, Outcome) {
    if !winner.Some? then (m, Failed(Invalid)) else (AsBye(m, winner, winnerType), Done)
  }

  function CanceledBy(m: MatchState): (MatchState, Outcome) {
    if m.status == Completed || m.status == Canceled then (m, Failed(Invalid))
    else (m.(status := Canceled), Done)
  }

  /** What each operation does to the match; a failed operation leaves it as it was. */
  function Apply(m: MatchState, e: Event): (MatchState, Outcome) {
    match e
    case UpdateStatus(newStatus) => (m.(status := newStatus), Done)
    case StartMatch => Started(m)
    case RecordResult(winner, scoreP1, scoreP2, proof1, proof2) => Recorded(m, winner, scoreP1, scoreP2, proof1, proof2)
    case ConfirmResult => Confirmed(m)
    case DisputeResult(reporterId, reason) => Contested(m, reporterId, reason)
    case ResolveDispute(winner, newStatus) => Resolved(m, winner, newStatus)
    case SetParticipants(newSeats) => (WithParticipants(m, newSeats), Done)
    case SetAsBye(winner, winnerType) => MadeBye(m, winner, winnerType)
    case CancelMatch => CanceledBy(m)
  }

  class Match {
    const id: Id
    const tournamentId: Id
    const roundNumber: nat
    const matchNumberInRound: nat
    var participant1Id: Option<Id>
    var participant2Id: Option<Id>
    var status: Status
    var scheduledTime: Option<int>
    var winnerId: Option<Id>
    var participant1Score: Option<int>
    var participant2Score: Option<int>
    var resultProofUrlP1: Proof
    var resultProofUrlP2: Proof
    var isConfirmed: bool
    var nextMatchId: Option<Id>
    var participant1Type: Option<Kind>
    var participant2Type: Option<Kind>
    var winnerType: Option<Kind>
    var wasBye: bool

    function State(): MatchState
      reads this
    {
      MatchState(id, tournamentId, roundNumber, matchNumberInRound, Seating(), status, scheduledTime,
                 winnerId, winnerType, Reported(), isConfirmed, nextMatchId, wasBye)
    }

    function Seating(): Seats
      reads this
    {
      Seats(participant1Id, participant1Type, participant2Id, participant2Type)
    }

    function Reported(): Report
      reads this
    {
      Report(participant1Score, participant2Score, resultProofUrlP1, resultProofUrlP2)
    }

    /** Parameters in the entity's own order. */
    constructor (id: Id, tournamentId: Id, roundNumber: nat, matchNumberInRound: nat,
                 participant1Id: Option<Id> := None, participant2Id: Option<Id> := None,
                 status: Status := Scheduled, scheduledTime: Option<int> := None,
                 winnerId: Option<Id> := None,
                 participant1Score: Option<int> := None, participant2Score: Option<int> := None,
                 resultProofUrlP1: Proof := NoProof, resultProofUrlP2: Proof := NoProof,
                 isConfirmed: bool := false, nextMatchId: Option<Id> := None)
      ensures State() == MatchState(id, tournamentId, roundNumber, matchNumberInRound,
                                    Seats(participant1Id, None, participant2Id, None), status, scheduledTime,
                                    winnerId, None,
                                    Report(participant1Score, participant2Score, resultProofUrlP1, resultProofUrlP2),
                                    isConfirmed, nextMatchId, false)
    {
      this.id, this.tournamentId := id, tournamentId;
      this.roundNumber, this.matchNumberInRound := roundNumber, matchNumberInRound;
      this.participant1Id, this.participant2Id := participant1Id, participant2Id;
      this.status, this.scheduledTime, this.winnerId := status, scheduledTime, winnerId;
      this.participant1Score, this.participant2Score := participant1Score, participant2Score;
      this.resultProofUrlP1, this.resultProofUrlP2 := resultProofUrlP1, resultProofUrlP2;
      this.isConfirmed, this.nextMatchId := isConfirmed, nextMatchId;
      this.participant1Type, this.participant2Type, this.winnerType := None, None, None;
      this.wasBye := false;
    }

    method UpdateStatus(newStatus: Status)
      modifies this`status
      ensures status == newStatus
    {
      status := newStatus;
    }

    method StartMatch() returns (outcome: Outcome)
      modifies this
      ensures (State(), outcome) == Started(old(State()))
    {
      if status != Scheduled {
        return Failed(Invalid);
      }
      UpdateStatus(InProgress);
      return Done;
    }

    method SetWinner(winner: Option<Id>)
      modifies this`winnerId, this`winnerType
      ensures winnerId == winner && winnerType == TypeOf(Seating(), winner)
    {
      winnerId := winner;
      if winnerId == participant1Id {
        winnerType := participant1Type;
      } else if winnerId == participant2Id {
        winnerType := participant2Type;
      } else {
        winnerType := None;
      }
    }

    method SetReport(scoreP1: Option<int>, scoreP2: Option<int>, proof1: Option<Id>, proof2: Option<Id>)
      modifies this`participant1Score, this`participant2Score, this`resultProofUrlP1, this`resultProofUrlP2
      ensures Reported() == NewReport(old(Reported()), scoreP1, scoreP2, proof1, proof2)
    {
      participant1Score := scoreP1;
      participant2Score := scoreP2;
      if proof1.Some? {
        resultProofUrlP1 := Url(proof1.value);
      }
      if proof2.Some? {
        resultProofUrlP2 := Url(proof2.value);
      }
    }

    method WriteResult(winner: Option<Id>, scoreP1: Option<int>, scoreP2: Option<int>, proof1: Option<Id>,
                       proof2: Option<Id>)
      modifies this
      ensures State() ==
              ResultWritten(old(State()), winner, NewReport(old(Reported()), scoreP1, scoreP2, proof1, proof2))
    {
      SetWinner(winner);
      SetReport(scoreP1, scoreP2, proof1, proof2);
      isConfirmed := false;
      UpdateStatus(AwaitingConfirmation);
    }

    method RecordResult(winner: Option<Id>, scoreP1: Option<int>, scoreP2: Option<int>,
                        proof1: Option<Id>, proof2: Option<Id>)
      returns (outcome: Outcome)
      modifies this
      ensures (State(), outcome) == Recorded(old(State()), winner, scoreP1, scoreP2, proof1, proof2)
    {
      if status != InProgress && status != AwaitingScores {
        return Failed(Invalid);
      }
      if winner.Some? && winner != participant1Id && winner != participant2Id {
        return Failed(Invalid);
      }
      WriteResult(winner, scoreP1, scoreP2, proof1, proof2);
      return Done;
    }

    method ConfirmResult() returns (outcome: Outcome)
      modifies this
      ensures (State(), outcome) == Confirmed(old(State()))
    {
      if status != AwaitingConfirmation && status != Disputed {
        return Failed(Invalid);
      }
      isConfirmed := true;
      UpdateStatus(Completed);
      return Done;
    }

    method DisputeResult(reporterId: Option<Id>, reason: string) returns (outcome: Outcome)
      modifies this
      ensures (State(), outcome) == Contested(old(State()), reporterId, reason)
    {
      if status != AwaitingConfirmation && status != Completed {
        return Failed(Invalid);
      }
      if !reporterId.Some? || reason == "" {
        return Failed(Invalid);
      }
      UpdateStatus(Disputed);
      isConfirmed := false;
      return Done;
    }

    method ResolveDispute(winner: Option<Id>, newStatus: Status := Completed)
      returns (outcome: Outcome)
      modifies this
      ensures (State(), outcome) == Resolved(old(State()), winner, newStatus)
    {
      if status != Disputed {
        return Failed(Invalid);
      }
      SetWinner(winner);
      isConfirmed := true;
      UpdateStatus(newStatus);
      return Done;
    }

    method SetSeats(p1: Option<Id>, type1: Option<Kind>, p2: Option<Id>, type2: Option<Kind>)
      modifies this`participant1Id, this`participant1Type, this`participant2Id, this`participant2Type
      ensures Seating() == Seats(p1, type1, p2, type2)
    {
      participant1Id, participant1Type := p1, type1;
      participant2Id, participant2Type := p2, type2;
    }

    method SetParticipants(p1: Option<Id>, type1: Option<Kind>, p2: Option<Id>, type2: Option<Kind>)
      modifies this
      ensures State() == WithParticipants(old(State()), Seats(p1, type1, p2, type2))
    {
      SetSeats(p1, type1, p2, type2);
      if (p1.Some? && !p2.Some?) || (!p1.Some? && p2.Some?) {
        if status == Scheduled || status == Pending {
          var _ := SetAsBye(if p1.Some? then p1 else p2, if type1.Some? then type1 else type2);
        }
      } else if p1.Some? && p2.Some?
                && (status == Bye || (status == Completed && (p1 == None || p2 == None || wasBye))) {
        UpdateStatus(Scheduled);
      } else if !p1.Some? && !p2.Some? && status != Pending {
        UpdateStatus(Pending);
      }
    }

    method SeatBye(winner: Option<Id>, winnerParticipantType: Option<Kind>)
      modifies this`participant1Id, this`participant1Type, this`participant2Id, this`participant2Type
      ensures Seating() == ByeSeats(old(Seating()), winner, winnerParticipantType)
    {
      if participant1Id == winner {
        participant2Id, participant2Type := None, None;
      } else if participant2Id == winner {
        participant1Id, participant1Type := None, None;
      } else {
        participant1Id, participant1Type := winner, winnerParticipantType;
        participant2Id, participant2Type := None, None;
      }
    }

    method WriteBye(winner: Option<Id>, winnerParticipantType: Option<Kind>)
      modifies this
      ensures State() == AsBye(old(State()), winner, winnerParticipantType)
    {
      SeatBye(winner, winnerParticipantType);
      winnerId, winnerType := winner, winnerParticipantType;
      UpdateStatus(Bye);
      isConfirmed := true;
    }

    method SetAsBye(winner: Option<Id>, winnerParticipantType: Option<Kind>) returns (outcome: Outcome)
      modifies this
      ensures (State(), outcome) == MadeBye(old(State()), winner, winnerParticipantType)
    {
      if !winner.Some? {
        return Failed(Invalid);
      }
      WriteBye(winner, winnerParticipantType);
      return Done;
    }

    method CancelMatch() returns (outcome: Outcome)
      modifies this
      ensures (State(), outcome) == CanceledBy(old(State()))
    {
      if status == Completed || status == Canceled {
        return Failed(Invalid);
      }
      UpdateStatus(Canceled);
      return Done;
    }
  }
}
