/** The tournament entity of src/domain/tournament/tournament.entity.js. */
module Tournaments {
  import opened Common

  datatype Status = Pending | Upcoming | RegistrationOpen | RegistrationClosed | Ongoing | Completed | Canceled

  datatype EntryFeeType = Free | PaidCash | PaidInGameCurrency

  datatype PrizeType = NoPrize | Cash | PhysicalItem | InGameItem | Mixed

  datatype BracketType = SingleMatch | SingleElimination | DoubleElimination | RoundRobin | Swiss

  datatype Terms = Terms(entryFee: int, entryFeeType: EntryFeeType, prizePool: int, prizeType: PrizeType)

  datatype Dates = Dates(startDate: int, endDate: Option<int>)

  datatype Staff = Staff(organizerId: Option<Id>, managedBy: set<Id>, supportedBy: set<Id>, bracketType: BracketType)

  datatype TournamentState = TournamentState(
    name: Id, gameId: Id, status: Status, terms: Terms,
    maxParticipants: int, currentParticipants: int, dates: Dates, staff: Staff)

  /** A field of an update: left out, of the right kind, or of a kind the entity rejects. */
  datatype Field<+T> = Absent | Given(value: T) | Malformed

  datatype Details = Details(
    name: Option<Id>, gameId: Option<Id>,
    entryFee: Option<int>, entryFeeType: Field<EntryFeeType>, prizePool: Option<int>, prizeType: Field<PrizeType>,
    maxParticipants: Option<int>,
    startDate: Option<int>, endDate: Option<Option<int>>,
    organizerId: Option<Option<Id>>, managedBy: Field<set<Id>>, supportedBy: Field<set<Id>>,
    bracketType: Field<BracketType>)

  // ---------- what each operation does ----------

  predicate EndsBeforeStart(dates: Dates) {
    dates.endDate.Some? && dates.endDate.value < dates.startDate
  }

  /** The constructor's checks, which a record also has to pass every time it is loaded. */
  predicate Loads(t: TournamentState) {
    && t.terms.entryFee >= 0 && t.terms.prizePool >= 0
    && t.maxParticipants > 1
    && 0 <= t.currentParticipants <= t.maxParticipants
    && !EndsBeforeStart(t.dates)
  }

  predicate CanRegister(t: TournamentState) {
    t.status == RegistrationOpen && t.currentParticipants < t.maxParticipants
  }

  function RegistrationOpened(t: TournamentState): (TournamentState, Outcome) {
    if t.status != Pending && t.status != Upcoming then (t, Failed(Invalid)) else (t.(status := RegistrationOpen), Done)
  }

  function RegistrationClosedBy(t: TournamentState): (TournamentState, Outcome) {
    if t.status != RegistrationOpen then (t, Failed(Invalid)) else (t.(status := RegistrationClosed), Done)
  }

  function Started(t: TournamentState): (TournamentState, Outcome) {
    if t.status != RegistrationClosed && t.status != RegistrationOpen then (t, Failed(Invalid))
    else (t.(status := Ongoing), Done)
  }

  /** Completion sets the end date to the current time when there is none, whatever the start date. */
  function CompletedAt(t: TournamentState, now: int): (TournamentState, Outcome) {
    if t.status != Ongoing then (t, Failed(Invalid))
    else
      var endDate := if t.dates.endDate.Some? then t.dates.endDate else Some(now);
      (t.(status := Completed, dates := t.dates.(endDate := endDate)), Done)
  }

  function CanceledBy(t: TournamentState): (TournamentState, Outcome) {
    if t.status == Completed || t.status == Canceled then (t, Failed(Invalid)) else (t.(status := Canceled), Done)
  }

  function ParticipantAdded(t: TournamentState): (TournamentState, Outcome) {
    if !CanRegister(t) then (t, Failed(Invalid)) else (t.(currentParticipants := t.currentParticipants + 1), Done)
  }

  function ParticipantRemoved(t: TournamentState): TournamentState {
    if t.currentParticipants > 0 then t.(currentParticipants := t.currentParticipants - 1) else t
  }

  // The parts of updateDetails, in order. Each leaves what it changed before it throws.

  function FeeUpdated(terms: Terms, d: Details): (Terms, Outcome) {
    if d.entryFee.Some? && d.entryFee.value < 0 then (terms, Failed(Invalid))
    else
      var priced := if d.entryFee.Some? then terms.(entryFee := d.entryFee.value) else terms;
      match d.entryFeeType
      case Absent => (priced, Done)
      case Malformed => (priced, Failed(Invalid))
      case Given(value) => (priced.(entryFeeType := value), Done)
  }

  function PrizeUpdated(terms: Terms, d: Details): (Terms, Outcome) {
    if d.prizePool.Some? && d.prizePool.value < 0 then (terms, Failed(Invalid))
    else
      var pooled := if d.prizePool.Some? then terms.(prizePool := d.prizePool.value) else terms;
      match d.prizeType
      case Absent => (pooled, Done)
      case Malformed => (pooled, Failed(Invalid))
      case Given(value) => (pooled.(prizeType := value), Done)
  }

  function CapacityUpdated(max: int, current: int, d: Details): (int, Outcome) {
    if d.maxParticipants.None? then (max, Done)
    else if d.maxParticipants.value <= 1 || d.maxParticipants.value < current then (max, Failed(Invalid))
    else (d.maxParticipants.value, Done)
  }

  function DatesUpdated(dates: Dates, d: Details): (Dates, Outcome) {
    var updated := Dates(if d.startDate.Some? then d.startDate.value else dates.startDate,
                         if d.endDate.Some? then d.endDate.value else dates.endDate);
    (updated, if EndsBeforeStart(updated) then Failed(Invalid) else Done)
  }

  function StaffUpdated(staff: Staff, d: Details): (Staff, Outcome) {
    var organized := if d.organizerId.Some? then staff.(organizerId := d.organizerId.value) else staff;
    if d.managedBy.Malformed? then (organized, Failed(Invalid))
    else
      var managed := if d.managedBy.Given? then organized.(managedBy := d.managedBy.value) else organized;
      if d.supportedBy.Malformed? then (managed, Failed(Invalid))
      else
        var supported := if d.supportedBy.Given? then managed.(supportedBy := d.supportedBy.value) else managed;
        match d.bracketType
        case Absent => (supported, Done)
        case Malformed => (supported, Failed(Invalid))
        case Given(value) => (supported.(bracketType := value), Done)
  }

  function Renamed(t: TournamentState, d: Details): TournamentState {
    t.(name := if d.name.Some? then d.name.value else t.name,
       gameId := if d.gameId.Some? then d.gameId.value else t.gameId)
  }

  /** The whole update, with whatever was changed before a failure. */
  function DetailsUpdated(t: TournamentState, d: Details): (TournamentState, Outcome) {
    var (fees, feesDone) := FeeUpdated(t.terms, d);
    var named := Renamed(t, d).(terms := fees);
    if feesDone != Done then (named, feesDone)
    else
      var (terms, prizesDone) := PrizeUpdated(fees, d);
      if prizesDone != Done then (named.(terms := terms), prizesDone)
      else LimitsUpdated(named.(terms := terms), d)
  }

  function LimitsUpdated(t: TournamentState, d: Details): (TournamentState, Outcome) {
    var (max, capacityDone) := CapacityUpdated(t.maxParticipants, t.currentParticipants, d);
    if capacityDone != Done then (t, capacityDone)
    else
      var (dates, datesDone) := DatesUpdated(t.dates, d);
      var limited := t.(maxParticipants := max, dates := dates);
      if datesDone != Done then (limited, datesDone)
      else (limited.(staff := StaffUpdated(t.staff, d).0), StaffUpdated(t.staff, d).1)
  }

  // ---------- the entity ----------

  class Tournament {
    var name: Id
    var gameId: Id
    var status: Status
    var terms: Terms
    var maxParticipants: int
    var currentParticipants: int
    var dates: Dates
    var staff: Staff

    function State(): TournamentState
      reads this
    {
      TournamentState(name, gameId, status, terms, maxParticipants, currentParticipants, dates, staff)
    }

    /** The factory that rebuilds an entity from its record; the constructor's checks may throw. */
    static method FromPersistence(record: TournamentState) returns (r: Result<Tournament>)
      ensures Loads(record) ==> r.Ok? && fresh(r.value) && r.value.State() == record
      ensures !Loads(record) ==> r == Err(Internal)
    {
      if record.terms.entryFee < 0 || record.terms.prizePool < 0 {
        return Err(Internal);
      }
      if record.maxParticipants <= 1 || EndsBeforeStart(record.dates) {
        return Err(Internal);
      }
      if record.currentParticipants < 0 || record.currentParticipants > record.maxParticipants {
        return Err(Internal);
      }
      var tournament := new Tournament(record);
      return Ok(tournament);
    }

    constructor (record: TournamentState)
      ensures State() == record
    {
      name, gameId, status := record.name, record.gameId, record.status;
      terms, dates, staff := record.terms, record.dates, record.staff;
      maxParticipants, currentParticipants := record.maxParticipants, record.currentParticipants;
    }

    method UpdateStatus(newStatus: Status)
      modifies this`status
      ensures status == newStatus
    {
      status := newStatus;
    }

    method OpenRegistration() returns (outcome: Outcome)
      modifies this`status
      ensures (State(), outcome) == RegistrationOpened(old(State()))
    {
      if status != Pending && status != Upcoming {
        return Failed(Invalid);
      }
      UpdateStatus(RegistrationOpen);
      return Done;
    }

    method CloseRegistration() returns (outcome: Outcome)
      modifies this`status
      ensures (State(), outcome) == RegistrationClosedBy(old(State()))
    {
      if status != RegistrationOpen {
        return Failed(Invalid);
      }
      UpdateStatus(RegistrationClosed);
      return Done;
    }

    method StartTournament() returns (outcome: Outcome)
      modifies this`status
      ensures (State(), outcome) == Started(old(State()))
    {
      if status != RegistrationClosed && status != RegistrationOpen {
        return Failed(Invalid);
      }
      UpdateStatus(Ongoing);
      return Done;
    }

    method CompleteTournament(now: int) returns (outcome: Outcome)
      modifies this`status, this`dates
      ensures (State(), outcome) == CompletedAt(old(State()), now)
    {
      if status != Ongoing {
        return Failed(Invalid);
      }
      UpdateStatus(Completed);
      dates := dates.(endDate := if dates.endDate.Some? then dates.endDate else Some(now));
      return Done;
    }

    method CancelTournament() returns (outcome: Outcome)
      modifies this`status
      ensures (State(), outcome) == CanceledBy(old(State()))
    {
      if status == Completed || status == Canceled {
        return Failed(Invalid);
      }
      UpdateStatus(Canceled);
      return Done;
    }

    method IsFull() returns (full: bool)
      ensures full <==> currentParticipants >= maxParticipants
    {
      return currentParticipants >= maxParticipants;
    }

    method AddParticipant() returns (outcome: Outcome)
      modifies this`currentParticipants
      ensures (State(), outcome) == ParticipantAdded(old(State()))
    {
      var full := IsFull();
      if status != RegistrationOpen || full {
        return Failed(Invalid);
      }
      currentParticipants := currentParticipants + 1;
      return Done;
    }

    method RemoveParticipant()
      modifies this`currentParticipants
      ensures State() == ParticipantRemoved(old(State()))
    {
      if currentParticipants > 0 {
        currentParticipants := currentParticipants - 1;
      }
    }

    method UpdateFee(d: Details) returns (outcome: Outcome)
      modifies this`terms
      ensures (terms, outcome) == FeeUpdated(old(terms), d)
    {
      if d.entryFee.Some? {
        if d.entryFee.value < 0 {
          return Failed(Invalid);
        }
        terms := terms.(entryFee := d.entryFee.value);
      }
      match d.entryFeeType {
        case Absent => return Done;
        case Malformed => return Failed(Invalid);
        case Given(value) =>
          terms := terms.(entryFeeType := value);
          return Done;
      }
    }

    method UpdatePrize(d: Details) returns (outcome: Outcome)
      modifies this`terms
      ensures (terms, outcome) == PrizeUpdated(old(terms), d)
    {
      if d.prizePool.Some? {
        if d.prizePool.value < 0 {
          return Failed(Invalid);
        }
        terms := terms.(prizePool := d.prizePool.value);
      }
      match d.prizeType {
        case Absent => return Done;
        case Malformed => return Failed(Invalid);
        case Given(value) =>
          terms := terms.(prizeType := value);
          return Done;
      }
    }

    method UpdateCapacity(d: Details) returns (outcome: Outcome)
      modifies this`maxParticipants
      ensures (maxParticipants, outcome) == CapacityUpdated(old(maxParticipants), currentParticipants, d)
    {
      if d.maxParticipants.Some? {
        if d.maxParticipants.value <= 1 {
          return Failed(Invalid);
        }
        if d.maxParticipants.value < currentParticipants {
          return Failed(Invalid);
        }
        maxParticipants := d.maxParticipants.value;
      }
      return Done;
    }

    method UpdateDates(d: Details) returns (outcome: Outcome)
      modifies this`dates
      ensures (dates, outcome) == DatesUpdated(old(dates), d)
    {
      if d.startDate.Some? {
        dates := dates.(startDate := d.startDate.value);
      }
      if d.endDate.Some? {
        dates := dates.(endDate := d.endDate.value);
      }
      if dates.endDate.Some? && dates.endDate.value < dates.startDate {
        return Failed(Invalid);
      }
      return Done;
    }

    method UpdateStaff(d: Details) returns (outcome: Outcome)
      modifies this`staff
      ensures (staff, outcome) == StaffUpdated(old(staff), d)
    {
      if d.organizerId.Some? {
        staff := staff.(organizerId := d.organizerId.value);
      }
      if d.managedBy.Malformed? {
        return Failed(Invalid);
      }
      if d.managedBy.Given? {
        staff := staff.(managedBy := d.managedBy.value);
      }
      if d.supportedBy.Malformed? {
        return Failed(Invalid);
      }
      if d.supportedBy.Given? {
        staff := staff.(supportedBy := d.supportedBy.value);
      }
      match d.bracketType {
        case Absent => return Done;
        case Malformed => return Failed(Invalid);
        case Given(value) =>
          staff := staff.(bracketType := value);
          return Done;
      }
    }

    method UpdateLimits(d: Details) returns (outcome: Outcome)
      modifies this
      ensures (State(), outcome) == LimitsUpdated(old(State()), d)
    {
      outcome := UpdateCapacity(d);
      if outcome == Done {
        outcome := UpdateDates(d);
        if outcome == Done {
          outcome := UpdateStaff(d);
        }
      }
    }

    /** Field by field; a failure leaves the fields before it changed. */
    method UpdateDetails(d: Details) returns (outcome: Outcome)
      modifies this
      ensures (State(), outcome) == DetailsUpdated(old(State()), d)
    {
      if d.name.Some? {
        name := d.name.value;
      }
      if d.gameId.Some? {
        gameId := d.gameId.value;
      }
      outcome := UpdateFee(d);
      if outcome == Done {
        outcome := UpdatePrize(d);
        if outcome == Done {
          outcome := UpdateLimits(d);
        }
      }
    }
  }
}
