/**
 The use cases that change a tournament on record: registration with its entry fee, removal of a
 participant, the administrator's status changes and the update of details.
 */
module Registration {
  import opened Common
  import opened Tournaments
  import Ledger

  /** A tournament with the rows of its participants, one row per registration. */
  datatype Entry = Entry(tournament: TournamentState, participants: seq<Id>)

  datatype World = World(entries: map<Id, Entry>, books: Ledger.Books)

  /** Registering makes three writes of its own, outside any database transaction: which of them throws, if any. */
  datatype Fault = NoFault | DebitFails | RowFails | CountFails

  datatype Event =
    | Register(user: Id, tournament: Id, hasGameProfile: bool, fault: Fault)
    | RemoveParticipant(tournament: Id, user: Id, userExists: bool)
    | ChangeStatus(tournament: Id, newStatus: Status, now: int)
    | UpdateDetails(tournament: Id, details: Details, gameExists: bool)

  /** The record, unless it is missing or fails the entity's own checks. */
  function Load(s: World, id: Id): (r: Result<TournamentState>)
    ensures r.Ok? ==> id in s.entries && r.value == s.entries[id].tournament && Loads(r.value)
  {
    if id !in s.entries then Err(NotFound)
    else if !Loads(s.entries[id].tournament) then Err(Internal)
    else Ok(s.entries[id].tournament)
  }

  function RowAdded(e: Entry, user: Id): Entry {
    e.(participants := e.participants + [user])
  }

  function CountedUp(e: Entry): Entry {
    e.(tournament := e.tournament.(currentParticipants := e.tournament.currentParticipants + 1))
  }

  /** The three writes, up to the one that throws. */
  function Written(s: World, user: Id, id: Id, fault: Fault): (World, Outcome)
    requires id in s.entries
  {
    var (fee, entry) := (s.entries[id].tournament.terms.entryFee, s.entries[id]);
    var (books, paid) := Ledger.EntryFeeCharged(s.books, user, fee);
    if paid != Done then (s, paid)
    else
      match fault
      case DebitFails => if fee > 0 then (s, Failed(Internal))
                         else (World(s.entries[id := CountedUp(RowAdded(entry, user))], books), Done)
      case RowFails => (s.(books := books), Failed(Internal))
      case CountFails => (World(s.entries[id := RowAdded(entry, user)], books), Failed(Internal))
      case NoFault => (World(s.entries[id := CountedUp(RowAdded(entry, user))], books), Done)
  }

  function Registered(s: World, user: Id, id: Id, hasGameProfile: bool, fault: Fault): (World, Outcome) {
    var loaded := Load(s, id);
    if loaded.Err? then (s, Failed(loaded.error))
    else if !CanRegister(loaded.value) then (s, Failed(Forbidden))
    else if user in s.entries[id].participants then (s, Failed(Conflict))
    else if !hasGameProfile then (s, Failed(BadRequest))
    else Written(s, user, id, fault)
  }

  function IndexOf(rows: seq<Id>, user: Id): (i: nat)
    requires user in rows
    ensures i < |rows| && rows[i] == user
  {
    if rows[0] == user then 0 else 1 + IndexOf(rows[1..], user)
  }

  function WithoutUser(rows: seq<Id>, user: Id): seq<Id>
    requires user in rows
  {
    Without(rows, IndexOf(rows, user))
  }

  /** Closed to changes of the participant list. */
  predicate Frozen(status: Status) {
    status == Ongoing || status == Completed || status == Canceled
  }

  function Removed(s: World, id: Id, user: Id, userExists: bool): (World, Outcome) {
    var loaded := Load(s, id);
    if loaded.Err? then (s, Failed(loaded.error))
    else if !userExists || user !in s.entries[id].participants then (s, Failed(NotFound))
    else if Frozen(loaded.value.status) then (s, Failed(BadRequest))
    else
      var t := loaded.value;
      var entry := Entry(t.(currentParticipants := t.currentParticipants - 1),
                         WithoutUser(s.entries[id].participants, user));
      (s.(entries := s.entries[id := entry]), Done)
  }

  /** What the administrator's action does to the loaded entity; the entity's own errors become bad requests. */
  function StatusChanged(t: TournamentState, newStatus: Status, now: int): (TournamentState, Outcome) {
    if newStatus == Pending && t.status == Ongoing then (t, Failed(BadRequest))
    else
      var (changed, outcome) :=
        match newStatus
        case RegistrationOpen => RegistrationOpened(t)
        case RegistrationClosed => RegistrationClosedBy(t)
        case Ongoing => Started(t)
        case Completed => CompletedAt(t, now)
        case Canceled => CanceledBy(t)
        case Pending => if t.status != RegistrationOpen then (t.(status := Pending), Done) else (t, Failed(BadRequest))
        case Upcoming => if t.status == Pending then (t.(status := Upcoming), Done) else (t, Failed(BadRequest));
      (changed, if outcome == Done then Done else Failed(BadRequest))
  }

  /** The changed record is stored and then loaded again for the answer, which can fail after the fact. */
  function StatusStored(s: World, id: Id, newStatus: Status, now: int): (World, Outcome) {
    var loaded := Load(s, id);
    if loaded.Err? then (s, Failed(loaded.error))
    else
      var (changed, outcome) := StatusChanged(loaded.value, newStatus, now);
      if outcome != Done then (s, outcome)
      else
        (s.(entries := s.entries[id := s.entries[id].(tournament := changed)]),
         if Loads(changed) then Done else Failed(Internal))
  }

  /** The entity is stored only when all of its update went through. */
  function DetailsStored(s: World, id: Id, d: Details, gameExists: bool): (World, Outcome) {
    var loaded := Load(s, id);
    if loaded.Err? then (s, Failed(loaded.error))
    else if d.gameId.Some? && d.gameId.value != loaded.value.gameId && !gameExists then (s, Failed(BadRequest))
    else
      var (updated, outcome) := DetailsUpdated(loaded.value, d);
      if outcome != Done then (s, Failed(BadRequest))
      else (s.(entries := s.entries[id := s.entries[id].(tournament := updated)]), Done)
  }

  function Step(s: World, e: Event): World {
    match e
    case Register(user, id, hasGameProfile, fault) => Registered(s, user, id, hasGameProfile, fault).0
    case RemoveParticipant(id, user, userExists) => Removed(s, id, user, userExists).0
    case ChangeStatus(id, newStatus, now) => StatusStored(s, id, newStatus, now).0
    case UpdateDetails(id, details, gameExists) => DetailsStored(s, id, details, gameExists).0
  }

  function Run(s: World, events: seq<Event>): World
    decreases |events|
  {
    if events == [] then s else Run(Step(s, events[0]), events[1..])
  }

  // ---------- the use cases ----------

  class TournamentOffice {
    var entries: map<Id, Entry>
    const ledger: Ledger.Repositories

    function State(): World
      reads this, ledger
    {
      World(entries, ledger.State())
    }

    constructor (entries: map<Id, Entry>, ledger: Ledger.Repositories)
      ensures this.entries == entries && this.ledger == ledger
    {
      this.entries, this.ledger := entries, ledger;
    }

    method FindById(id: Id) returns (r: Result<Tournament>)
      ensures Load(State(), id).Err? ==> r == Err(Load(State(), id).error)
      ensures Load(State(), id).Ok? ==> r.Ok? && fresh(r.value) && r.value.State() == Load(State(), id).value
    {
      if id !in entries {
        return Err(NotFound);
      }
      r := Tournament.FromPersistence(entries[id].tournament);
    }

    method Register(user: Id, id: Id, hasGameProfile: bool, fault: Fault) returns (outcome: Outcome)
      modifies this`entries, ledger`wallets
      ensures (State(), outcome) == Registered(old(State()), user, id, hasGameProfile, fault)
    {
      var found := FindById(id);
      if found.Err? {
        return Failed(found.error);
      }
      var tournament := found.value;
      if tournament.status != RegistrationOpen || tournament.currentParticipants >= tournament.maxParticipants {
        return Failed(Forbidden);
      }
      if user in entries[id].participants {
        return Failed(Conflict);
      }
      if !hasGameProfile {
        return Failed(BadRequest);
      }
      outcome := WriteRegistration(user, id, fault);
    }

    /** Debit, row, count: what was written before a failure stays written. */
    method WriteRegistration(user: Id, id: Id, fault: Fault) returns (outcome: Outcome)
      requires id in entries
      modifies this`entries, ledger`wallets
      ensures (State(), outcome) == Written(old(State()), user, id, fault)
    {
      var entryFee := entries[id].tournament.terms.entryFee;
      if entryFee > 0 {
        if user !in ledger.wallets || ledger.wallets[user] < entryFee {
          return Failed(Forbidden);
        }
        if fault == DebitFails {
          return Failed(Internal);
        }
        var _ := ledger.ChargeEntryFee(user, entryFee);
      }
      if fault == RowFails {
        return Failed(Internal);
      }
      CreateParticipant(user, id);
      if fault == CountFails {
        return Failed(Internal);
      }
      IncrementParticipantCount(id);
      assert entries == old(entries)[id := CountedUp(RowAdded(old(entries)[id], user))];
      return Done;
    }

    method CreateParticipant(user: Id, id: Id)
      requires id in entries
      modifies this`entries
      ensures entries == old(entries)[id := RowAdded(old(entries)[id], user)]
    {
      entries := entries[id := entries[id].(participants := entries[id].participants + [user])];
    }

    method IncrementParticipantCount(id: Id)
      requires id in entries
      modifies this`entries
      ensures entries == old(entries)[id := CountedUp(old(entries)[id])]
    {
      var t := entries[id].tournament;
      entries := entries[id := entries[id].(tournament := t.(currentParticipants := t.currentParticipants + 1))];
    }

    method RemoveParticipant(id: Id, user: Id, userExists: bool) returns (outcome: Outcome)
      modifies this`entries
      ensures (State(), outcome) == Removed(old(State()), id, user, userExists)
    {
      var found := FindById(id);
      if found.Err? {
        return Failed(found.error);
      }
      if !userExists {
        return Failed(NotFound);
      }
      if user !in entries[id].participants {
        return Failed(NotFound);
      }
      if found.value.status in {Ongoing, Completed, Canceled} {
        return Failed(BadRequest);
      }
      var t := entries[id].tournament;
      var rows := WithoutUser(entries[id].participants, user);
      entries := entries[id := Entry(t.(currentParticipants := t.currentParticipants - 1), rows)];
      return Done;
    }

    /** The switch over the new status, on the loaded entity. */
    method ApplyStatus(tournament: Tournament, newStatus: Status, now: int) returns (outcome: Outcome)
      modifies tournament
      ensures (tournament.State(), outcome) == StatusChanged(old(tournament.State()), newStatus, now)
    {
      if newStatus == Pending && tournament.status == Ongoing {
        return Failed(BadRequest);
      }
      match newStatus {
        case RegistrationOpen => outcome := tournament.OpenRegistration();
        case RegistrationClosed => outcome := tournament.CloseRegistration();
        case Ongoing => outcome := tournament.StartTournament();
        case Completed => outcome := tournament.CompleteTournament(now);
        case Canceled => outcome := tournament.CancelTournament();
        case Pending =>
          if tournament.status != RegistrationOpen {
            tournament.UpdateStatus(Pending);
            outcome := Done;
          } else {
            outcome := Failed(BadRequest);
          }
        case Upcoming =>
          if tournament.status == Pending {
            tournament.UpdateStatus(Upcoming);
            outcome := Done;
          } else {
            outcome := Failed(BadRequest);
          }
      }
      if outcome != Done {
        outcome := Failed(BadRequest);
      }
    }

    method ChangeStatus(id: Id, newStatus: Status, now: int) returns (outcome: Outcome)
      modifies this`entries
      ensures (State(), outcome) == StatusStored(old(State()), id, newStatus, now)
    {
      var found := FindById(id);
      if found.Err? {
        return Failed(found.error);
      }
      var tournament := found.value;
      outcome := ApplyStatus(tournament, newStatus, now);
      if outcome == Done {
        entries := entries[id := entries[id].(tournament := tournament.State())];
        var reloaded := FindById(id);
        if reloaded.Err? {
          return Failed(reloaded.error);
        }
      }
    }

    method UpdateDetails(id: Id, d: Details, gameExists: bool) returns (outcome: Outcome)
      modifies this`entries
      ensures (State(), outcome) == DetailsStored(old(State()), id, d, gameExists)
    {
      var found := FindById(id);
      if found.Err? {
        return Failed(found.error);
      }
      var tournament := found.value;
      if d.gameId.Some? && d.gameId.value != tournament.gameId && !gameExists {
        return Failed(BadRequest);
      }
      outcome := tournament.UpdateDetails(d);
      if outcome != Done {
        return Failed(BadRequest);
      }
      entries := entries[id := entries[id].(tournament := tournament.State())];
    }
  }
}
