/** What tournaments keep over every serial run of the registration and administration use cases. */
module RegistrationLaws {
  import opened Common
  import opened Tournaments
  import opened Registration
  import Ledger

  // ---------- the counter agrees with the participants ----------

  /** The rows are distinct, and the counter stays within a capacity above 1. */
  ghost predicate Fits(e: Entry) {
    && Distinct(e.participants)
    && e.tournament.currentParticipants <= e.tournament.maxParticipants
    && e.tournament.maxParticipants > 1
  }

  /** The rows that the counter does not know of. */
  function Drift(e: Entry): int {
    |e.participants| - e.tournament.currentParticipants
  }

  ghost predicate AllFit(s: World) {
    forall id :: id in s.entries ==> Fits(s.entries[id])
  }

  /** Whether or not the update throws, the entity in memory keeps its counter, its status and a capacity that fits. */
  lemma PartialUpdateFits(t: TournamentState, d: Details)
    requires 0 <= t.currentParticipants <= t.maxParticipants && t.maxParticipants > 1
    ensures var after := DetailsUpdated(t, d).0;
            && after.currentParticipants == t.currentParticipants && after.status == t.status
            && after.currentParticipants <= after.maxParticipants && after.maxParticipants > 1
  {
  }

  /** The update goes through exactly when every field that is given is acceptable, the dates taken together. */
  lemma UpdateSucceedsIff(t: TournamentState, d: Details)
    ensures DetailsUpdated(t, d).1 == Done <==>
            && (d.entryFee.Some? ==> d.entryFee.value >= 0) && (d.prizePool.Some? ==> d.prizePool.value >= 0)
            && !d.entryFeeType.Malformed? && !d.prizeType.Malformed? && !d.bracketType.Malformed?
            && !d.managedBy.Malformed? && !d.supportedBy.Malformed?
            && (d.maxParticipants.Some? ==>
                  d.maxParticipants.value > 1 && d.maxParticipants.value >= t.currentParticipants)
            && !EndsBeforeStart(DatesUpdated(t.dates, d).0)
  {
  }

  function Pick<T>(field: Field<T>, otherwise: T): T {
    if field.Given? then field.value else otherwise
  }

  function PickSome<T>(field: Option<T>, otherwise: T): T {
    if field.Some? then field.value else otherwise
  }

  /** When it goes through, the fields that are given have the given values and all others the old ones. */
  lemma UpdateSetsWhatIsGiven(t: TournamentState, d: Details)
    requires DetailsUpdated(t, d).1 == Done
    ensures DetailsUpdated(t, d).0 == TournamentState(
              PickSome(d.name, t.name), PickSome(d.gameId, t.gameId), t.status,
              Terms(PickSome(d.entryFee, t.terms.entryFee), Pick(d.entryFeeType, t.terms.entryFeeType),
                    PickSome(d.prizePool, t.terms.prizePool), Pick(d.prizeType, t.terms.prizeType)),
              PickSome(d.maxParticipants, t.maxParticipants), t.currentParticipants,
              Dates(PickSome(d.startDate, t.dates.startDate), PickSome(d.endDate, t.dates.endDate)),
              Staff(PickSome(d.organizerId, t.staff.organizerId), Pick(d.managedBy, t.staff.managedBy),
                    Pick(d.supportedBy, t.staff.supportedBy), Pick(d.bracketType, t.staff.bracketType)))
  {
  }

  /** A record that is updated can be loaded again, so the answer to an update never fails after the fact. */
  lemma UpdateKeepsLoads(t: TournamentState, d: Details)
    requires Loads(t) && DetailsUpdated(t, d).1 == Done
    ensures Loads(DetailsUpdated(t, d).0)
  {
  }

  /** The first check of the update that fails, numbered by the fields that are assigned before it; 11 if none does. */
  function FailsAt(t: TournamentState, d: Details): nat {
    if d.entryFee.Some? && d.entryFee.value < 0 then 1
    else if d.entryFeeType.Malformed? then 2
    else if d.prizePool.Some? && d.prizePool.value < 0 then 3
    else if d.prizeType.Malformed? then 4
    else if d.maxParticipants.Some?
            && (d.maxParticipants.value <= 1 || d.maxParticipants.value < t.currentParticipants) then 5
    else if EndsBeforeStart(DatesUpdated(t.dates, d).0) then 7
    else if d.managedBy.Malformed? then 8
    else if d.supportedBy.Malformed? then 9
    else if d.bracketType.Malformed? then 10
    else 11
  }

  /** The update gives the k-th field, in the order of assignment, a value it does not have yet. */
  predicate Touches(t: TournamentState, d: Details, k: nat) {
    match k
    case 0 => (d.name.Some? && d.name.value != t.name) || (d.gameId.Some? && d.gameId.value != t.gameId)
    case 1 => d.entryFee.Some? && d.entryFee.value != t.terms.entryFee
    case 2 => d.entryFeeType.Given? && d.entryFeeType.value != t.terms.entryFeeType
    case 3 => d.prizePool.Some? && d.prizePool.value != t.terms.prizePool
    case 4 => d.prizeType.Given? && d.prizeType.value != t.terms.prizeType
    case 5 => d.maxParticipants.Some? && d.maxParticipants.value != t.maxParticipants
    case 6 =>
      || (d.startDate.Some? && d.startDate.value != t.dates.startDate)
      || (d.endDate.Some? && d.endDate.value != t.dates.endDate)
    case 7 => d.organizerId.Some? && d.organizerId.value != t.staff.organizerId
    case 8 => d.managedBy.Given? && d.managedBy.value != t.staff.managedBy
    case 9 => d.supportedBy.Given? && d.supportedBy.value != t.staff.supportedBy
    case 10 => d.bracketType.Given? && d.bracketType.value != t.staff.bracketType
    case _ => false
  }

  /** Some field before the n-th is touched. */
  predicate TouchesBelow(t: TournamentState, d: Details, n: nat) {
    n > 0 && (TouchesBelow(t, d, n - 1) || Touches(t, d, n - 1))
  }

  lemma TouchesList(t: TournamentState, d: Details)
    ensures TouchesBelow(t, d, 1) <==> Touches(t, d, 0)
    ensures TouchesBelow(t, d, 2) <==> TouchesBelow(t, d, 1) || Touches(t, d, 1)
    ensures TouchesBelow(t, d, 3) <==> TouchesBelow(t, d, 2) || Touches(t, d, 2)
    ensures TouchesBelow(t, d, 4) <==> TouchesBelow(t, d, 3) || Touches(t, d, 3)
    ensures TouchesBelow(t, d, 5) <==> TouchesBelow(t, d, 4) || Touches(t, d, 4)
    ensures TouchesBelow(t, d, 7) <==> TouchesBelow(t, d, 5) || Touches(t, d, 5) || Touches(t, d, 6)
    ensures TouchesBelow(t, d, 8) <==> TouchesBelow(t, d, 7) || Touches(t, d, 7)
    ensures TouchesBelow(t, d, 9) <==> TouchesBelow(t, d, 8) || Touches(t, d, 8)
    ensures TouchesBelow(t, d, 10) <==> TouchesBelow(t, d, 9) || Touches(t, d, 9)
    ensures TouchesBelow(t, d, 11) <==> TouchesBelow(t, d, 10) || Touches(t, d, 10)
  {
  }

  lemma FeesChangeIff(t: TournamentState, d: Details)
    ensures FeeUpdated(t.terms, d).1 == Done <==> FailsAt(t, d) >= 3
    ensures FeeUpdated(t.terms, d).0 != t.terms <==>
            (FailsAt(t, d) >= 2 && Touches(t, d, 1)) || (FailsAt(t, d) >= 3 && Touches(t, d, 2))
  {
  }

  lemma PrizesChangeIff(t: TournamentState, terms: Terms, d: Details)
    requires FailsAt(t, d) >= 3 && terms.prizePool == t.terms.prizePool && terms.prizeType == t.terms.prizeType
    ensures PrizeUpdated(terms, d).1 == Done <==> FailsAt(t, d) >= 5
    ensures PrizeUpdated(terms, d).0 != terms <==>
            (FailsAt(t, d) >= 4 && Touches(t, d, 3)) || (FailsAt(t, d) >= 5 && Touches(t, d, 4))
    ensures PrizeUpdated(terms, d).0.entryFee == terms.entryFee
    ensures PrizeUpdated(terms, d).0.entryFeeType == terms.entryFeeType
  {
  }

  lemma StaffChangesIff(t: TournamentState, d: Details)
    requires FailsAt(t, d) >= 8
    ensures StaffUpdated(t.staff, d).1 == Done <==> FailsAt(t, d) == 11
    ensures StaffUpdated(t.staff, d).0 != t.staff <==>
            || Touches(t, d, 7) || (FailsAt(t, d) >= 9 && Touches(t, d, 8))
            || (FailsAt(t, d) >= 10 && Touches(t, d, 9)) || (FailsAt(t, d) == 11 && Touches(t, d, 10))
  {
  }

  /** The limits are updated on an entity whose capacity, dates and staff are still those of t. */
  lemma LimitsChangeIff(t: TournamentState, u: TournamentState, d: Details)
    requires FailsAt(t, d) >= 5
    requires u.maxParticipants == t.maxParticipants && u.currentParticipants == t.currentParticipants
    requires u.dates == t.dates && u.staff == t.staff
    ensures LimitsUpdated(u, d).1 == Done <==> FailsAt(t, d) == 11
    ensures LimitsUpdated(u, d).0 != u <==>
            || (FailsAt(t, d) >= 6 && (Touches(t, d, 5) || Touches(t, d, 6)))
            || (FailsAt(t, d) >= 8 && StaffUpdated(t.staff, d).0 != t.staff)
    ensures LimitsUpdated(u, d).0.terms == u.terms && LimitsUpdated(u, d).0.name == u.name
    ensures LimitsUpdated(u, d).0.gameId == u.gameId
  {
    if FailsAt(t, d) >= 8 {
      StaffChangesIff(t, d);
    }
  }

  /**
   Whether it throws or not, the update changes the entity in memory exactly when it touches a field
   before the first failing check.
   */
  lemma UpdateChangesIff(t: TournamentState, d: Details)
    ensures DetailsUpdated(t, d).1 == Done <==> FailsAt(t, d) == 11
    ensures DetailsUpdated(t, d).0 != t <==> TouchesBelow(t, d, FailsAt(t, d))
  {
    TouchesList(t, d);
    FeesChangeIff(t, d);
    var fees := FeeUpdated(t.terms, d).0;
    if FailsAt(t, d) >= 3 {
      PrizesChangeIff(t, fees, d);
      if FailsAt(t, d) >= 5 {
        LimitsChangeIff(t, Renamed(t, d).(terms := PrizeUpdated(fees, d).0), d);
      }
    }
    if FailsAt(t, d) >= 8 {
      StaffChangesIff(t, d);
    }
  }

  lemma WithoutStaysDistinct(rows: seq<Id>, user: Id)
    requires Distinct(rows) && user in rows
    ensures Distinct(WithoutUser(rows, user)) && |WithoutUser(rows, user)| == |rows| - 1
  {
    var i, rest := IndexOf(rows, user), WithoutUser(rows, user);
    forall j, k | 0 <= j < k < |rest|
      ensures rest[j] != rest[k]
    {
      assert rest[j] == rows[if j < i then j else j + 1] && rest[k] == rows[if k < i then k else k + 1];
    }
  }

  /** Removing a participant removes that one and nobody else. */
  lemma WithoutOnlyThat(rows: seq<Id>, user: Id, other: Id)
    requires Distinct(rows) && user in rows
    ensures other in WithoutUser(rows, user) <==> other in rows && other != user
  {
    var i, rest := IndexOf(rows, user), WithoutUser(rows, user);
    if k :| 0 <= k < |rest| && rest[k] == other {
      assert rest[k] == rows[if k < i then k else k + 1];
    }
    if k :| 0 <= k < |rows| && rows[k] == other && other != user {
      assert rest[if k < i then k else k - 1] == rows[k];
    }
  }

  /** The registration passes every check, its fee included, and gets to its writes. */
  predicate GetsToWrite(s: World, user: Id, id: Id, hasGameProfile: bool) {
    && Load(s, id).Ok? && CanRegister(s.entries[id].tournament)
    && user !in s.entries[id].participants && hasGameProfile
    && Ledger.EntryFeeCharged(s.books, user, s.entries[id].tournament.terms.entryFee).1 == Done
  }

  /** The step is a registration whose row is stored and whose count fails. */
  predicate MissesCount(s: World, e: Event, id: Id) {
    e.Register? && e.tournament == id && e.fault == CountFails && GetsToWrite(s, e.user, id, e.hasGameProfile)
  }

  lemma StepFits(s: World, e: Event)
    requires AllFit(s)
    ensures AllFit(Step(s, e))
  {
    match e
    case Register(user, id, hasGameProfile, fault) =>
    case RemoveParticipant(id, user, userExists) =>
      if Load(s, id).Ok? && user in s.entries[id].participants {
        WithoutStaysDistinct(s.entries[id].participants, user);
      }
    case ChangeStatus(id, newStatus, now) =>
    case UpdateDetails(id, details, gameExists) =>
      if Load(s, id).Ok? {
        PartialUpdateFits(s.entries[id].tournament, details);
      }
  }

  /** No step but a missed count lets counter and rows drift apart, and that one by exactly one. */
  lemma StepDrifts(s: World, e: Event, id: Id)
    requires id in s.entries
    ensures id in Step(s, e).entries
    ensures Drift(Step(s, e).entries[id]) == Drift(s.entries[id]) + if MissesCount(s, e, id) then 1 else 0
  {
    if e.UpdateDetails? && e.tournament == id && Load(s, id).Ok? {
      PartialUpdateFits(s.entries[id].tournament, e.details);
    }
  }

  function MissedCounts(s: World, events: seq<Event>, id: Id): nat
    decreases |events|
  {
    if events == [] then 0
    else (if MissesCount(s, events[0], id) then 1 else 0) + MissedCounts(Step(s, events[0]), events[1..], id)
  }

  /** Over every run the rows are ahead of the counter by the number of counts that failed. */
  lemma {:induction false} RunsDrift(s: World, events: seq<Event>, id: Id)
    requires id in s.entries
    ensures id in Run(s, events).entries
    ensures Drift(Run(s, events).entries[id]) == Drift(s.entries[id]) + MissedCounts(s, events, id)
    decreases |events|
  {
    if events != [] {
      StepDrifts(s, events[0], id);
      RunsDrift(Step(s, events[0]), events[1..], id);
    }
  }

  lemma {:induction false} RunsFit(s: World, events: seq<Event>)
    requires AllFit(s)
    ensures AllFit(Run(s, events))
    decreases |events|
  {
    if events != [] {
      StepFits(s, events[0]);
      RunsFit(Step(s, events[0]), events[1..]);
    }
  }

  ghost predicate MissedAt(s: World, events: seq<Event>, id: Id, i: nat) {
    i < |events| && MissesCount(Run(s, events[..i]), events[i], id)
  }

  lemma {:induction false} MissedCountsIff(s: World, events: seq<Event>, id: Id)
    ensures MissedCounts(s, events, id) > 0 <==> exists i :: MissedAt(s, events, id, i)
    decreases |events|
  {
    if events != [] {
      var next := Step(s, events[0]);
      MissedCountsIff(next, events[1..], id);
      assert events[..0] == [];
      forall i | 0 < i < |events|
        ensures MissedAt(s, events, id, i) <==> MissedAt(next, events[1..], id, i - 1)
      {
        assert events[..i][1..] == events[1..][..i - 1];
      }
      if MissesCount(s, events[0], id) {
        assert MissedAt(s, events, id, 0);
      } else if MissedCounts(next, events[1..], id) > 0 {
        var i: nat :| MissedAt(next, events[1..], id, i);
        assert MissedAt(s, events, id, i + 1);
      }
    }
  }

  /**
   On every run from a counter that agrees with its rows: the counter equals the number of distinct
   participants, and so never exceeds the capacity, exactly when no registration of the run failed to
   count its row.
   */
  lemma CounterAgreesIff(s: World, events: seq<Event>, id: Id)
    requires AllFit(s) && id in s.entries && Drift(s.entries[id]) == 0
    ensures id in Run(s, events).entries
    ensures var e := Run(s, events).entries[id];
            && Fits(e)
            && (e.tournament.currentParticipants == |e.participants| <==> !exists i :: MissedAt(s, events, id, i))
            && |e.participants| <= e.tournament.maxParticipants + MissedCounts(s, events, id)
  {
    RunsDrift(s, events, id);
    RunsFit(s, events);
    MissedCountsIff(s, events, id);
  }

  // ---------- the participants of a running or finished tournament ----------

  /** A step that changes who participates finds the tournament neither running nor finished. */
  lemma FrozenKeepsParticipants(s: World, e: Event, id: Id)
    requires id in s.entries && Frozen(s.entries[id].tournament.status)
    ensures id in Step(s, e).entries && Step(s, e).entries[id].participants == s.entries[id].participants
  {
  }

  function After(s: World, events: seq<Event>, n: nat): World
    requires n <= |events|
  {
    if n == 0 then s else Step(After(s, events, n - 1), events[n - 1])
  }

  lemma {:induction false} AfterAllIsRun(s: World, events: seq<Event>)
    ensures After(s, events, |events|) == Run(s, events)
    decreases |events|
  {
    if events != [] {
      AfterAllIsRun(Step(s, events[0]), events[1..]);
      AfterSuffix(s, events, |events| - 1);
    }
  }

  lemma {:induction false} AfterSuffix(s: World, events: seq<Event>, n: nat)
    requires events != [] && n < |events|
    ensures After(Step(s, events[0]), events[1..], n) == After(s, events, n + 1)
  {
    if n > 0 {
      AfterSuffix(s, events, n - 1);
    }
  }

  /** Along any stretch of a run in which the tournament is running or finished, its participants stay the same. */
  lemma {:induction false} FrozenStretch(s: World, events: seq<Event>, id: Id, i: nat, j: nat)
    requires i <= j <= |events|
    requires forall m :: i <= m < j ==>
               id in After(s, events, m).entries && Frozen(After(s, events, m).entries[id].tournament.status)
    requires id in After(s, events, i).entries
    ensures id in After(s, events, j).entries
    ensures After(s, events, j).entries[id].participants == After(s, events, i).entries[id].participants
    decreases j
  {
    if i < j {
      FrozenStretch(s, events, id, i, j - 1);
      FrozenKeepsParticipants(After(s, events, j - 1), events[j - 1], id);
    }
  }

  // ---------- how a tournament gets to be completed ----------

  function StatusAt(s: World, events: seq<Event>, id: Id, n: nat): Option<Status>
    requires n <= |events|
  {
    var w := After(s, events, n);
    if id in w.entries then Some(w.entries[id].tournament.status) else None
  }

  predicate Idle(status: Option<Status>) {
    status == Some(Pending) || status == Some(Upcoming)
  }

  /** The moves between statuses, staying put included. */
  predicate CanMove(was: Status, becomes: Status) {
    becomes == was ||
    match becomes
    case Pending => was != Ongoing && was != RegistrationOpen
    case Upcoming => was == Pending
    case RegistrationOpen => was == Pending || was == Upcoming
    case RegistrationClosed => was == RegistrationOpen
    case Ongoing => was == RegistrationOpen || was == RegistrationClosed
    case Completed => was == Ongoing
    case Canceled => was != Completed
  }

  lemma StatusMoves(s: World, e: Event, id: Id)
    requires id in s.entries
    ensures id in Step(s, e).entries
    ensures CanMove(s.entries[id].tournament.status, Step(s, e).entries[id].tournament.status)
  {
    if e.UpdateDetails? && e.tournament == id && Load(s, id).Ok? {
      PartialUpdateFits(s.entries[id].tournament, e.details);
    }
  }

  ghost predicate Leads(s: World, e: Event, id: Id, becomes: Status) {
    id in Step(s, e).entries && Step(s, e).entries[id].tournament.status == becomes
  }

  /** A loadable tournament can be brought from one status to another in one step exactly when the move is listed. */
  lemma StatusMovesIff(s: World, id: Id, becomes: Status)
    requires Load(s, id).Ok?
    ensures (exists e :: Leads(s, e, id, becomes)) <==> CanMove(s.entries[id].tournament.status, becomes)
  {
    if e :| Leads(s, e, id, becomes) {
      StatusMoves(s, e, id);
    }
    if CanMove(s.entries[id].tournament.status, becomes) {
      var stay := RemoveParticipant(id, 0, false);
      var move := ChangeStatus(id, becomes, 0);
      assert Leads(s, if s.entries[id].tournament.status == becomes then stay else move, id, becomes);
    }
  }

  /** Registration was open at j, and the tournament has not been idle again since i, just before. */
  ghost predicate OpenedSince(s: World, events: seq<Event>, id: Id, i: nat, j: nat, n: nat) {
    && i < j <= n <= |events|
    && Idle(StatusAt(s, events, id, i)) && StatusAt(s, events, id, j) == Some(RegistrationOpen)
    && forall m :: i < m <= n ==> !Idle(StatusAt(s, events, id, m))
  }

  ghost predicate StartedSince(s: World, events: seq<Event>, id: Id, i: nat, j: nat, k: nat, n: nat) {
    OpenedSince(s, events, id, i, j, n) && j < k <= n && StatusAt(s, events, id, k) == Some(Ongoing)
  }

  ghost predicate HasOpened(s: World, events: seq<Event>, id: Id, n: nat) {
    exists i, j :: OpenedSince(s, events, id, i, j, n)
  }

  ghost predicate HasStarted(s: World, events: seq<Event>, id: Id, n: nat) {
    exists i, j, k :: StartedSince(s, events, id, i, j, k, n)
  }

  ghost predicate PathExplains(s: World, events: seq<Event>, id: Id, n: nat)
    requires n <= |events|
  {
    match StatusAt(s, events, id, n)
    case None => false
    case Some(status) =>
      && (status == RegistrationOpen || status == RegistrationClosed ==> HasOpened(s, events, id, n))
      && (status == Ongoing || status == Completed ==> HasStarted(s, events, id, n))
  }

  /** A step that does not make the tournament idle extends what has been passed. */
  lemma PathExtends(s: World, events: seq<Event>, id: Id, n: nat)
    requires n < |events| && !Idle(StatusAt(s, events, id, n + 1))
    ensures HasOpened(s, events, id, n) ==> HasOpened(s, events, id, n + 1)
    ensures HasStarted(s, events, id, n) ==> HasStarted(s, events, id, n + 1)
  {
    if HasOpened(s, events, id, n) {
      var i, j :| OpenedSince(s, events, id, i, j, n);
      assert OpenedSince(s, events, id, i, j, n + 1);
    }
    if HasStarted(s, events, id, n) {
      var i, j, k :| StartedSince(s, events, id, i, j, k, n);
      assert StartedSince(s, events, id, i, j, k, n + 1);
    }
  }

  lemma {:induction false} EveryPathExplains(s: World, events: seq<Event>, id: Id, n: nat)
    requires id in s.entries && Idle(StatusAt(s, events, id, 0)) && n <= |events|
    ensures PathExplains(s, events, id, n)
  {
    if n > 0 {
      EveryPathExplains(s, events, id, n - 1);
      StatusMoves(After(s, events, n - 1), events[n - 1], id);
      var was, becomes := StatusAt(s, events, id, n - 1), StatusAt(s, events, id, n);
      if !Idle(becomes) {
        PathExtends(s, events, id, n - 1);
        if Idle(was) && becomes == Some(RegistrationOpen) {
          assert OpenedSince(s, events, id, n - 1, n, n);
        } else if becomes == Some(Ongoing) && was != becomes {
          var i, j :| OpenedSince(s, events, id, i, j, n - 1);
          assert StartedSince(s, events, id, i, j, n, n);
        }
      }
    }
  }

  /**
   A tournament that starts out PENDING or UPCOMING and is COMPLETED at some point of a run has, since
   it was last PENDING or UPCOMING, had its registration open and after that been ONGOING.
   */
  lemma CompletedWasOpenThenOngoing(s: World, events: seq<Event>, id: Id, n: nat)
    requires id in s.entries && Idle(StatusAt(s, events, id, 0)) && n <= |events|
    requires StatusAt(s, events, id, n) == Some(Completed)
    ensures exists i, j, k :: StartedSince(s, events, id, i, j, k, n)
  {
    EveryPathExplains(s, events, id, n);
  }

  /** Completed and canceled tournaments are not final: an administrator can return them to PENDING. */
  lemma CompletedCanReturn(s: World, id: Id, now: int)
    requires Load(s, id).Ok?
    requires s.entries[id].tournament.status == Completed || s.entries[id].tournament.status == Canceled
    ensures Step(s, ChangeStatus(id, Pending, now)).entries[id].tournament.status == Pending
  {
  }

  // ---------- a record that can no longer be loaded ----------

  /**
   Completing stores an end date that the entity's constructor may refuse: the completed record can be
   loaded again, and the request is answered without an error, exactly when the tournament had an end
   date already or its start date has passed.
   */
  lemma CompletionLoadsIff(s: World, id: Id, now: int)
    requires Load(s, id).Ok? && s.entries[id].tournament.status == Ongoing
    ensures var (after, reply) := StatusStored(s, id, Completed, now);
            var dates := s.entries[id].tournament.dates;
            && id in after.entries && after.entries[id].tournament.status == Completed
            && (Load(after, id).Ok? <==> dates.endDate.Some? || now >= dates.startDate)
            && (reply == Done <==> dates.endDate.Some? || now >= dates.startDate)
  {
  }

  /** A record that does not load is out of reach of every use case, forever. */
  lemma {:induction false} UnloadableStays(s: World, events: seq<Event>, id: Id)
    requires id in s.entries && !Loads(s.entries[id].tournament)
    ensures id in Run(s, events).entries && Run(s, events).entries[id] == s.entries[id]
    decreases |events|
  {
    if events != [] {
      UnloadableStays(Step(s, events[0]), events[1..], id);
    }
  }

  /** A completion before the start, without an end date. */
  predicate CompletesEarly(s: World, e: Event, id: Id)
    requires id in s.entries
  {
    var t := s.entries[id].tournament;
    && e.ChangeStatus? && e.tournament == id && e.newStatus == Completed
    && t.status == Ongoing && t.dates.endDate.None? && e.now < t.dates.startDate
  }

  /** The removal of a row that the counter does not know of. */
  predicate CountsBelowZero(s: World, e: Event, id: Id)
    requires id in s.entries
  {
    var t := s.entries[id].tournament;
    && e.RemoveParticipant? && e.tournament == id && e.userExists && e.user in s.entries[id].participants
    && !Frozen(t.status) && t.currentParticipants == 0
  }

  /** Exactly two kinds of step make a loadable record unloadable. */
  lemma UnloadsIff(s: World, e: Event, id: Id)
    requires id in s.entries && Loads(s.entries[id].tournament)
    ensures id in Step(s, e).entries
    ensures !Loads(Step(s, e).entries[id].tournament) <==> CompletesEarly(s, e, id) || CountsBelowZero(s, e, id)
  {
    if e.UpdateDetails? && e.tournament == id && DetailsUpdated(s.entries[id].tournament, e.details).1 == Done {
      UpdateKeepsLoads(s.entries[id].tournament, e.details);
    }
  }

  // ---------- the three writes of a registration ----------

  /** Everything a registration is meant to change. */
  function Whole(s: World, user: Id, id: Id): World
    requires id in s.entries
  {
    World(s.entries[id := CountedUp(RowAdded(s.entries[id], user))],
          Ledger.EntryFeeCharged(s.books, user, s.entries[id].tournament.terms.entryFee).0)
  }

  /**
   Registering changes nothing or everything, except when the row or the count fails after what is
   already written.
   */
  lemma RegistrationIsWholeIff(s: World, user: Id, id: Id, hasGameProfile: bool, fault: Fault)
    requires id in s.entries
    ensures var after := Registered(s, user, id, hasGameProfile, fault).0;
            var fee := s.entries[id].tournament.terms.entryFee;
            (after == s || after == Whole(s, user, id)) <==>
            !(GetsToWrite(s, user, id, hasGameProfile) && (fault == CountFails || (fault == RowFails && fee > 0)))
  {
    var e, whole, after := s.entries[id], Whole(s, user, id), Registered(s, user, id, hasGameProfile, fault).0;
    var fee := e.tournament.terms.entryFee;
    assert whole.entries[id] == CountedUp(RowAdded(e, user));
    assert |RowAdded(e, user).participants| == |e.participants| + 1;
    if GetsToWrite(s, user, id, hasGameProfile) && fault == CountFails {
      assert after.entries[id] == RowAdded(e, user);
    }
    if GetsToWrite(s, user, id, hasGameProfile) && fee > 0 {
      assert Ledger.EntryFeeCharged(s.books, user, fee).0.wallets[user] != s.books.wallets[user];
    }
  }

  /**
   A fee is taken without a row exactly when the registration gets to its writes, costs something, and
   fails to store the row.
   */
  lemma FeeWithoutRowIff(s: World, user: Id, id: Id, hasGameProfile: bool, fault: Fault)
    requires id in s.entries
    ensures var after := Registered(s, user, id, hasGameProfile, fault).0;
            (after.books != s.books && id in after.entries
              && after.entries[id].participants == s.entries[id].participants) <==>
            GetsToWrite(s, user, id, hasGameProfile) && s.entries[id].tournament.terms.entryFee > 0 && fault == RowFails
  {
    var fee := s.entries[id].tournament.terms.entryFee;
    if GetsToWrite(s, user, id, hasGameProfile) && fee > 0 {
      assert Ledger.EntryFeeCharged(s.books, user, fee).0.wallets[user] != s.books.wallets[user];
    }
  }
}
