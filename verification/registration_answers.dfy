/**
 What the tournament use cases answer and leave behind, told from the record alone: who can register,
 what an administrator's request does, and which part of a refused update stays.
 */
module RegistrationAnswers {
  import opened Common
  import opened Tournaments
  import opened Registration
  import opened RegistrationLaws
  import Ledger

  // ---------- loading ----------

  /** A record comes back exactly when its amounts are not negative, its capacity holds and its dates are in order. */
  lemma LoadIff(s: World, id: Id)
    ensures Load(s, id).Ok? <==>
            && id in s.entries
            && var t := s.entries[id].tournament;
               && t.terms.entryFee >= 0 && t.terms.prizePool >= 0 && t.maxParticipants >= 2
               && 0 <= t.currentParticipants <= t.maxParticipants
               && (t.dates.endDate.Some? ==> t.dates.startDate <= t.dates.endDate.value)
    ensures Load(s, id).Err? ==> Load(s, id).error == if id in s.entries then Internal else NotFound
  {
  }

  // ---------- registering ----------

  predicate Covers(s: World, user: Id, fee: int) {
    fee > 0 ==> user in s.books.wallets && s.books.wallets[user] >= fee
  }

  /** Registration is open and there is room. */
  predicate OpenWithRoom(t: TournamentState) {
    t.status == RegistrationOpen && t.currentParticipants < t.maxParticipants
  }

  /** What it takes to register, up to the first write. */
  predicate MayRegister(s: World, user: Id, id: Id, hasGameProfile: bool) {
    && Load(s, id).Ok?
    && OpenWithRoom(s.entries[id].tournament)
    && user !in s.entries[id].participants && hasGameProfile
    && Covers(s, user, s.entries[id].tournament.terms.entryFee)
  }

  lemma MayRegisterIff(s: World, user: Id, id: Id, hasGameProfile: bool)
    ensures GetsToWrite(s, user, id, hasGameProfile) <==> MayRegister(s, user, id, hasGameProfile)
  {
  }

  /** When nothing fails, registering succeeds exactly for those who may, and then pays, seats and counts them. */
  lemma RegisterSucceedsIff(s: World, user: Id, id: Id, hasGameProfile: bool)
    ensures var (after, r) := Registered(s, user, id, hasGameProfile, NoFault);
            && (r == Done <==> MayRegister(s, user, id, hasGameProfile))
            && (r != Done ==> after == s)
            && (r == Done ==>
                  && after.entries.Keys == s.entries.Keys
                  && after.entries[id].participants == s.entries[id].participants + [user]
                  && after.entries[id].tournament == s.entries[id].tournament.(
                       currentParticipants := s.entries[id].tournament.currentParticipants + 1)
                  && (forall other :: other in s.entries && other != id ==> after.entries[other] == s.entries[other])
                  && var fee := s.entries[id].tournament.terms.entryFee;
                     after.books == if fee <= 0 then s.books
                                    else s.books.(wallets := s.books.wallets[user := s.books.wallets[user] - fee]))
  {
  }

  /** Why it fails, in the order of the checks. */
  lemma RegisterErrors(s: World, user: Id, id: Id, hasGameProfile: bool)
    ensures var r := Registered(s, user, id, hasGameProfile, NoFault).1;
            && (r == Failed(NotFound) <==> id !in s.entries)
            && (r == Failed(Internal) <==> id in s.entries && Load(s, id).Err?)
            && (Load(s, id).Ok? ==>
                  var e := s.entries[id];
                  && (r == Failed(Conflict) <==> OpenWithRoom(e.tournament) && user in e.participants)
                  && (r == Failed(BadRequest) <==>
                      OpenWithRoom(e.tournament) && user !in e.participants && !hasGameProfile)
                  && (r == Failed(Forbidden) <==>
                      !OpenWithRoom(e.tournament)
                      || (user !in e.participants && hasGameProfile && !Covers(s, user, e.tournament.terms.entryFee))))
  {
  }

  /** With any of the three writes failing: what is written are the writes before it, for those who may register. */
  lemma WritesUpToFault(s: World, user: Id, id: Id, hasGameProfile: bool, fault: Fault)
    requires MayRegister(s, user, id, hasGameProfile)
    ensures var ((after, r), e) := (Registered(s, user, id, hasGameProfile, fault), s.entries[id]);
            var fee := e.tournament.terms.entryFee;
            var stuck := fault == DebitFails && fee > 0;
            && id in after.entries
            && after.entries[id].participants ==
                 (if stuck || fault == RowFails then e.participants else e.participants + [user])
            && after.entries[id].tournament == e.tournament.(
                 currentParticipants := after.entries[id].tournament.currentParticipants)
            && (after.entries[id].tournament.currentParticipants == e.tournament.currentParticipants + 1 <==> r == Done)
            && (after.entries[id].tournament.currentParticipants == e.tournament.currentParticipants <==> r != Done)
            && (r == Done <==> !stuck && fault != RowFails && fault != CountFails)
            && (r != Done ==> r == Failed(Internal))
            && (after.books == s.books <==> stuck || fee <= 0)
  {
    var e := s.entries[id];
    var fee := e.tournament.terms.entryFee;
    if fee > 0 {
      assert Ledger.EntryFeeCharged(s.books, user, fee).0.wallets[user] != s.books.wallets[user];
    }
  }

  /** A step that adds a row is a registration, and finds the tournament open and with room. */
  lemma RowNeedsOpenRoom(s: World, e: Event, id: Id)
    requires id in s.entries && id in Step(s, e).entries
    requires |Step(s, e).entries[id].participants| > |s.entries[id].participants|
    ensures e.Register? && e.tournament == id && OpenWithRoom(s.entries[id].tournament)
    ensures Step(s, e).entries[id].participants == s.entries[id].participants + [e.user]
  {
  }

  /** Event i of the run seats a participant in a tournament that is open and has room. */
  ghost predicate SeatedAt(s: World, events: seq<Event>, id: Id, i: nat) {
    && i < |events| && id in After(s, events, i).entries
    && events[i].Register? && events[i].tournament == id && OpenWithRoom(After(s, events, i).entries[id].tournament)
  }

  /** On every run: if a tournament has more rows at some point than at the start, one was added while it was open. */
  lemma {:induction false} MoreRowsNeedOpenRoom(s: World, events: seq<Event>, id: Id, n: nat)
    requires n <= |events| && id in s.entries
    ensures id in After(s, events, n).entries
    ensures |After(s, events, n).entries[id].participants| > |s.entries[id].participants| ==>
              exists i: nat :: i < n && SeatedAt(s, events, id, i)
  {
    if n > 0 {
      MoreRowsNeedOpenRoom(s, events, id, n - 1);
      var before := After(s, events, n - 1);
      StatusMoves(before, events[n - 1], id);
      if |After(s, events, n).entries[id].participants| > |before.entries[id].participants| {
        RowNeedsOpenRoom(before, events[n - 1], id);
        assert SeatedAt(s, events, id, n - 1);
      }
    }
  }

  // ---------- removal ----------

  /** Removal takes one row and one count, as long as the tournament is neither running nor over. */
  lemma RemovalSucceedsIff(s: World, id: Id, user: Id, userExists: bool)
    ensures var (after, r) := Removed(s, id, user, userExists);
            && (r == Done <==>
                && Load(s, id).Ok? && userExists && user in s.entries[id].participants
                && s.entries[id].tournament.status in {Pending, Upcoming, RegistrationOpen, RegistrationClosed})
            && (r != Done ==> after == s)
            && (r == Done ==>
                  && after.books == s.books && id in after.entries
                  && (forall other :: other != id ==>
                        (other in after.entries <==> other in s.entries)
                        && (other in s.entries ==> after.entries[other] == s.entries[other]))
                  && multiset(after.entries[id].participants) == multiset(s.entries[id].participants) - multiset{user}
                  && after.entries[id].tournament == s.entries[id].tournament.(
                       currentParticipants := s.entries[id].tournament.currentParticipants - 1))
  {
    if Load(s, id).Ok? && user in s.entries[id].participants {
      WithoutRemovesOne(s.entries[id].participants, IndexOf(s.entries[id].participants, user));
    }
  }

  lemma RemovalErrors(s: World, id: Id, user: Id, userExists: bool)
    ensures var r := Removed(s, id, user, userExists).1;
            && (r == Failed(Internal) <==> id in s.entries && Load(s, id).Err?)
            && (r == Failed(NotFound) <==>
                id !in s.entries || (Load(s, id).Ok? && !(userExists && user in s.entries[id].participants)))
            && (r != Done && r !in {Failed(Internal), Failed(NotFound)} ==> r == Failed(BadRequest))
  {
  }

  /** What the entity adds it can take away again. */
  lemma AddThenRemove(t: TournamentState)
    ensures ParticipantAdded(t).1 == Done <==> OpenWithRoom(t)
    ensures ParticipantAdded(t).1 != Done ==> ParticipantAdded(t) == (t, Failed(Invalid))
    ensures ParticipantAdded(t).1 == Done && t.currentParticipants >= 0 ==>
              ParticipantAdded(t).0 != t && ParticipantRemoved(ParticipantAdded(t).0) == t
    ensures ParticipantRemoved(t) != t <==> t.currentParticipants > 0
    ensures t.currentParticipants >= 0 ==> ParticipantRemoved(t).currentParticipants >= 0
  {
  }

  // ---------- the administrator's requests ----------

  /** The end date that completion sets when there is none. */
  function EndedBy(dates: Dates, newStatus: Status, now: int): Dates {
    if newStatus == Completed && dates.endDate.None? then dates.(endDate := Some(now)) else dates
  }

  /** The entity's operation for a status. */
  function Operation(t: TournamentState, becomes: Status, now: int): (TournamentState, Outcome)
    requires becomes !in {Pending, Upcoming}
  {
    match becomes
    case RegistrationOpen => RegistrationOpened(t)
    case RegistrationClosed => RegistrationClosedBy(t)
    case Ongoing => Started(t)
    case Completed => CompletedAt(t, now)
    case Canceled => CanceledBy(t)
  }

  /** Each of the entity's own operations makes its move when that is listed, and is refused otherwise. */
  lemma OperationIff(t: TournamentState, becomes: Status, now: int)
    requires becomes !in {Pending, Upcoming}
    ensures Operation(t, becomes, now) ==
            if CanMove(t.status, becomes) && t.status != becomes
            then (t.(status := becomes, dates := EndedBy(t.dates, becomes, now)), Done) else (t, Failed(Invalid))
  {
  }

  /**
   A request for a status leads to exactly that status when the move is listed, and only PENDING can be
   requested while it is the status already; any other request is refused and changes nothing.
   */
  lemma StatusRequestIff(s: World, id: Id, newStatus: Status, now: int)
    requires Load(s, id).Ok?
    ensures var ((after, r), t) := (StatusStored(s, id, newStatus, now), s.entries[id].tournament);
            if CanMove(t.status, newStatus) && (t.status == newStatus ==> newStatus == Pending) then
              && id in after.entries && after.books == s.books
              && after == s.(entries := s.entries[id := after.entries[id]])
              && after.entries[id].participants == s.entries[id].participants
              && after.entries[id].tournament ==
                   t.(status := newStatus, dates := EndedBy(t.dates, newStatus, now))
              && r == if Load(after, id).Ok? then Done else Failed(Internal)
            else
              after == s && r == Failed(BadRequest)
  {
  }

  lemma StatusRequestErrors(s: World, id: Id, newStatus: Status, now: int)
    requires Load(s, id).Err?
    ensures StatusStored(s, id, newStatus, now) == (s, Failed(if id in s.entries then Internal else NotFound))
  {
  }

  /** An update is stored exactly when the game it names exists and every field is acceptable. */
  lemma UpdateRequestIff(s: World, id: Id, d: Details, gameExists: bool)
    ensures var (after, r) := DetailsStored(s, id, d, gameExists);
            if Load(s, id).Err? then after == s && r == Failed(if id in s.entries then Internal else NotFound)
            else
              var t := s.entries[id].tournament;
              var known := d.gameId.Some? && d.gameId.value != t.gameId ==> gameExists;
              if known && DetailsUpdated(t, d).1 == Done then
                && r == Done && id in after.entries && after.books == s.books
                && after == s.(entries := s.entries[id := after.entries[id]])
                && after.entries[id].participants == s.entries[id].participants
                && after.entries[id].tournament == Given(t, d, 11)
              else after == s && r == Failed(BadRequest)
  {
    if Load(s, id).Ok? && DetailsUpdated(s.entries[id].tournament, d).1 == Done {
      FailsNowhere(s.entries[id].tournament, d);
      UpdateLeavesPrefix(s.entries[id].tournament, d);
    }
  }

  /** The entity with the first n fields, in the order of assignment, as given. */
  function Given(t: TournamentState, d: Details, n: nat): TournamentState {
    TournamentState(
      PickSome(d.name, t.name), PickSome(d.gameId, t.gameId), t.status,
      Terms(if n > 1 then PickSome(d.entryFee, t.terms.entryFee) else t.terms.entryFee,
            if n > 2 then Pick(d.entryFeeType, t.terms.entryFeeType) else t.terms.entryFeeType,
            if n > 3 then PickSome(d.prizePool, t.terms.prizePool) else t.terms.prizePool,
            if n > 4 then Pick(d.prizeType, t.terms.prizeType) else t.terms.prizeType),
      if n > 5 then PickSome(d.maxParticipants, t.maxParticipants) else t.maxParticipants, t.currentParticipants,
      if n > 6 then Dates(PickSome(d.startDate, t.dates.startDate), PickSome(d.endDate, t.dates.endDate)) else t.dates,
      Staff(if n > 7 then PickSome(d.organizerId, t.staff.organizerId) else t.staff.organizerId,
            if n > 8 then Pick(d.managedBy, t.staff.managedBy) else t.staff.managedBy,
            if n > 9 then Pick(d.supportedBy, t.staff.supportedBy) else t.staff.supportedBy,
            if n > 10 then Pick(d.bracketType, t.staff.bracketType) else t.staff.bracketType))
  }

  lemma FailsNowhere(t: TournamentState, d: Details)
    ensures FailsAt(t, d) == 11 <==> DetailsUpdated(t, d).1 == Done
  {
  }

  /** Succeeding or not, an update leaves in memory exactly the given fields before the first check that fails. */
  lemma UpdateLeavesPrefix(t: TournamentState, d: Details)
    ensures DetailsUpdated(t, d).0 == Given(t, d, FailsAt(t, d))
    ensures DetailsUpdated(t, d).1 != Done ==> DetailsUpdated(t, d).1 == Failed(Invalid)
  {
  }
}
