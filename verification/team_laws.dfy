/** Ownership and roles over every run of the team use cases. */
module TeamLaws {
  import opened Common
  import opened Teams

  // ---------- one active owner ----------

  /** Exactly one OWNER membership; it is active, and its user is the team's ownerId. */
  ghost predicate WellOwned(t: Team) {
    && t.ownerId in t.members && t.members[t.ownerId] == Membership(Owner, Active)
    && forall u :: u in t.members && t.members[u].role == Owner ==> u == t.ownerId
  }

  ghost predicate AllWellOwned(s: World) {
    forall id :: id in s ==> WellOwned(s[id])
  }

  lemma ActKeepsOwned(t: Team, e: Event)
    requires WellOwned(t)
    ensures WellOwned(Act(t, e).0)
  {
  }

  lemma {:induction false} EveryTeamKeepsItsOwner(s: World, events: seq<Event>)
    requires AllWellOwned(s)
    ensures AllWellOwned(Run(s, events)) && Run(s, events).Keys == s.Keys
    decreases |events|
  {
    if events != [] {
      if events[0].team in s {
        ActKeepsOwned(s[events[0].team], events[0]);
      }
      EveryTeamKeepsItsOwner(Step(s, events[0]), events[1..]);
    }
  }

  /** Ownership moves exactly when the owner of that moment hands it to another existing user. */
  lemma OwnerMovesIff(t: Team, e: Event)
    requires WellOwned(t)
    ensures Act(t, e).0.ownerId != t.ownerId <==>
            e.ChangeOwner? && e.actor == t.ownerId && e.newOwner != t.ownerId && e.newOwnerExists
    ensures Act(t, e).0.ownerId != t.ownerId ==>
              Act(t, e).0.ownerId == e.newOwner && Act(t, e).0.members[t.ownerId] == Membership(Admin, Active)
  {
  }

  /** Handing ownership over and back again leaves the two at OWNER and ADMIN, and everybody else as they were. */
  lemma TransferAndBack(t: Team, id: Id, heir: Id)
    requires WellOwned(t) && heir != t.ownerId
    ensures var given := Act(t, ChangeOwner(id, heir, t.ownerId, true)).0;
            Act(given, ChangeOwner(id, t.ownerId, heir, true)) == (Seat(t, heir, Membership(Admin, Active)), Done)
  {
    var given := Act(t, ChangeOwner(id, heir, t.ownerId, true)).0;
    var back := Act(given, ChangeOwner(id, t.ownerId, heir, true)).0;
    assert back.members == t.members[heir := Membership(Admin, Active)];
  }

  // ---------- where admins come from ----------

  function After(s: World, events: seq<Event>, n: nat): World
    requires n <= |events|
  {
    if n == 0 then s else Step(After(s, events, n - 1), events[n - 1])
  }

  predicate IsAdmin(s: World, id: Id, u: Id) {
    id in s && u in s[id].members && s[id].members[u].role == Admin
  }

  /** An ADMIN membership only comes into being in a step of the team's owner of that moment. */
  lemma AdminsAreMadeByOwners(s: World, e: Event, id: Id, u: Id)
    requires AllWellOwned(s) && IsAdmin(Step(s, e), id, u) && !IsAdmin(s, id, u)
    ensures id in s && e.team == id && e.actor == s[id].ownerId
  {
  }

  /** Step i of the run was the owner's, it made u an admin, and u has been one ever since. */
  ghost predicate MadeAdminAt(s: World, events: seq<Event>, id: Id, u: Id, i: nat, n: nat) {
    && i < n <= |events|
    && id in After(s, events, i) && events[i].team == id && events[i].actor == After(s, events, i)[id].ownerId
    && !IsAdmin(After(s, events, i), id, u)
    && forall m :: i < m <= n ==> IsAdmin(After(s, events, m), id, u)
  }

  lemma {:induction false} StaysOwned(s: World, events: seq<Event>, n: nat)
    requires AllWellOwned(s) && n <= |events|
    ensures AllWellOwned(After(s, events, n))
  {
    if n > 0 {
      StaysOwned(s, events, n - 1);
      var before, e := After(s, events, n - 1), events[n - 1];
      if e.team in before {
        ActKeepsOwned(before[e.team], e);
      }
    }
  }

  /**
   Provenance: at every point of every run, each ADMIN membership either has been one from the start
   of the run without a break, or goes back to a step performed by the owner of that moment, since
   which it has not lapsed.
   */
  lemma {:induction false} AdminProvenance(s: World, events: seq<Event>, id: Id, u: Id, n: nat)
    requires AllWellOwned(s) && n <= |events| && IsAdmin(After(s, events, n), id, u)
    ensures (forall m :: 0 <= m <= n ==> IsAdmin(After(s, events, m), id, u))
            || exists i :: MadeAdminAt(s, events, id, u, i, n)
  {
    if n > 0 {
      var k := n - 1;
      var before := After(s, events, k);
      if IsAdmin(before, id, u) {
        AdminProvenance(s, events, id, u, k);
        if i: nat :| MadeAdminAt(s, events, id, u, i, k) {
          assert MadeAdminAt(s, events, id, u, i, n);
        }
      } else {
        StaysOwned(s, events, n - 1);
        AdminsAreMadeByOwners(before, events[n - 1], id, u);
        assert MadeAdminAt(s, events, id, u, n - 1, n);
      }
    }
  }

  // ---------- who can remove whom ----------

  function Rank(role: Role): nat {
    match role
    case Owner => 2
    case Admin => 1
    case Member => 0
  }

  /** A membership disappears only at its user's own hand or at that of an active member of higher rank. */
  lemma RemovalNeedsRank(t: Team, e: Event, u: Id)
    requires WellOwned(t) && u in t.members && u !in Act(t, e).0.members
    ensures e.actor == u || (IsActive(t, e.actor) && Rank(t.members[e.actor].role) > Rank(t.members[u].role))
    ensures u != t.ownerId
  {
  }

  /** Nobody's role rises except at the owner's hand. */
  lemma RiseNeedsOwner(t: Team, e: Event, u: Id)
    requires WellOwned(t) && u in t.members && u in Act(t, e).0.members
    requires Rank(Act(t, e).0.members[u].role) > Rank(t.members[u].role)
    ensures e.actor == t.ownerId
  {
  }

  /** A membership becomes active only from an invitation its own user accepts, or by receiving the ownership. */
  lemma ActivationNeedsConsent(t: Team, e: Event, u: Id)
    requires WellOwned(t) && IsActive(Act(t, e).0, u) && !IsActive(t, u)
    ensures (e.actor == u && u in t.members && t.members[u].status == Invited)
            || (e.ChangeOwner? && e.newOwner == u && e.actor == t.ownerId)
  {
  }
}
