/** Team membership: invitation, the member's own answers, role changes, removal and change of owner. */
module Teams {
  import opened Common

  datatype Role = Owner | Admin | Member

  datatype Standing = Invited | Active | Inactive | Rejected | Left | Kicked

  datatype Membership = Membership(role: Role, status: Standing)

  datatype Team = Team(ownerId: Id, members: map<Id, Membership>)

  type World = map<Id, Team>

  /** actor is the user who performs the step. */
  datatype Event =
    | Invite(team: Id, target: Id, role: Option<Role>, actor: Id, targetExists: bool)
    | UpdateStatus(team: Id, actor: Id, newStatus: Standing)
    | ChangeRole(team: Id, target: Id, newRole: Role, actor: Id)
    | RemoveMember(team: Id, target: Id, actor: Id)
    | ChangeOwner(team: Id, newOwner: Id, actor: Id, newOwnerExists: bool)

  predicate IsActive(t: Team, user: Id) {
    user in t.members && t.members[user].status == Active
  }

  function Seat(t: Team, user: Id, membership: Membership): Team {
    t.(members := t.members[user := membership])
  }

  // ---------- what each use case does to a team ----------

  /** The repository's add: a member who is gone is invited again, anybody else must be new. */
  function Added(t: Team, user: Id, role: Role): (Team, Outcome) {
    if user in t.members && t.members[user].status !in {Left, Kicked, Rejected} then (t, Failed(Conflict))
    else (Seat(t, user, Membership(role, Invited)), Done)
  }

  function InvitationAdded(t: Team, target: Id, role: Option<Role>, actor: Id, targetExists: bool): (Team, Outcome) {
    if !IsActive(t, actor) || t.members[actor].role == Member then (t, Failed(Forbidden))
    else if role == Some(Owner) then (t, Failed(BadRequest))
    else if t.members[actor].role == Admin && role == Some(Admin) then (t, Failed(Forbidden))
    else if !targetExists then (t, Failed(NotFound))
    else if target == actor then (t, Failed(BadRequest))
    else Added(t, target, if role.Some? then role.value else Member)
  }

  function StatusUpdated(t: Team, actor: Id, newStatus: Standing): (Team, Outcome) {
    if actor !in t.members then (t, Failed(NotFound))
    else
      var m := t.members[actor];
      if (newStatus == Active || newStatus == Rejected) && m.status != Invited then (t, Failed(BadRequest))
      else if newStatus == Left && (m.status != Active || m.role == Owner) then (t, Failed(BadRequest))
      else (Seat(t, actor, m.(status := newStatus)), Done)
  }

  function RoleChanged(t: Team, target: Id, newRole: Role, actor: Id): (Team, Outcome) {
    if !IsActive(t, target) then (t, Failed(NotFound))
    else if newRole == Owner then (t, Failed(BadRequest))
    else if !IsActive(t, actor) then (t, Failed(Forbidden))
    else if t.members[actor].role != Owner then (t, Failed(Forbidden))
    else if t.members[target].role == Owner then (t, Failed(BadRequest))
    else (Seat(t, target, t.members[target].(role := newRole)), Done)
  }

  function MemberRemoved(t: Team, target: Id, actor: Id): (Team, Outcome) {
    if target !in t.members then (t, Failed(NotFound))
    else if !IsActive(t, actor) then (t, Failed(Forbidden))
    else if t.members[target].role == Owner then (t, Failed(BadRequest))
    else if actor != target && t.members[actor].role == Member then (t, Failed(Forbidden))
    else if actor != target && t.members[actor].role == Admin && t.members[target].role == Admin then
      (t, Failed(Forbidden))
    else (t.(members := t.members - {target}), Done)
  }

  /** The repository's transaction: the new owner is seated as OWNER, the old one becomes ADMIN. */
  function OwnerChanged(t: Team, newOwner: Id, actor: Id, newOwnerExists: bool): (Team, Outcome) {
    if t.ownerId != actor || !IsActive(t, actor) || t.members[actor].role != Owner then (t, Failed(Forbidden))
    else if t.ownerId == newOwner then (t, Failed(BadRequest))
    else if !newOwnerExists then (t, Failed(NotFound))
    else
      var members := t.members[newOwner := Membership(Owner, Active)];
      (Team(newOwner, members[actor := t.members[actor].(role := Admin)]), Done)
  }

  function Act(t: Team, e: Event): (Team, Outcome) {
    match e
    case Invite(_, target, role, actor, targetExists) => InvitationAdded(t, target, role, actor, targetExists)
    case UpdateStatus(_, actor, newStatus) =>
      if newStatus !in {Active, Rejected, Left} then (t, Failed(BadRequest)) else StatusUpdated(t, actor, newStatus)
    case ChangeRole(_, target, newRole, actor) => RoleChanged(t, target, newRole, actor)
    case RemoveMember(_, target, actor) => MemberRemoved(t, target, actor)
    case ChangeOwner(_, newOwner, actor, newOwnerExists) => OwnerChanged(t, newOwner, actor, newOwnerExists)
  }

  /** A step on a team that does not exist fails and changes nothing. */
  function Step(s: World, e: Event): World {
    if e.team in s then s[e.team := Act(s[e.team], e).0] else s
  }

  function Run(s: World, events: seq<Event>): World
    decreases |events|
  {
    if events == [] then s else Run(Step(s, events[0]), events[1..])
  }

  // ---------- the use cases over the repositories ----------

  class TeamService {
    var teams: World

    method Store(team: Id, user: Id, membership: Membership)
      requires team in teams
      modifies this
      ensures teams == old(teams)[team := Seat(old(teams)[team], user, membership)]
    {
      teams := teams[team := teams[team].(members := teams[team].members[user := membership])];
    }

    method AddTeamMember(team: Id, target: Id, role: Option<Role>, actor: Id, targetExists: bool)
      returns (outcome: Outcome)
      modifies this
      ensures team !in old(teams) ==> teams == old(teams) && outcome == Failed(NotFound)
      ensures team in old(teams) ==>
                var (after, r) := InvitationAdded(old(teams)[team], target, role, actor, targetExists);
                teams == old(teams)[team := after] && outcome == r
    {
      if team !in teams {
        return Failed(NotFound);
      }
      var members := teams[team].members;
      if actor !in members || members[actor].role !in {Owner, Admin} || members[actor].status != Active {
        return Failed(Forbidden);
      }
      if role == Some(Owner) {
        return Failed(BadRequest);
      }
      if members[actor].role == Admin && role == Some(Admin) {
        return Failed(Forbidden);
      }
      if !targetExists {
        return Failed(NotFound);
      }
      if target == actor {
        return Failed(BadRequest);
      }
      if target in members && members[target].status !in {Left, Kicked, Rejected} {
        return Failed(Conflict);
      }
      Store(team, target, Membership(if role.Some? then role.value else Member, Invited));
      return Done;
    }

    method UpdateTeamMemberStatus(team: Id, actor: Id, newStatus: Standing) returns (outcome: Outcome)
      modifies this
      ensures newStatus !in {Active, Rejected, Left} ==> teams == old(teams) && outcome == Failed(BadRequest)
      ensures newStatus in {Active, Rejected, Left} && team !in old(teams) ==>
              teams == old(teams) && outcome == Failed(NotFound)
      ensures newStatus in {Active, Rejected, Left} && team in old(teams) ==>
                var (after, r) := StatusUpdated(old(teams)[team], actor, newStatus);
                teams == old(teams)[team := after] && outcome == r
    {
      if newStatus !in {Active, Rejected, Left} {
        return Failed(BadRequest);
      }
      if team !in teams || actor !in teams[team].members {
        return Failed(NotFound);
      }
      var member := teams[team].members[actor];
      if newStatus == Active {
        if member.status != Invited {
          return Failed(BadRequest);
        }
      } else if newStatus == Rejected {
        if member.status != Invited {
          return Failed(BadRequest);
        }
      } else {
        if member.status != Active {
          return Failed(BadRequest);
        }
        if member.role == Owner {
          return Failed(BadRequest);
        }
      }
      Store(team, actor, member.(status := newStatus));
      return Done;
    }

    method UpdateTeamMemberRole(team: Id, target: Id, newRole: Role, actor: Id) returns (outcome: Outcome)
      modifies this
      ensures team !in old(teams) ==> teams == old(teams) && outcome == Failed(NotFound)
      ensures team in old(teams) ==>
                var (after, r) := RoleChanged(old(teams)[team], target, newRole, actor);
                teams == old(teams)[team := after] && outcome == r
    {
      if team !in teams {
        return Failed(NotFound);
      }
      var members := teams[team].members;
      if target !in members || members[target].status != Active {
        return Failed(NotFound);
      }
      if newRole == Owner {
        return Failed(BadRequest);
      }
      if actor !in members || members[actor].status != Active {
        return Failed(Forbidden);
      }
      if members[actor].role != Owner {
        return Failed(Forbidden);
      }
      if members[target].role == Owner {
        return Failed(BadRequest);
      }
      if members[target].role != newRole {
        Store(team, target, members[target].(role := newRole));
      } else {
        assert members[target := members[target].(role := newRole)] == members;
      }
      return Done;
    }

    method RemoveTeamMember(team: Id, target: Id, actor: Id) returns (outcome: Outcome)
      modifies this
      ensures team !in old(teams) ==> teams == old(teams) && outcome == Failed(NotFound)
      ensures team in old(teams) ==>
                var (after, r) := MemberRemoved(old(teams)[team], target, actor);
                teams == old(teams)[team := after] && outcome == r
    {
      if team !in teams || target !in teams[team].members {
        return Failed(NotFound);
      }
      var members := teams[team].members;
      if actor !in members || members[actor].status != Active {
        return Failed(Forbidden);
      }
      if members[target].role == Owner {
        return Failed(BadRequest);
      }
      if actor != target {
        if members[actor].role == Member {
          return Failed(Forbidden);
        }
        if members[actor].role == Admin && members[target].role == Admin {
          return Failed(Forbidden);
        }
      }
      teams := teams[team := teams[team].(members := members - {target})];
      return Done;
    }

    method ChangeTeamOwner(team: Id, newOwner: Id, actor: Id, newOwnerExists: bool) returns (outcome: Outcome)
      modifies this
      ensures team !in old(teams) ==> teams == old(teams) && outcome == Failed(NotFound)
      ensures team in old(teams) ==>
                var (after, r) := OwnerChanged(old(teams)[team], newOwner, actor, newOwnerExists);
                teams == old(teams)[team := after] && outcome == r
    {
      if team !in teams {
        return Failed(NotFound);
      }
      var t := teams[team];
      if t.ownerId != actor || actor !in t.members || t.members[actor].role != Owner
          || t.members[actor].status != Active {
        return Failed(Forbidden);
      }
      if t.ownerId == newOwner {
        return Failed(BadRequest);
      }
      if !newOwnerExists {
        return Failed(NotFound);
      }
      teams := teams[team := t.(ownerId := newOwner)];
      Store(team, newOwner, Membership(Owner, Active));
      Store(team, actor, teams[team].members[actor].(role := Admin));
      return Done;
    }
  }
}
