/** Which team steps succeed, what exactly a successful one does, and why the others fail. */
module TeamAnswers {
  import opened Common
  import opened Teams
  import opened TeamLaws

  /** A membership that is not over: the user cannot be invited again. */
  predicate Engaged(t: Team, user: Id) {
    user in t.members && t.members[user].status in {Invited, Active, Inactive}
  }

  lemma EngagedOrGone(t: Team, user: Id)
    requires user in t.members
    ensures !Engaged(t, user) <==> t.members[user].status in {Left, Kicked, Rejected}
  {
    match t.members[user].status
    case Invited =>
    case Active =>
    case Inactive =>
    case Rejected =>
    case Left =>
    case Kicked =>
  }

  /** The role an invitation is for. */
  function Asked(role: Option<Role>): Role {
    if role.Some? then role.value else Member
  }

  predicate MayInvite(t: Team, actor: Id, role: Role) {
    IsActive(t, actor) && Rank(role) < Rank(t.members[actor].role)
  }

  /**
   An invitation succeeds exactly when an active member asks for a rank below their own, for an existing
   other user who is not engaged. It seats that user as INVITED with the role asked for, MEMBER by default.
   */
  lemma InviteIff(t: Team, id: Id, target: Id, role: Option<Role>, actor: Id, targetExists: bool)
    ensures var (after, r) := Act(t, Invite(id, target, role, actor, targetExists));
            && (r == Done <==>
                MayInvite(t, actor, Asked(role)) && targetExists && target != actor && !Engaged(t, target))
            && after == if r == Done then Seat(t, target, Membership(Asked(role), Invited)) else t
  {
    if target in t.members {
      EngagedOrGone(t, target);
    }
    assert role.Some? ==> role == Some(role.value) && (role.value.Owner? || role.value.Admin? || role.value.Member?);
  }

  lemma InviteErrors(t: Team, id: Id, target: Id, role: Option<Role>, actor: Id, targetExists: bool)
    ensures var r := Act(t, Invite(id, target, role, actor, targetExists)).1;
            var ranked := IsActive(t, actor) && t.members[actor].role != Member;
            && (r == Failed(Forbidden) <==> !ranked || (Asked(role) == Admin && t.members[actor].role == Admin))
            && (r == Failed(NotFound) <==> MayInvite(t, actor, Asked(role)) && !targetExists)
            && (r == Failed(BadRequest) <==>
                ranked && (Asked(role) == Owner
                           || (MayInvite(t, actor, Asked(role)) && targetExists && target == actor)))
            && (r == Failed(Conflict) <==>
                MayInvite(t, actor, Asked(role)) && targetExists && target != actor && Engaged(t, target))
  {
    if target in t.members {
      EngagedOrGone(t, target);
    }
    assert role.Some? ==> role == Some(role.value) && (role.value.Owner? || role.value.Admin? || role.value.Member?);
  }

  /**
   A member's own answer: an invitation can be accepted or rejected, an active membership other than the
   owner's left, and nothing else. The membership gets the status answered and keeps its role.
   */
  lemma AnswerIff(t: Team, id: Id, actor: Id, newStatus: Standing)
    ensures var (after, r) := Act(t, UpdateStatus(id, actor, newStatus));
            var was := if actor in t.members then Some(t.members[actor].status) else None;
            && (r == Done <==>
                || (was == Some(Invited) && newStatus in {Active, Rejected})
                || (was == Some(Active) && newStatus == Left && t.members[actor].role != Owner))
            && after == (if r == Done then Seat(t, actor, Membership(t.members[actor].role, newStatus)) else t)
            && (r != Done ==>
                  r == Failed(if newStatus in {Active, Rejected, Left} && was.None? then NotFound else BadRequest))
  {
  }

  /** A role changes exactly when the active owner asks for a lower one than OWNER for an active other member. */
  lemma RoleChangeIff(t: Team, id: Id, target: Id, newRole: Role, actor: Id)
    ensures var (after, r) := Act(t, ChangeRole(id, target, newRole, actor));
            && (r == Done <==>
                && IsActive(t, actor) && t.members[actor].role == Owner
                && IsActive(t, target) && t.members[target].role != Owner && newRole != Owner)
            && after == if r == Done then Seat(t, target, Membership(newRole, Active)) else t
  {
  }

  lemma RoleChangeErrors(t: Team, id: Id, target: Id, newRole: Role, actor: Id)
    ensures var r := Act(t, ChangeRole(id, target, newRole, actor)).1;
            var entitled := IsActive(t, actor) && t.members[actor].role == Owner;
            && (r == Failed(NotFound) <==> !IsActive(t, target))
            && (r == Failed(Forbidden) <==> IsActive(t, target) && newRole != Owner && !entitled)
            && (r == Failed(BadRequest) <==>
                IsActive(t, target) && (newRole == Owner || (entitled && t.members[target].role == Owner)))
  {
  }

  /** A removal succeeds exactly for oneself or somebody of lower rank, never for the owner; only the target goes. */
  lemma RemovalIff(t: Team, id: Id, target: Id, actor: Id)
    ensures var (after, r) := Act(t, RemoveMember(id, target, actor));
            && (r == Done <==>
                && target in t.members && t.members[target].role != Owner && IsActive(t, actor)
                && (actor == target || Rank(t.members[target].role) < Rank(t.members[actor].role)))
            && (r != Done ==> after == t)
            && (r == Done ==>
                  && after.ownerId == t.ownerId
                  && (forall u :: u in after.members <==> u in t.members && u != target)
                  && forall u :: u in after.members ==> after.members[u] == t.members[u])
  {
  }

  lemma RemovalErrors(t: Team, id: Id, target: Id, actor: Id)
    ensures var r := Act(t, RemoveMember(id, target, actor)).1;
            && (r == Failed(NotFound) <==> target !in t.members)
            && (r == Failed(BadRequest) <==>
                target in t.members && IsActive(t, actor) && t.members[target].role == Owner)
            && (r == Failed(Forbidden) <==>
                && target in t.members
                && (!IsActive(t, actor)
                    || (actor != target && t.members[target].role != Owner
                        && Rank(t.members[actor].role) <= Rank(t.members[target].role))))
  {
  }

  /** Ownership passes on the owner's word to another existing user; the two change places and roles. */
  lemma TransferIff(t: Team, id: Id, newOwner: Id, actor: Id, newOwnerExists: bool)
    ensures var (after, r) := Act(t, ChangeOwner(id, newOwner, actor, newOwnerExists));
            var entitled := t.ownerId == actor && IsActive(t, actor) && t.members[actor].role == Owner;
            && (r == Done <==> entitled && newOwner != actor && newOwnerExists)
            && (r == Failed(Forbidden) <==> !entitled)
            && (r == Failed(BadRequest) <==> entitled && newOwner == actor)
            && (r == Failed(NotFound) <==> entitled && newOwner != actor && !newOwnerExists)
            && (r == Done ==>
                  && after.ownerId == newOwner && after.members.Keys == t.members.Keys + {newOwner}
                  && after.members[newOwner] == Membership(Owner, Active)
                  && after.members[actor] == Membership(Admin, Active))
  {
  }

  /** A step changes no membership but those of its target and its actor. */
  lemma OthersUntouched(t: Team, e: Event, u: Id)
    requires u != e.actor
    requires match e
             case Invite(_, target, _, _, _) => u != target
             case UpdateStatus(_, _, _) => true
             case ChangeRole(_, target, _, _) => u != target
             case RemoveMember(_, target, _) => u != target
             case ChangeOwner(_, newOwner, _, _) => u != newOwner
    ensures u in Act(t, e).0.members <==> u in t.members
    ensures u in t.members ==> Act(t, e).0.members[u] == t.members[u]
  {
  }

  /** A member is only invited again once the earlier membership is over, and by a member of higher rank. */
  lemma InvitedOnlyWhenGone(t: Team, e: Event, u: Id)
    requires u in t.members && u in Act(t, e).0.members
    requires Act(t, e).0.members[u].status == Invited && t.members[u].status != Invited
    ensures e.Invite? && e.target == u && t.members[u].status in {Left, Kicked, Rejected}
    ensures MayInvite(t, e.actor, Act(t, e).0.members[u].role)
  {
  }
}
