/** The organisation and invitation services as they run: rows changed one by one inside a
    transaction. Each method leaves exactly the state its function in Organisation or Invitations says. */
module OfficeStore {
  import opened Prelude
  import opened Tenancy
  import opened Organisation
  import opened Deliveries
  import opened Invitations
  import opened InvitationInvariants

  /** A transaction over the tenant rows: the specified next state, or the state before it. */
  predicate Served(spec: Result<Tenant, ServiceError>, before: Office, after: Office, error: Option<ServiceError>) {
    match spec
    case Ok(tenant) => after == before.(tenant := tenant) && error.None?
    case Err(e) => after == before && error == Some(e)
  }

  predicate Committed(spec: Result<Office, ServiceError>, before: Office, after: Office, error: Option<ServiceError>) {
    match spec
    case Ok(next) => after == next && error.None?
    case Err(e) => after == before && error == Some(e)
  }

  /** Either outcome of an organisation call leaves the rows in order. */
  lemma ServedKeeps(before: Office, call: OrgCall, after: Office, error: Option<ServiceError>)
    requires OfficeInv(before) && Served(Serve(before.tenant, call), before, after, error)
    ensures OfficeInv(after)
  {
    StepKeeps(before, OrgEvent(call));
  }

  class Registry {
    var users: map<UserId, User>
    var profiles: map<ProfileId, Lifecycle>
    var workspaces: map<WorkspaceId, Workspace>
    var memberships: map<MembershipId, Membership>
    var members: map<(WorkspaceId, UserId), WorkspaceMember>
    var invitations: seq<Invitation>
    var deliveries: seq<Phase>

    function Rows(): Tenant reads this { Tenant(users, profiles, workspaces, memberships, members) }

    function State(): Office reads this { Office(Rows(), invitations, deliveries) }

    /** Kept by every service; the other methods are steps inside a transaction. */
    ghost predicate Valid() reads this { OfficeInv(State()) }

    constructor (users: map<UserId, User>)
      ensures State() == Start(users) && Valid()
    {
      EveryRunKeepsOffice(users, []);
      this.users, profiles, workspaces, memberships, members := users, map[], map[], map[], map[];
      invitations, deliveries := [], [];
    }

    // ----- profiles, memberships and workspaces -----

    method CreateProfileWithOwner(owner: UserId, profile: ProfileId, membership: MembershipId)
        returns (error: Option<ServiceError>)
      requires Valid()
      modifies this`profiles, this`memberships
      ensures Served(CreateProfile(old(Rows()), owner, profile, membership), old(State()), State(), error)
      ensures Valid()
      ensures State() == Step(old(State()), OrgEvent(NewProfile(owner, profile, membership)))
    {
      StepKeeps(State(), OrgEvent(NewProfile(owner, profile, membership)));
      if owner !in users || !users[owner].active { return Some(Invalid); }
      if profile in profiles || membership in memberships { return Some(Conflict); }
      profiles := profiles[profile := Active];
      memberships := memberships[membership := Membership(profile, owner, Owner, true)];
      return None;
    }

    method UpdateProfileMembership(seen: Tenant, actor: UserId, profile: ProfileId, id: MembershipId,
                                   role: Option<ProfileRole>, active: Option<bool>)
                                       returns (error: Option<ServiceError>)
      requires Valid()
      modifies this`memberships
      ensures Served(UpdateMembership(seen, old(Rows()), actor, profile, id, role, active), old(State()), State(),
                     error)
      ensures Valid()
      ensures State() == Step(old(State()), OrgEvent(EditMembership(seen, actor, profile, id, role, active)))
    {
      ghost var before := State();
      error := SaveMembership(seen, actor, profile, id, role, active);
      ServedKeeps(before, EditMembership(seen, actor, profile, id, role, active), State(), error);
    }

    /** The transaction of `update_profile_membership`. */
    method SaveMembership(seen: Tenant, actor: UserId, profile: ProfileId, id: MembershipId,
                                   role: Option<ProfileRole>, active: Option<bool>)
                                       returns (error: Option<ServiceError>)
      modifies this`memberships
      ensures Served(UpdateMembership(seen, old(Rows()), actor, profile, id, role, active), old(State()), State(),
                     error)
    {
      var locked := LockMembership(seen, Rows(), actor, profile);
      if locked.Err? { return Some(locked.error); }
      var actorRole := memberships[locked.value.membership].role;
      if !IsManager(actorRole) { return Some(Forbidden); }
      if id !in memberships || memberships[id].profile != profile { return Some(NotFound); }
      var row := memberships[id];
      var nextRole, nextActive := row.role, row.active;
      if role.Some? { nextRole := role.value; }
      if active.Some? { nextActive := active.value; }
      if !row.active && nextActive { return Some(Invalid); }
      if nextRole.Owner? && nextActive && !ActiveUser(Rows(), row.user) { return Some(Invalid); }
      if actorRole.Admin? && (!row.role.Member? || !nextRole.Member?) { return Some(Forbidden); }
      var next := row.(role := nextRole, active := nextActive);
      if RemovesOwner(Rows(), row, next)
          && !(exists other :: other in memberships && other != id && ActiveOwner(Rows(), other, profile)) {
        return Some(Invalid);
      }
      if RemovesManager(row, next) && exists w ::
        w in workspaces && workspaces[w].profile == profile && workspaces[w].owner == row.user {
        return Some(Invalid);
      }
      memberships := memberships[id := next];
      return None;
    }

    method SetStatusOfProfile(seen: Tenant, actor: UserId, profile: ProfileId, next: Lifecycle)
        returns (error: Option<ServiceError>)
      requires Valid()
      modifies this`profiles
      ensures Served(SetProfileStatus(seen, old(Rows()), actor, profile, next), old(State()), State(), error)
      ensures Valid()
      ensures State() == Step(old(State()), OrgEvent(ProfileStatus(seen, actor, profile, next)))
    {
      StepKeeps(State(), OrgEvent(ProfileStatus(seen, actor, profile, next)));
      error := SaveProfileStatus(seen, actor, profile, next);
    }

    /** The transaction of `_set_profile_status`. */
    method SaveProfileStatus(seen: Tenant, actor: UserId, profile: ProfileId, next: Lifecycle)
        returns (error: Option<ServiceError>)
      modifies this`profiles
      ensures Served(SetProfileStatus(seen, old(Rows()), actor, profile, next), old(State()), State(), error)
    {
      var scope := ResolveProfile(seen, actor, profile);
      if scope.None? || profile !in profiles { return Some(NotFound); }
      if !LiveMembership(Rows(), scope.value.membership, actor, profile)
          || !memberships[scope.value.membership].role.Owner? {
        return Some(Forbidden);
      }
      var locked := ResolveProfile(Rows(), actor, profile);
      if locked.None? { return Some(NotFound); }
      if !locked.value.role.Owner? { return Some(Forbidden); }
      profiles := profiles[profile := next];
      return None;
    }

    method OpenWorkspace(seen: Tenant, actor: UserId, profile: ProfileId, period: Option<Period>, id: WorkspaceId)
        returns (error: Option<ServiceError>)
      requires Valid()
      modifies this`workspaces
      ensures Served(CreateWorkspace(seen, old(Rows()), actor, profile, period, id), old(State()), State(), error)
      ensures Valid()
      ensures State() == Step(old(State()), OrgEvent(NewWorkspace(seen, actor, profile, period, id)))
    {
      StepKeeps(State(), OrgEvent(NewWorkspace(seen, actor, profile, period, id)));
      error := SaveWorkspace(seen, actor, profile, period, id);
    }

    /** The transaction of `create_workspace`. */
    method SaveWorkspace(seen: Tenant, actor: UserId, profile: ProfileId, period: Option<Period>, id: WorkspaceId)
        returns (error: Option<ServiceError>)
      modifies this`workspaces
      ensures Served(CreateWorkspace(seen, old(Rows()), actor, profile, period, id), old(State()), State(), error)
    {
      var locked := LockMembership(seen, Rows(), actor, profile);
      if locked.Err? { return Some(locked.error); }
      if memberships[locked.value.membership].role != locked.value.role { return Some(NotFound); }
      if !IsManager(locked.value.role) { return Some(Forbidden); }
      if period.None? { return Some(Invalid); }
      if period.value.day == 1 && exists w ::
        w in workspaces && workspaces[w].profile == profile && workspaces[w].period == period.value.month {
        return Some(Conflict);
      }
      if period.value.day != 1 { return Some(Invalid); }
      if id in workspaces { return Some(Conflict); }
      workspaces := workspaces[id := Workspace(profile, actor, period.value.month, Active)];
      return None;
    }

    method SetStatusOfWorkspace(g: Glance, actor: UserId, profile: ProfileId, workspace: WorkspaceId, next: Lifecycle)
        returns (error: Option<ServiceError>)
      requires Valid()
      modifies this`workspaces
      ensures Served(SetWorkspaceStatus(g, old(Rows()), actor, profile, workspace, next), old(State()), State(), error)
      ensures Valid()
      ensures State() == Step(old(State()), OrgEvent(WorkspaceStatus(g, actor, profile, workspace, next)))
    {
      ghost var before := State();
      error := SaveWorkspaceStatus(g, actor, profile, workspace, next);
      ServedKeeps(before, WorkspaceStatus(g, actor, profile, workspace, next), State(), error);
    }

    /** The transaction of `_set_workspace_status`. */
    method SaveWorkspaceStatus(g: Glance, actor: UserId, profile: ProfileId, workspace: WorkspaceId, next: Lifecycle)
        returns (error: Option<ServiceError>)
      modifies this`workspaces
      ensures Served(SetWorkspaceStatus(g, old(Rows()), actor, profile, workspace, next), old(State()), State(), error)
    {
      var locked := Lock(g, Rows(), actor, profile, workspace);
      if locked.Err? { return Some(locked.error); }
      if !CanManageLifecycle(Rows(), locked.value) || workspace !in workspaces { return Some(Forbidden); }
      if workspaces[workspace].status == next { return None; }
      if !(exists id :: id in memberships && ActiveManager(Rows(), id, profile, workspaces[workspace].owner)) {
        return Some(Invalid);
      }
      workspaces := workspaces[workspace := workspaces[workspace].(status := next)];
      return None;
    }

    // ----- workspace members -----

    method AddWorkspaceMember(g: Glance, actor: UserId, profile: ProfileId, workspace: WorkspaceId,
                              target: MembershipId,
                              role: WorkspaceRole) returns (error: Option<ServiceError>)
      requires Valid()
      modifies this`members
      ensures Served(AddMember(g, old(Rows()), actor, profile, workspace, target, role), old(State()), State(), error)
      ensures Valid()
      ensures State() == Step(old(State()), OrgEvent(Add(g, actor, profile, workspace, target, role)))
    {
      ghost var before := State();
      error := SaveNewMember(g, actor, profile, workspace, target, role);
      ServedKeeps(before, Add(g, actor, profile, workspace, target, role), State(), error);
    }

    /** The transaction of `add_workspace_member`. */
    method SaveNewMember(g: Glance, actor: UserId, profile: ProfileId, workspace: WorkspaceId, target: MembershipId,
                              role: WorkspaceRole) returns (error: Option<ServiceError>)
      modifies this`members
      ensures Served(AddMember(g, old(Rows()), actor, profile, workspace, target, role), old(State()), State(), error)
    {
      var locked := LockMembers(g, Rows(), actor, profile, workspace);
      if locked.Err? { return Some(locked.error); }
      if !Assignable(locked.value.scope.role, role) { return Some(Forbidden); }
      if target !in memberships || !LiveMembership(Rows(), target, memberships[target].user, profile) {
        return Some(Invalid);
      }
      var key := (workspace, memberships[target].user);
      if key in members {
        if members[key].active { return Some(Conflict); }
        members := members[key := members[key].(role := role, active := true)];
      } else {
        members := members[key := WorkspaceMember(role, true)];
      }
      return None;
    }

    method UpdateWorkspaceMember(g: Glance, actor: UserId, profile: ProfileId, workspace: WorkspaceId, user: UserId,
                                 role: WorkspaceRole) returns (error: Option<ServiceError>)
      requires Valid()
      modifies this`members
      ensures Served(UpdateMember(g, old(Rows()), actor, profile, workspace, user, role), old(State()), State(), error)
      ensures Valid()
      ensures State() == Step(old(State()), OrgEvent(Change(g, actor, profile, workspace, user, role)))
    {
      ghost var before := State();
      error := SaveMemberRole(g, actor, profile, workspace, user, role);
      ServedKeeps(before, Change(g, actor, profile, workspace, user, role), State(), error);
    }

    /** The transaction of `update_workspace_member`. */
    method SaveMemberRole(g: Glance, actor: UserId, profile: ProfileId, workspace: WorkspaceId, user: UserId,
                                 role: WorkspaceRole) returns (error: Option<ServiceError>)
      modifies this`members
      ensures Served(UpdateMember(g, old(Rows()), actor, profile, workspace, user, role), old(State()), State(), error)
    {
      var locked := LockMembers(g, Rows(), actor, profile, workspace);
      if locked.Err? { return Some(locked.error); }
      var key := (workspace, user);
      if key !in members || !members[key].active { return Some(NotFound); }
      if ResolveProfile(Rows(), user, profile).None? { return Some(Invalid); }
      if !Assignable(locked.value.scope.role, members[key].role) || !Assignable(locked.value.scope.role, role) {
        return Some(Forbidden);
      }
      if members[key].role != role { members := members[key := members[key].(role := role)]; }
      return None;
    }

    method RevokeWorkspaceMember(g: Glance, actor: UserId, profile: ProfileId, workspace: WorkspaceId, user: UserId)
        returns (error: Option<ServiceError>)
      requires Valid()
      modifies this`members
      ensures Served(RevokeMember(g, old(Rows()), actor, profile, workspace, user), old(State()), State(), error)
      ensures Valid()
      ensures State() == Step(old(State()), OrgEvent(Remove(g, actor, profile, workspace, user)))
    {
      ghost var before := State();
      error := SaveMemberEnd(g, actor, profile, workspace, user);
      ServedKeeps(before, Remove(g, actor, profile, workspace, user), State(), error);
    }

    /** The transaction of `revoke_workspace_member`. */
    method SaveMemberEnd(g: Glance, actor: UserId, profile: ProfileId, workspace: WorkspaceId, user: UserId)
        returns (error: Option<ServiceError>)
      modifies this`members
      ensures Served(RevokeMember(g, old(Rows()), actor, profile, workspace, user), old(State()), State(), error)
    {
      var locked := LockMembers(g, Rows(), actor, profile, workspace);
      if locked.Err? { return Some(locked.error); }
      var key := (workspace, user);
      if key !in members || !members[key].active { return Some(NotFound); }
      if ResolveProfile(Rows(), user, profile).None? { return Some(Invalid); }
      if !Assignable(locked.value.scope.role, members[key].role) { return Some(Forbidden); }
      members := members[key := members[key].(active := false)];
      return None;
    }

    /** `_revoke_stale_workspace_access`: deactivate the user's active rows, one after the other. */
    method RevokeStaleAccess(profile: ProfileId, user: UserId)
      modifies this`members
      ensures members == Ousted(old(Rows()), profile, user)
    {
      ghost var t := Rows();
      var stale := set k | k in members && k.1 == user && members[k].active && InProfile(Rows(), k.0, profile);
      var rest := stale;
      while rest != {}
        invariant rest <= stale && members.Keys == t.members.Keys
        invariant forall k :: k in members ==>
                    members[k] == if k in stale && k !in rest then t.members[k].(active := false) else t.members[k]
      {
        var k :| k in rest;
        members := members[k := members[k].(active := false)];
        rest := rest - {k};
      }
    }

    // ----- invitations -----

    method Rollback(saved: Office)
      modifies this
      ensures State() == saved
    {
      users, profiles, workspaces := saved.tenant.users, saved.tenant.profiles, saved.tenant.workspaces;
      memberships, members := saved.tenant.memberships, saved.tenant.members;
      invitations, deliveries := saved.rows, saved.phases;
    }

    /** `_materialize_expiration`. */
    method Materialize(id: InvitationId, now: Time) returns (expired: bool)
      requires id < |invitations|
      modifies this`invitations
      ensures expired == Overdue(old(invitations)[id], now)
      ensures invitations == if expired then old(invitations)[id := Expire(old(invitations)[id], now)]
              else old(invitations)
    {
      expired := invitations[id].status.Pending? && invitations[id].expiresAt <= now;
      if expired { invitations := invitations[id := Expire(invitations[id], now)]; }
    }

    method MakeRoom(found: Option<InvitationId>, now: Time) returns (error: Option<ServiceError>)
      requires found.Some? ==> found.value < |invitations|
      modifies this`invitations
      ensures match Clear(old(invitations), found, now)
              case Ok(rows) => invitations == rows && error.None?
              case Err(e) => error == Some(e) && invitations == old(invitations)
    {
      if found.None? { return None; }
      var expired := Materialize(found.value, now);
      return if expired then None else Some(Conflict);
    }

    method IssueLocked(row: Invitation) returns (error: Option<ServiceError>)
      modifies this`invitations, this`deliveries
      ensures Committed(Issue(old(State()), old(invitations), row), old(State()), State(), error)
    {
      if !Insertable(invitations, row) { return Some(Conflict); }
      invitations, deliveries := invitations + [row], deliveries + [Scheduled];
      return None;
    }

    method ClearTheWay(profile: ProfileId, email: string, matches: set<UserId>, now: Time)
        returns (error: Option<ServiceError>, recipient: Option<UserId>)
      modifies this`invitations
      ensures match MakeWay(old(Rows()), old(invitations), profile, email, matches, now)
              case Ok((rows, found)) => invitations == rows && recipient == found && error.None?
              case Err(e) => error == Some(e)
    {
      recipient := None;
      error := MakeRoom(PendingForEmail(invitations, profile, email), now);
      if error.Some? { return; }
      var resolved := ResolveUnique(Rows(), matches, email);
      if resolved.Err? { error := Some(resolved.error); return; }
      recipient := resolved.value;
      if recipient.Some? && HasActiveMembership(Rows(), profile, recipient.value) { error := Some(Conflict); return; }
      error := MakeRoom(PendingForUser(invitations, profile, recipient), now);
    }

    method CreateInvitation(seen: Tenant, actor: UserId, profile: ProfileId, email: string, role: ProfileRole,
                            available: bool,
                            matches: set<UserId>, now: Time, insertedAt: Time) returns (error: Option<ServiceError>)
      requires Valid() && now <= insertedAt
      modifies this
      ensures Committed(Create(old(State()), seen, actor, profile, email, role, available, matches, now, insertedAt),
                        old(State()), State(), error)
      ensures Valid()
      ensures State() == Step(old(State()), CreateEvent(seen, actor, profile, email, role, available, matches, now,
                                                        insertedAt))
    {
      StepKeeps(State(), CreateEvent(seen, actor, profile, email, role, available, matches, now, insertedAt));
      error := SaveInvitation(seen, actor, profile, email, role, available, matches, now, insertedAt);
    }

    /** The transaction of `create_profile_invitation`. */
    method SaveInvitation(seen: Tenant, actor: UserId, profile: ProfileId, email: string, role: ProfileRole,
                          available: bool,
                            matches: set<UserId>, now: Time, insertedAt: Time) returns (error: Option<ServiceError>)
      modifies this
      ensures Committed(Create(old(State()), seen, actor, profile, email, role, available, matches, now, insertedAt),
                        old(State()), State(), error)
    {
      var saved := State();
      if email == "" || role.Owner? { return Some(Invalid); }
      var locked := LockManager(seen, Rows(), actor, profile, Some(role));
      if locked.Err? { return Some(locked.error); }
      if !available { return Some(Unavailable); }
      if LimitReached(Rows(), invitations, actor, email, now) { return Some(RateLimited); }
      var recipient;
      error, recipient := ClearTheWay(profile, email, matches, now);
      if error.None? {
        error := IssueLocked(NewRow(profile, locked.value, email, role, recipient, now, insertedAt, None));
      }
      if error.Some? { Rollback(saved); }
    }

    method ResendInvitation(seen: Tenant, actor: UserId, profile: ProfileId, id: InvitationId, available: bool,
                            matches: set<UserId>, now: Time, insertedAt: Time) returns (error: Option<ServiceError>)
      requires Valid() && now <= insertedAt
      modifies this
      ensures Committed(Resend(old(State()), seen, actor, profile, id, available, matches, now, insertedAt),
                        old(State()), State(), error)
      ensures Valid()
      ensures State() == Step(old(State()), ResendEvent(seen, actor, profile, id, available, matches, now, insertedAt))
    {
      StepKeeps(State(), ResendEvent(seen, actor, profile, id, available, matches, now, insertedAt));
      error := SaveReplacement(seen, actor, profile, id, available, matches, now, insertedAt);
    }

    /** The transaction of `resend_profile_invitation`. */
    method SaveReplacement(seen: Tenant, actor: UserId, profile: ProfileId, id: InvitationId, available: bool,
                            matches: set<UserId>, now: Time, insertedAt: Time) returns (error: Option<ServiceError>)
      modifies this
      ensures Committed(Resend(old(State()), seen, actor, profile, id, available, matches, now, insertedAt),
                        old(State()), State(), error)
    {
      var saved := State();
      var locked := LockInvitation(State(), seen, actor, profile, id);
      if locked.Err? { return Some(locked.error); }
      if !available { return Some(Unavailable); }
      var row := invitations[id];
      var expired := Materialize(id, now);
      error := CheckResend(saved, id, actor, now);
      if error.None? {
        if invitations[id].status.Pending? { invitations := invitations[id := Revoke(invitations[id], now, actor)]; }
        assert invitations == saved.rows[id := Retired(row, now, actor)];
        var resolved := ResolveUnique(Rows(), matches, row.email);
        if resolved.Err? {
          error := Some(resolved.error);
        } else if resolved.value.Some? && HasActiveMembership(Rows(), profile, resolved.value.value) {
          error := Some(Conflict);
        } else {
          error := IssueLocked(NewRow(profile, locked.value, row.email, row.role, resolved.value, now, insertedAt,
                                      Some(id)));
        }
      }
      if error.Some? { Rollback(saved); }
    }

    /** Whether the row may be replaced and the limits allow it; expiring a row changes neither answer. */
    method CheckResend(saved: Office, id: InvitationId, actor: UserId, now: Time) returns (error: Option<ServiceError>)
      requires id < |saved.rows| && Rows() == saved.tenant
      requires invitations == if Overdue(saved.rows[id], now) then saved.rows[id := Expire(saved.rows[id], now)]
               else saved.rows
      ensures error == (if !saved.rows[id].status.Pending? && !saved.rows[id].status.Expired? then Some(Conflict)
                        else if exists i ::
                          0 <= i < |saved.rows| && saved.rows[i].predecessor == Some(id) then Some(Conflict)
                        else if LimitReached(saved.tenant, saved.rows, actor, saved.rows[id].email, now)
                            then Some(RateLimited)
                        else None)
    {
      if !invitations[id].status.Pending? && !invitations[id].status.Expired? { return Some(Conflict); }
      assert forall i :: 0 <= i < |invitations| ==> invitations[i].predecessor == saved.rows[i].predecessor;
      if exists i :: 0 <= i < |invitations| && invitations[i].predecessor == Some(id) { return Some(Conflict); }
      CountsAlike(saved.tenant, saved.rows, invitations, ByInviter(actor), now - WINDOW);
      CountsAlike(saved.tenant, saved.rows, invitations, ByRecipient(saved.rows[id].email), now - WINDOW);
      return if LimitReached(Rows(), invitations, actor, invitations[id].email, now) then Some(RateLimited) else None;
    }

    method RevokeInvitation(seen: Tenant, actor: UserId, profile: ProfileId, id: InvitationId, now: Time)
        returns (error: Option<ServiceError>)
      requires Valid()
      modifies this`invitations
      ensures Outcome(State(), error) == Invitations.RevokeInvitation(old(State()), seen, actor, profile, id, now)
      ensures Valid()
      ensures State() == Step(old(State()), RevokeEvent(seen, actor, profile, id, now))
    {
      StepKeeps(State(), RevokeEvent(seen, actor, profile, id, now));
      error := SaveRevocation(seen, actor, profile, id, now);
    }

    /** The transaction of `revoke_profile_invitation`. */
    method SaveRevocation(seen: Tenant, actor: UserId, profile: ProfileId, id: InvitationId, now: Time)
        returns (error: Option<ServiceError>)
      modifies this`invitations
      ensures Outcome(State(), error) == Invitations.RevokeInvitation(old(State()), seen, actor, profile, id, now)
    {
      var locked := LockInvitation(State(), seen, actor, profile, id);
      if locked.Err? { return Some(locked.error); }
      var expired := Materialize(id, now);
      if expired { return Some(Conflict); }
      if !invitations[id].status.Pending? { return Some(Conflict); }
      invitations := invitations[id := Revoke(invitations[id], now, actor)];
      return None;
    }

    /** The membership is started, stale roles are taken away, and the row ends, in one transaction. */
    method AcceptInvitation(actor: UserId, token: Option<InvitationId>, matches: set<UserId>, now: Time,
                            spare: MembershipId)
        returns (error: Option<ServiceError>)
      requires Valid()
      modifies this`invitations, this`memberships, this`members
      ensures Outcome(State(), error) == Accept(old(State()), actor, token, matches, now, spare)
      ensures Valid()
      ensures State() == Step(old(State()), AcceptEvent(actor, token, matches, now, spare))
    {
      StepKeeps(State(), AcceptEvent(actor, token, matches, now, spare));
      error := SaveAcceptance(actor, token, matches, now, spare);
    }

    /** The transaction of `accept_profile_invitation`. */
    method SaveAcceptance(actor: UserId, token: Option<InvitationId>, matches: set<UserId>, now: Time,
                            spare: MembershipId)
        returns (error: Option<ServiceError>)
      modifies this`invitations, this`memberships, this`members
      ensures Outcome(State(), error) == Accept(old(State()), actor, token, matches, now, spare)
    {
      if token.None? || !Usable(State(), actor, token.value, matches) { return Some(Conflict); }
      var expired := Materialize(token.value, now);
      if expired { return Some(Conflict); }
      var row := invitations[token.value];
      if !InviterStands(Rows(), row) { return Some(Conflict); }
      error := AdmitLocked(actor, row.profile, row.role, spare);
      if error.Some? { return; }
      invitations :=
          invitations[token.value :=
                      row.(status := Accepted, accepted := Some(Stamp(now, actor)), recipient := Some(actor))];
    }

    method AdmitLocked(user: UserId, profile: ProfileId, role: ProfileRole, spare: MembershipId)
        returns (error: Option<ServiceError>)
      modifies this`memberships, this`members
      ensures Served(Admit(old(Rows()), user, profile, role, spare), old(State()), State(), error)
    {
      var rows := MembershipsOf(Rows(), profile, user);
      if exists m :: m in rows && memberships[m].active { return Some(Conflict); }
      if |rows| > 1 { return Some(Conflict); }
      ghost var t := Rows();
      var only := First(rows);
      if only.Some? {
        var row := memberships[only.value];
        if row.role.Owner? || row.role != role { return Some(Conflict); }
        memberships := memberships[only.value := row.(active := true)];
      } else {
        if spare in memberships { return Some(Conflict); }
        memberships := memberships[spare := Membership(profile, user, role, true)];
      }
      RevokeStaleAccess(profile, user);
      assert members == Ousted(t, profile, user);
      return None;
    }

    method DeclineInvitation(actor: UserId, token: Option<InvitationId>, matches: set<UserId>, now: Time)
        returns (error: Option<ServiceError>)
      requires Valid()
      modifies this`invitations
      ensures Outcome(State(), error) == Decline(old(State()), actor, token, matches, now)
      ensures Valid()
      ensures State() == Step(old(State()), DeclineEvent(actor, token, matches, now))
    {
      StepKeeps(State(), DeclineEvent(actor, token, matches, now));
      error := SaveRefusal(actor, token, matches, now);
    }

    /** The transaction of `decline_profile_invitation`. */
    method SaveRefusal(actor: UserId, token: Option<InvitationId>, matches: set<UserId>, now: Time)
        returns (error: Option<ServiceError>)
      modifies this`invitations
      ensures Outcome(State(), error) == Decline(old(State()), actor, token, matches, now)
    {
      if token.None? || !Usable(State(), actor, token.value, matches) { return Some(Conflict); }
      var expired := Materialize(token.value, now);
      if expired { return Some(Conflict); }
      var row := invitations[token.value];
      invitations :=
          invitations[token.value :=
                      row.(status := Declined, declined := Some(Stamp(now, actor)), recipient := Some(actor))];
      return None;
    }

    // ----- delivery -----

    method ClaimDelivery(id: InvitationId, at: Time)
      requires Valid()
      modifies this`invitations, this`deliveries
      ensures State() == Invitations.ClaimDelivery(old(State()), id, at)
      ensures Valid()
      ensures State() == Step(old(State()), ClaimEvent(id, at))
    {
      DeliveryKeeps(State(), id, false, at);
      RecordClaim(id, at);
    }

    /** The first transaction of the callback. */
    method RecordClaim(id: InvitationId, at: Time)
      modifies this`invitations, this`deliveries
      ensures State() == Invitations.ClaimDelivery(old(State()), id, at)
    {
      ghost var next := Invitations.ClaimDelivery(State(), id, at);
      if id >= |invitations| || id >= |deliveries| || !deliveries[id].Scheduled? { return; }
      var row := invitations[id];
      if row.status.Pending? && row.expiresAt > at {
        invitations := invitations[id := row.(mail := row.mail.(delivery := Queued, attemptedAt := Some(at)))];
        deliveries := deliveries[id := Claimed(at)];
      } else {
        deliveries := deliveries[id := Done];
      }
      assert State() == next;
    }

    method FinishDelivery(id: InvitationId, sent: bool, at: Time)
      requires Valid()
      modifies this`invitations, this`deliveries
      ensures State() == Invitations.FinishDelivery(old(State()), id, sent, at)
      ensures Valid()
      ensures State() == Step(old(State()), FinishEvent(id, sent, at))
    {
      DeliveryKeeps(State(), id, sent, at);
      RecordOutcome(id, sent, at);
    }

    /** The last transaction of the callback. */
    method RecordOutcome(id: InvitationId, sent: bool, at: Time)
      modifies this`invitations, this`deliveries
      ensures State() == Invitations.FinishDelivery(old(State()), id, sent, at)
    {
      ghost var next := Invitations.FinishDelivery(State(), id, sent, at);
      if id >= |invitations| || id >= |deliveries| || !deliveries[id].Claimed? { return; }
      var row, claimed := invitations[id], deliveries[id].at;
      deliveries := deliveries[id := Done];
      if row.status.Pending? {
        var mail := if sent then Mail(Sent, Some(claimed), Some(at)) else Mail(Failed, Some(claimed), None);
        invitations := invitations[id := row.(mail := mail)];
      }
      assert State() == next;
    }
  }
}
