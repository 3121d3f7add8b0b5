/** Tenant rows, access contexts and the read policy. Every function reads one snapshot of the
    rows, except where a service reads several before it holds its locks. */
module Tenancy {
  import opened Prelude

  type UserId = nat
  type ProfileId = nat
  type WorkspaceId = nat
  type MembershipId = nat

  datatype ProfileRole = Owner | Admin | Member
  datatype WorkspaceRole = WsOwner | WsAdmin | WsMember | WsViewer
  datatype Lifecycle = Active | Archived

  /** An address and its canonical (stripped, case-folded) identity. */
  datatype Email = Email(canonical: string, spelling: string)
  datatype User = User(active: bool, email: Email)
  datatype Membership = Membership(profile: ProfileId, user: UserId, role: ProfileRole, active: bool)
  datatype Workspace = Workspace(profile: ProfileId, owner: UserId, period: nat, status: Lifecycle)
  datatype WorkspaceMember = WorkspaceMember(role: WorkspaceRole, active: bool)

  /** The tenant tables. Workspace members are keyed by their unique (workspace, user) pair. */
  datatype Tenant = Tenant(
    users: map<UserId, User>,
    profiles: map<ProfileId, Lifecycle>,
    workspaces: map<WorkspaceId, Workspace>,
    memberships: map<MembershipId, Membership>,
    members: map<(WorkspaceId, UserId), WorkspaceMember>)

  datatype ServiceError = NotFound | Forbidden | Invalid | Conflict | RateLimited | Unavailable

  datatype ProfileContext = ProfileContext(user: UserId, profile: ProfileId, membership: MembershipId,
                                           role: ProfileRole)
  datatype Context = Context(scope: ProfileContext, workspace: WorkspaceId, workspaceRole: Option<WorkspaceRole>)

  /** `matches` are the accounts a case-insensitive lookup finds; only a sole exact one counts. */
  function UniqueMatch(emails: map<UserId, Email>, matches: set<UserId>,
                       canonical: string): Result<Option<UserId>, ServiceError> {
    var found := matches * emails.Keys;
    match First(found)
    case None => Ok(None)
    case Some(u) =>
      if |found| != 1 then Err(Conflict) else Ok(if emails[u].canonical == canonical then Some(u) else None)
  }

  predicate ActiveUser(t: Tenant, user: UserId) { user in t.users && t.users[user].active }

  predicate IsManager(role: ProfileRole) { role.Owner? || role.Admin? }

  predicate IsEffective(role: WorkspaceRole) { role.WsAdmin? || role.WsMember? || role.WsViewer? }

  /** `uniq_active_profile_user`. */
  predicate UniqueActive(t: Tenant) {
    forall a, b ::
      (a in t.memberships && b in t.memberships && t.memberships[a].active && t.memberships[b].active
       && t.memberships[a].profile == t.memberships[b].profile
       && t.memberships[a].user == t.memberships[b].user) ==> a == b
  }

  predicate LiveMembership(t: Tenant, id: MembershipId, user: UserId, profile: ProfileId) {
    id in t.memberships && t.memberships[id].profile == profile && t.memberships[id].user == user
    && ActiveUser(t, user) && t.memberships[id].active
  }

  predicate LiveMember(t: Tenant, workspace: WorkspaceId, user: UserId) {
    (workspace, user) in t.members && t.members[(workspace, user)].active
    && IsEffective(t.members[(workspace, user)].role)
  }

  // ----- resolution -----

  function ResolveProfile(t: Tenant, user: UserId, profile: ProfileId): Option<ProfileContext> {
    match First(set id | id in t.memberships && LiveMembership(t, id, user, profile))
    case None => None
    case Some(id) => Some(ProfileContext(user, profile, id, t.memberships[id].role))
  }

  function RefreshProfile(t: Tenant, c: ProfileContext): Option<ProfileContext> {
    if LiveMembership(t, c.membership, c.user, c.profile)
    then Some(c.(role := t.memberships[c.membership].role)) else None
  }

  predicate WorkspaceVisible(t: Tenant, c: ProfileContext, workspace: WorkspaceId) {
    workspace in t.workspaces && t.workspaces[workspace].profile == c.profile
    && LiveMembership(t, c.membership, c.user, c.profile) && t.memberships[c.membership].role == c.role
    && (IsManager(c.role) || LiveMember(t, workspace, c.user))
  }

  /** `workspaces_visible_to`; `None` where the context no longer resolves. */
  function WorkspacesVisibleTo(t: Tenant, c: ProfileContext): Option<set<WorkspaceId>> {
    match RefreshProfile(t, c)
    case None => None
    case Some(current) => Some(set w | w in t.workspaces && WorkspaceVisible(t, current, w))
  }

  /** The three reads of `resolve_workspace_access_context`, each of its own snapshot. */
  function ResolveWorkspace(refresh: Tenant, visible: Tenant, roles: Tenant, c: ProfileContext,
                            workspace: WorkspaceId): Option<Context> {
    match RefreshProfile(refresh, c)
    case None => None
    case Some(current) =>
      if !WorkspaceVisible(visible, current, workspace) then None
      else if IsManager(current.role) then Some(Context(current, workspace, None))
      else if workspace in roles.workspaces && roles.workspaces[workspace].profile == current.profile
              && LiveMembership(roles, current.membership, current.user, current.profile)
              && roles.memberships[current.membership].role.Member? && LiveMember(roles, workspace, current.user)
      then Some(Context(current, workspace, Some(roles.members[(workspace, current.user)].role)))
      else None
  }

  /** Both resolutions at one moment. */
  function Resolve(t: Tenant, user: UserId, profile: ProfileId, workspace: WorkspaceId): Option<Context> {
    match ResolveProfile(t, user, profile)
    case None => None
    case Some(c) => ResolveWorkspace(t, t, t, c, workspace)
  }

  // ----- revalidation and capabilities -----

  predicate IsCurrent(t: Tenant, c: Context) {
    var p := c.scope;
    if IsManager(p.role) then
      c.workspaceRole.None? && c.workspace in t.workspaces && t.workspaces[c.workspace].profile == p.profile
      && LiveMembership(t, p.membership, p.user, p.profile) && t.memberships[p.membership].role == p.role
    else
      c.workspaceRole.Some? && IsEffective(c.workspaceRole.value)
      && (c.workspace, p.user) in t.members && t.members[(c.workspace, p.user)].active
      && t.members[(c.workspace, p.user)].role == c.workspaceRole.value
      && c.workspace in t.workspaces && t.workspaces[c.workspace].profile == p.profile
      && LiveMembership(t, p.membership, p.user, p.profile) && t.memberships[p.membership].role.Member?
  }

  predicate CanRead(t: Tenant, c: Context) {
    IsCurrent(t, c)
    && (IsManager(c.scope.role) || (c.workspaceRole.Some? && IsEffective(c.workspaceRole.value)))
  }

  predicate HasActiveState(t: Tenant, c: Context) {
    IsCurrent(t, c) && c.workspace in t.workspaces && t.workspaces[c.workspace].profile == c.scope.profile
    && c.scope.profile in t.profiles && t.profiles[c.scope.profile].Active? && t.workspaces[c.workspace].status.Active?
  }

  predicate CanManageTasks(t: Tenant, c: Context) {
    HasActiveState(t, c) && (IsManager(c.scope.role) || c.workspaceRole == Some(WsAdmin))
  }

  predicate CanExecuteTasks(t: Tenant, c: Context) {
    HasActiveState(t, c) && c.scope.role.Member? && c.workspaceRole == Some(WsMember)
  }

  predicate CanReviewDeliverables(t: Tenant, c: Context) { CanManageTasks(t, c) }

  predicate CanMutateMembers(t: Tenant, c: Context) {
    IsCurrent(t, c) && (IsManager(c.scope.role) || c.workspaceRole == Some(WsAdmin)) && HasActiveState(t, c)
  }

  // ----- the two query encodings of the read policy -----

  /** `readable_memberships`: who may read the Tasks of a Workspace. */
  predicate Readable(t: Tenant, id: MembershipId, profile: ProfileId, workspace: WorkspaceId) {
    id in t.memberships && t.memberships[id].profile == profile && ActiveUser(t, t.memberships[id].user)
    && t.memberships[id].active
    && (IsManager(t.memberships[id].role)
        || (t.memberships[id].role.Member? && LiveMember(t, workspace, t.memberships[id].user)))
  }

  predicate ReadableBy(t: Tenant, user: UserId, profile: ProfileId, workspace: WorkspaceId) {
    exists id :: id in t.memberships && t.memberships[id].user == user && Readable(t, id, profile, workspace)
  }

  /** `notifications_visible_to` for one of the user's own notifications. */
  predicate NotificationVisible(t: Tenant, user: UserId, profile: ProfileId, workspace: WorkspaceId,
                                taskWorkspace: WorkspaceId) {
    taskWorkspace == workspace && workspace in t.workspaces && t.workspaces[workspace].profile == profile
    && ((exists id :: id in t.memberships && LiveMembership(t, id, user, profile) && IsManager(t.memberships[id].role))
        || ((exists id :: id in t.memberships && LiveMembership(t, id, user, profile) && t.memberships[id].role.Member?)
            && LiveMember(t, workspace, user)))
  }

  // ----- locking -----

  /** `lock_workspace_mutation_context`: four unlocked reads at four moments, then the rows as
      they are once the Profile, Workspace and membership locks are held. */
  function LockMutationContext(first: Tenant, refresh: Tenant, visible: Tenant, roles: Tenant, locked: Tenant,
                               actor: UserId, profile: ProfileId, workspace: WorkspaceId):
      Result<Context, ServiceError> {
    match ResolveProfile(first, actor, profile)
    case None => Err(NotFound)
    case Some(scope) =>
      match ResolveWorkspace(refresh, visible, roles, scope, workspace)
      case None => Err(NotFound)
      case Some(c) =>
        if profile !in locked.profiles then Err(NotFound)
        else if !locked.profiles[profile].Active? then Err(Forbidden)
        else if workspace !in locked.workspaces || locked.workspaces[workspace].profile != profile then Err(NotFound)
        else if !LiveMembership(locked, scope.membership, actor, profile) then Err(NotFound)
        else
          var role := locked.memberships[scope.membership].role;
          if role.Member? && !LiveMember(locked, workspace, actor) then Err(NotFound)
          else
            var workspaceRole := if role.Member? then Some(locked.members[(workspace, actor)].role) else None;
            if role == c.scope.role && workspaceRole == c.workspaceRole then Ok(c) else Err(NotFound)
  }

  // ----- theorems -----

  lemma ResolveProfileIs(t: Tenant, id: MembershipId, user: UserId, profile: ProfileId)
    requires UniqueActive(t) && LiveMembership(t, id, user, profile)
    ensures ResolveProfile(t, user, profile) == Some(ProfileContext(user, profile, id, t.memberships[id].role))
  {
    var live := set m | m in t.memberships && LiveMembership(t, m, user, profile);
    assert id in live;
  }

  /** A context is current exactly when resolving afresh gives it back: any drift fails closed. */
  lemma CurrentIsFresh(t: Tenant, c: Context)
    requires UniqueActive(t)
    ensures IsCurrent(t, c) <==> Resolve(t, c.scope.user, c.scope.profile, c.workspace) == Some(c)
    ensures CanRead(t, c) <==> IsCurrent(t, c)
  {
    var p := c.scope;
    if LiveMembership(t, p.membership, p.user, p.profile) {
      ResolveProfileIs(t, p.membership, p.user, p.profile);
    }
  }

  /** All encodings of the read policy agree; `readable_memberships` alone does not look at which
      Profile the Workspace belongs to, so that is the one condition it needs. */
  lemma ReadPolicyAgrees(t: Tenant, user: UserId, profile: ProfileId, workspace: WorkspaceId)
    requires UniqueActive(t)
    ensures var belongs := workspace in t.workspaces && t.workspaces[workspace].profile == profile;
            var resolved := Resolve(t, user, profile, workspace);
            && (resolved.Some? <==> belongs && ReadableBy(t, user, profile, workspace))
            && (resolved.Some? <==> NotificationVisible(t, user, profile, workspace, workspace))
            && (resolved.Some? <==> var scope := ResolveProfile(t, user, profile);
                                    scope.Some? && workspace in WorkspacesVisibleTo(t, scope.value).value)
            && (resolved.Some? ==> CanRead(t, resolved.value))
  {
    if id :| LiveMembership(t, id, user, profile) {
      ResolveProfileIs(t, id, user, profile);
      assert id in t.memberships && t.memberships[id].user == user;
      if ReadableBy(t, user, profile, workspace) {
        var other :| other in t.memberships && t.memberships[other].user == user
            && Readable(t, other, profile, workspace);
        assert other == id;
      }
      assert Readable(t, id, profile, workspace) ==> ReadableBy(t, user, profile, workspace);
    } else {
      assert forall m :: m in t.memberships && t.memberships[m].user == user && Readable(t, m, profile, workspace) ==>
          LiveMembership(t, m, user, profile);
    }
    var resolved := Resolve(t, user, profile, workspace);
    if resolved.Some? { CurrentIsFresh(t, resolved.value); }
  }

  /** Without that condition the encodings part: a Profile Owner is a "reader" of a foreign Workspace. */
  lemma ForeignWorkspaceIsReadableOnly()
    ensures exists t: Tenant :: UniqueActive(t) && ReadableBy(t, 0, 0, 0) && Resolve(t, 0, 0, 0).None?
  {
    var t := Tenant(map[0 := User(true, Email("a", "a"))], map[0 := Active, 1 := Active],
                    map[0 := Workspace(1, 0, 0, Active)], map[0 := Membership(0, 0, Owner, true)], map[]);
    assert Readable(t, 0, 0, 0);
    ReadPolicyAgrees(t, 0, 0, 0);
  }

  /** Whatever changed between the unlocked reads and the locks, a returned context is the one a
      fresh resolution of the locked rows gives, in an active Profile; and any other is refused. */
  lemma LockedContextIsFresh(first: Tenant, refresh: Tenant, visible: Tenant, roles: Tenant, locked: Tenant,
                             actor: UserId, profile: ProfileId, workspace: WorkspaceId)
    requires UniqueActive(locked)
    ensures var r := LockMutationContext(first, refresh, visible, roles, locked, actor, profile, workspace);
            r.Ok? ==> profile in locked.profiles && locked.profiles[profile].Active?
                      && Resolve(locked, actor, profile, workspace) == Some(r.value) && IsCurrent(locked, r.value)
    ensures var r := LockMutationContext(first, refresh, visible, roles, locked, actor, profile, workspace);
            var scope := ResolveProfile(first, actor, profile);
            var seen := if scope.Some? then ResolveWorkspace(refresh, visible, roles, scope.value, workspace) else None;
            r.Ok? <==> seen.Some? && Resolve(locked, actor, profile, workspace) == seen
                       && profile in locked.profiles && locked.profiles[profile].Active?
  {
    var scope := ResolveProfile(first, actor, profile);
    if scope.Some? {
      var seen := ResolveWorkspace(refresh, visible, roles, scope.value, workspace);
      if seen.Some? { CurrentIsFresh(locked, seen.value); }
      if LiveMembership(locked, scope.value.membership, actor, profile) {
        ResolveProfileIs(locked, scope.value.membership, actor, profile);
      }
    }
  }

  /** The locked context at one moment: resolution, locks and checks on the same rows. */
  function LockContext(t: Tenant, actor: UserId, profile: ProfileId,
                       workspace: WorkspaceId): Result<Context, ServiceError> {
    LockMutationContext(t, t, t, t, t, actor, profile, workspace)
  }

  lemma LockContextIs(t: Tenant, actor: UserId, profile: ProfileId, workspace: WorkspaceId)
    requires UniqueActive(t)
    ensures LockContext(t, actor, profile, workspace).Ok? <==>
            Resolve(t, actor, profile, workspace).Some? && profile in t.profiles && t.profiles[profile].Active?
    ensures LockContext(t, actor, profile, workspace).Ok? ==>
            var c := LockContext(t, actor, profile, workspace).value;
            Resolve(t, actor, profile, workspace) == Some(c) && IsCurrent(t, c)
            && c.scope.user == actor && c.scope.profile == profile && c.workspace == workspace
  {
  }
}
