/** Profiles, memberships and Workspaces: the services that change them, as functions of the rows
    they find under their locks and of the rows they saw before. */
module Organisation {
  import opened Prelude
  import opened Tenancy

  /** What the unlocked resolution of a Workspace context read, query by query. */
  datatype Glance = Glance(first: Tenant, refresh: Tenant, visible: Tenant, roles: Tenant)

  /** A calendar month is named by a date, which must be its first day. */
  datatype Period = Period(month: nat, day: nat)

  // ----- profiles and memberships -----

  function CreateProfile(t: Tenant, owner: UserId, profile: ProfileId,
                         membership: MembershipId): Result<Tenant, ServiceError> {
    if !ActiveUser(t, owner) then Err(Invalid)
    else if profile in t.profiles || membership in t.memberships then Err(Conflict)
    else Ok(t.(profiles := t.profiles[profile := Active],
               memberships := t.memberships[membership := Membership(profile, owner, Owner, true)]))
  }

  /** Resolve without locks, then lock the Profile and the actor's membership. */
  function LockMembership(seen: Tenant, t: Tenant, actor: UserId,
                          profile: ProfileId): Result<ProfileContext, ServiceError> {
    match ResolveProfile(seen, actor, profile)
    case None => Err(NotFound)
    case Some(scope) =>
      if profile !in t.profiles then Err(NotFound)
      else if !t.profiles[profile].Active? then Err(Forbidden)
      else if !LiveMembership(t, scope.membership, actor, profile) then Err(NotFound)
      else Ok(scope)
  }

  predicate ActiveOwner(t: Tenant, id: MembershipId, profile: ProfileId) {
    id in t.memberships && t.memberships[id].profile == profile && t.memberships[id].role.Owner?
    && t.memberships[id].active && ActiveUser(t, t.memberships[id].user)
  }

  predicate ActiveManager(t: Tenant, id: MembershipId, profile: ProfileId, user: UserId) {
    id in t.memberships && t.memberships[id].profile == profile && t.memberships[id].user == user
    && IsManager(t.memberships[id].role) && t.memberships[id].active && ActiveUser(t, user)
  }

  predicate RemovesOwner(t: Tenant, row: Membership, next: Membership) {
    row.role.Owner? && row.active && ActiveUser(t, row.user) && (!next.role.Owner? || !next.active)
  }

  predicate RemovesManager(row: Membership, next: Membership) {
    row.active && IsManager(row.role) && (!next.active || !IsManager(next.role))
  }

  function UpdateMembership(seen: Tenant, t: Tenant, actor: UserId, profile: ProfileId, id: MembershipId,
                            role: Option<ProfileRole>, active: Option<bool>): Result<Tenant, ServiceError> {
    match LockMembership(seen, t, actor, profile)
    case Err(e) => Err(e)
    case Ok(scope) =>
      var actorRole := t.memberships[scope.membership].role;
      if !IsManager(actorRole) then Err(Forbidden)
      else if id !in t.memberships || t.memberships[id].profile != profile then Err(NotFound)
      else
        var row := t.memberships[id];
        var next := row.(role := if role.Some? then role.value else row.role,
                         active := if active.Some? then active.value else row.active);
        if !row.active && next.active then Err(Invalid)
        else if next.role.Owner? && next.active && !ActiveUser(t, row.user) then Err(Invalid)
        else if actorRole.Admin? && (!row.role.Member? || !next.role.Member?) then Err(Forbidden)
        else if RemovesOwner(t, row, next)
            && !(exists other :: other in t.memberships && other != id && ActiveOwner(t, other, profile))
        then Err(Invalid)
        else if RemovesManager(row, next)
                && (exists w ::
                      w in t.workspaces && t.workspaces[w].profile == profile && t.workspaces[w].owner == row.user)
        then Err(Invalid)
        else Ok(t.(memberships := t.memberships[id := next]))
  }

  function SetProfileStatus(seen: Tenant, t: Tenant, actor: UserId, profile: ProfileId,
                            next: Lifecycle): Result<Tenant, ServiceError> {
    match ResolveProfile(seen, actor, profile)
    case None => Err(NotFound)
    case Some(scope) =>
      if profile !in t.profiles then Err(NotFound)
      else if !LiveMembership(t, scope.membership, actor, profile) || !t.memberships[scope.membership].role.Owner?
          then Err(Forbidden)
      else
        match ResolveProfile(t, actor, profile)
        case None => Err(NotFound)
        case Some(locked) => if !locked.role.Owner? then Err(Forbidden)
             else Ok(t.(profiles := t.profiles[profile := next]))
  }

  // ----- workspaces -----

  function CreateWorkspace(seen: Tenant, t: Tenant, actor: UserId, profile: ProfileId, period: Option<Period>,
                           id: WorkspaceId): Result<Tenant, ServiceError> {
    match LockMembership(seen, t, actor, profile)
    case Err(e) => Err(e)
    case Ok(scope) =>
      if t.memberships[scope.membership].role != scope.role then Err(NotFound)
      else if !IsManager(scope.role) then Err(Forbidden)
      else if period.None? then Err(Invalid)
      else if period.value.day == 1
              && (exists w ::
                    w in t.workspaces && t.workspaces[w].profile == profile
                    && t.workspaces[w].period == period.value.month)
      then Err(Conflict)
      else if period.value.day != 1 then Err(Invalid)
      else if id in t.workspaces then Err(Conflict)
      else Ok(t.(workspaces := t.workspaces[id := Workspace(profile, actor, period.value.month, Active)]))
  }

  function Lock(g: Glance, t: Tenant, actor: UserId, profile: ProfileId,
                workspace: WorkspaceId): Result<Context, ServiceError> {
    LockMutationContext(g.first, g.refresh, g.visible, g.roles, t, actor, profile, workspace)
  }

  predicate CanManageLifecycle(t: Tenant, c: Context) {
    IsCurrent(t, c) && IsManager(c.scope.role) && c.scope.profile in t.profiles && t.profiles[c.scope.profile].Active?
  }

  /** Saving a Workspace re-validates that its owner is an active manager of the Profile. */
  function SetWorkspaceStatus(g: Glance, t: Tenant, actor: UserId, profile: ProfileId, workspace: WorkspaceId,
                              next: Lifecycle): Result<Tenant, ServiceError> {
    match Lock(g, t, actor, profile, workspace)
    case Err(e) => Err(e)
    case Ok(c) =>
      if !CanManageLifecycle(t, c) || workspace !in t.workspaces then Err(Forbidden)
      else if t.workspaces[workspace].status == next then Ok(t)
      else if !(exists id :: id in t.memberships && ActiveManager(t, id, profile, t.workspaces[workspace].owner))
          then Err(Invalid)
      else Ok(t.(workspaces := t.workspaces[workspace := t.workspaces[workspace].(status := next)]))
  }

  // ----- workspace members -----

  /** The roles an actor may give or take away. */
  predicate Assignable(actor: ProfileRole, role: WorkspaceRole) {
    if IsManager(actor) then IsEffective(role) else role.WsMember? || role.WsViewer?
  }

  function LockMembers(g: Glance, t: Tenant, actor: UserId, profile: ProfileId,
                       workspace: WorkspaceId): Result<Context, ServiceError> {
    match Lock(g, t, actor, profile, workspace)
    case Err(e) => Err(e)
    case Ok(c) => if CanMutateMembers(t, c) then Ok(c) else Err(Forbidden)
  }

  function AddMember(g: Glance, t: Tenant, actor: UserId, profile: ProfileId, workspace: WorkspaceId,
                     target: MembershipId,
                     role: WorkspaceRole): Result<Tenant, ServiceError> {
    match LockMembers(g, t, actor, profile, workspace)
    case Err(e) => Err(e)
    case Ok(c) =>
      if !Assignable(c.scope.role, role) then Err(Forbidden)
      else if target !in t.memberships || !LiveMembership(t, target, t.memberships[target].user, profile)
          then Err(Invalid)
      else
        var key := (workspace, t.memberships[target].user);
        if key in t.members && t.members[key].active then Err(Conflict)
        else Ok(t.(members := t.members[key := WorkspaceMember(role, true)]))
  }

  /** The active row a manager wants to change, once its user is known to be a live member of the Profile. */
  function Manageable(t: Tenant, c: Context, profile: ProfileId, workspace: WorkspaceId,
                      user: UserId): Result<WorkspaceMember, ServiceError> {
    if (workspace, user) !in t.members || !t.members[(workspace, user)].active then Err(NotFound)
    else if ResolveProfile(t, user, profile).None? then Err(Invalid)
    else if !Assignable(c.scope.role, t.members[(workspace, user)].role) then Err(Forbidden)
    else Ok(t.members[(workspace, user)])
  }

  function UpdateMember(g: Glance, t: Tenant, actor: UserId, profile: ProfileId, workspace: WorkspaceId, user: UserId,
                        role: WorkspaceRole): Result<Tenant, ServiceError> {
    match LockMembers(g, t, actor, profile, workspace)
    case Err(e) => Err(e)
    case Ok(c) =>
      match Manageable(t, c, profile, workspace, user)
      case Err(e) => Err(e)
      case Ok(row) =>
        if !Assignable(c.scope.role, role) then Err(Forbidden)
        else Ok(t.(members := t.members[(workspace, user) := row.(role := role)]))
  }

  function RevokeMember(g: Glance, t: Tenant, actor: UserId, profile: ProfileId, workspace: WorkspaceId,
                        user: UserId): Result<Tenant, ServiceError> {
    match LockMembers(g, t, actor, profile, workspace)
    case Err(e) => Err(e)
    case Ok(c) =>
      match Manageable(t, c, profile, workspace, user)
      case Err(e) => Err(e)
      case Ok(row) => Ok(t.(members := t.members[(workspace, user) := row.(active := false)]))
  }

  // ----- joining by invitation -----

  predicate InProfile(t: Tenant, workspace: WorkspaceId, profile: ProfileId) {
    workspace in t.workspaces && t.workspaces[workspace].profile == profile
  }

  /** Every Workspace role a returning user held in the Profile is taken away. */
  function Ousted(t: Tenant, profile: ProfileId, user: UserId): map<(WorkspaceId, UserId), WorkspaceMember> {
    map k | k in t.members ::
      if k.1 == user && InProfile(t, k.0, profile) then t.members[k].(active := false) else t.members[k]
  }

  function MembershipsOf(t: Tenant, profile: ProfileId, user: UserId): set<MembershipId> {
    set id | id in t.memberships && t.memberships[id].profile == profile && t.memberships[id].user == user
  }

  /** Reactivate the user's only membership, or insert one under the fresh key `id`. */
  function Admit(t: Tenant, user: UserId, profile: ProfileId, role: ProfileRole,
                 id: MembershipId): Result<Tenant, ServiceError> {
    var rows := MembershipsOf(t, profile, user);
    if (exists m :: m in rows && t.memberships[m].active) || |rows| > 1 then Err(Conflict)
    else
      match First(rows)
      case Some(m) =>
        if t.memberships[m].role.Owner? || t.memberships[m].role != role then Err(Conflict)
        else Ok(t.(memberships := t.memberships[m := t.memberships[m].(active := true)],
                   members := Ousted(t, profile, user)))
      case None =>
        if id in t.memberships then Err(Conflict)
        else Ok(t.(memberships := t.memberships[id := Membership(profile, user, role, true)],
                   members := Ousted(t, profile, user)))
  }

  // ----- calls -----

  datatype OrgCall =
    | NewProfile(owner: UserId, profile: ProfileId, membership: MembershipId)
    | EditMembership(seen: Tenant, actor: UserId, profile: ProfileId, membership: MembershipId,
                     role: Option<ProfileRole>, active: Option<bool>)
    | ProfileStatus(seen: Tenant, actor: UserId, profile: ProfileId, next: Lifecycle)
    | NewWorkspace(seen: Tenant, actor: UserId, profile: ProfileId, period: Option<Period>, workspace: WorkspaceId)
    | WorkspaceStatus(glance: Glance, actor: UserId, profile: ProfileId, workspace: WorkspaceId, next: Lifecycle)
    | Add(glance: Glance, actor: UserId, profile: ProfileId, workspace: WorkspaceId, target: MembershipId,
          given: WorkspaceRole)
    | Change(glance: Glance, actor: UserId, profile: ProfileId, workspace: WorkspaceId, user: UserId,
             given: WorkspaceRole)
    | Remove(glance: Glance, actor: UserId, profile: ProfileId, workspace: WorkspaceId, user: UserId)
    | Accounts(users: map<UserId, User>)

  /** Accounts may appear and change their addresses, but none is deactivated. */
  predicate NobodyDeactivated(t: Tenant, users: map<UserId, User>) {
    forall u :: u in t.users ==> u in users && (t.users[u].active ==> users[u].active)
  }

  function Serve(t: Tenant, call: OrgCall): Result<Tenant, ServiceError> {
    match call
    case NewProfile(owner, profile, membership) => CreateProfile(t, owner, profile, membership)
    case EditMembership(seen, actor, profile, id, role, active) =>
      UpdateMembership(seen, t, actor, profile, id, role, active)
    case ProfileStatus(seen, actor, profile, next) => SetProfileStatus(seen, t, actor, profile, next)
    case NewWorkspace(seen, actor, profile, period, id) => CreateWorkspace(seen, t, actor, profile, period, id)
    case WorkspaceStatus(g, actor, profile, w, next) => SetWorkspaceStatus(g, t, actor, profile, w, next)
    case Add(g, actor, profile, w, target, role) => AddMember(g, t, actor, profile, w, target, role)
    case Change(g, actor, profile, w, user, role) => UpdateMember(g, t, actor, profile, w, user, role)
    case Remove(g, actor, profile, w, user) => RevokeMember(g, t, actor, profile, w, user)
    case Accounts(users) => if NobodyDeactivated(t, users) then Ok(t.(users := users)) else Err(Invalid)
  }
}
