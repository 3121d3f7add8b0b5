/** When each organisation service succeeds, the rows it leaves and what it answers otherwise, said of the
    memberships and roles of those involved. */
module OrganisationEffects {
  import opened Prelude
  import opened Tenancy
  import opened Authority
  import opened Organisation
  import opened OrganisationInvariants

  predicate Live(t: Tenant, profile: ProfileId) { profile in t.profiles && t.profiles[profile] == Active }

  predicate IsActive(t: Tenant, user: UserId) { user in t.users && t.users[user].active }

  // ----- the membership an actor acts through -----

  /** The membership was live, in some role, when it was looked up without locks. */
  ghost predicate WasHeld(seen: Tenant, id: MembershipId, actor: UserId, profile: ProfileId) {
    exists role :: Holds(seen, id, actor, profile, role)
  }

  /** The membership that was looked up is live under the locks, in this role. */
  ghost predicate ActsAs(seen: Tenant, t: Tenant, id: MembershipId, actor: UserId, profile: ProfileId,
                         role: ProfileRole) {
    WasHeld(seen, id, actor, profile) && Holds(t, id, actor, profile, role)
  }

  lemma LookedUp(seen: Tenant, id: MembershipId, actor: UserId, profile: ProfileId)
    requires UniqueActive(seen)
    ensures WasHeld(seen, id, actor, profile) <==> LiveMembership(seen, id, actor, profile)
    ensures LiveMembership(seen, id, actor, profile) ==>
              ResolveProfile(seen, actor, profile)
              == Some(ProfileContext(actor, profile, id, seen.memberships[id].role))
  {
    if LiveMembership(seen, id, actor, profile) {
      ResolveProfileIs(seen, id, actor, profile);
      assert Holds(seen, id, actor, profile, seen.memberships[id].role);
    }
  }

  /** Whoever is not seen as a member is told that there is no such Profile. */
  lemma MembershipLocked(seen: Tenant, t: Tenant, actor: UserId, profile: ProfileId)
    requires UniqueActive(seen)
    ensures var r := LockMembership(seen, t, actor, profile);
            (r.Ok? ==> Live(t, profile) && WasHeld(seen, r.value.membership, actor, profile)
                       && r.value.role == seen.memberships[r.value.membership].role
                       && r.value.membership in t.memberships
                       && ActsAs(seen, t, r.value.membership, actor, profile, t.memberships[r.value.membership].role))
            && (r.Err? ==> r.error == if profile in t.profiles && !Live(t, profile)
                                         && (exists id :: WasHeld(seen, id, actor, profile))
                                      then Forbidden else NotFound)
    ensures forall id, role :: Live(t, profile) && ActsAs(seen, t, id, actor, profile, role) ==>
              LockMembership(seen, t, actor, profile)
              == Ok(ProfileContext(actor, profile, id, seen.memberships[id].role))
  {
    var scope := ResolveProfile(seen, actor, profile);
    if scope.Some? { LookedUp(seen, scope.value.membership, actor, profile); }
    forall id | WasHeld(seen, id, actor, profile)
      ensures scope == Some(ProfileContext(actor, profile, id, seen.memberships[id].role))
    {
      LookedUp(seen, id, actor, profile);
    }
  }

  // ----- profiles -----

  lemma FoundingIs(t: Tenant, owner: UserId, profile: ProfileId, id: MembershipId)
    ensures CreateProfile(t, owner, profile, id)
            == if !IsActive(t, owner) then Err(Invalid)
               else if profile in t.profiles || id in t.memberships then Err(Conflict)
               else Ok(Tenant(t.users, t.profiles[profile := Active], t.workspaces,
                              t.memberships[id := Membership(profile, owner, Owner, true)], t.members))
  {
  }

  /** Only an Owner who still is one archives or restores a Profile, and nothing else changes. */
  lemma ProfileStatusIs(seen: Tenant, t: Tenant, actor: UserId, profile: ProfileId, next: Lifecycle)
    requires UniqueActive(seen) && UniqueActive(t)
    ensures var r := SetProfileStatus(seen, t, actor, profile, next);
            (r.Ok? <==> profile in t.profiles && exists id :: ActsAs(seen, t, id, actor, profile, Owner))
            && (r.Ok? ==> r.value == Tenant(t.users, t.profiles[profile := next], t.workspaces, t.memberships,
                                            t.members))
            && (r.Err? ==> r.error == if profile in t.profiles && exists id :: WasHeld(seen, id, actor, profile)
                                      then Forbidden else NotFound)
  {
    var scope := ResolveProfile(seen, actor, profile);
    if scope.Some? { LookedUp(seen, scope.value.membership, actor, profile); }
    forall id | WasHeld(seen, id, actor, profile)
      ensures scope == Some(ProfileContext(actor, profile, id, seen.memberships[id].role))
      ensures LiveMembership(t, id, actor, profile) ==>
                ResolveProfile(t, actor, profile) == Some(ProfileContext(actor, profile, id, t.memberships[id].role))
      ensures LiveMembership(t, id, actor, profile) <==> WasHeld(t, id, actor, profile)
    {
      LookedUp(seen, id, actor, profile);
      LookedUp(t, id, actor, profile);
    }
    assert forall id :: ActsAs(seen, t, id, actor, profile, Owner) ==>
        LiveMembership(t, id, actor, profile) && t.memberships[id].role.Owner?;
  }

  // ----- editing a membership -----

  /** The membership with the requested role and state. */
  function Edited(row: Membership, role: Option<ProfileRole>, active: Option<bool>): Membership {
    Membership(row.profile, row.user, if role == None then row.role else role.value,
               if active == None then row.active else active.value)
  }

  predicate IsAnOwner(t: Tenant, row: Membership) { row.role == Owner && row.active && IsActive(t, row.user) }

  /** Somebody other than through this membership owns the Profile. */
  ghost predicate OwnedElsewhere(t: Tenant, id: MembershipId, profile: ProfileId) {
    exists other :: other != id && other in t.memberships && t.memberships[other].profile == profile
                    && IsAnOwner(t, t.memberships[other])
  }

  predicate Leads(row: Membership) { row.active && row.role in {Owner, Admin} }

  predicate OwnsWorkspace(t: Tenant, profile: ProfileId, user: UserId) {
    exists w :: w in t.workspaces && t.workspaces[w].profile == profile && t.workspaces[w].owner == user
  }

  /** The actor's standing: Owners edit anybody, Admins only Members and only into Members. */
  predicate MayEdit(actorRole: ProfileRole, row: Membership, next: Membership) {
    actorRole == Owner || (actorRole == Admin && row.role == Member && next.role == Member)
  }

  /** What the rows demand of an edit: no reactivation, no inactive account as Owner, another Owner for the
      last one, and no Workspace left without its manager. */
  ghost predicate Harmless(t: Tenant, id: MembershipId, row: Membership, next: Membership) {
    (next.active ==> row.active)
    && (next.role == Owner && next.active ==> IsActive(t, row.user))
    && (IsAnOwner(t, row) && !IsAnOwner(t, next) ==> OwnedElsewhere(t, id, row.profile))
    && (Leads(row) && !Leads(next) ==> !OwnsWorkspace(t, row.profile, row.user))
  }

  lemma OwnerGuard(t: Tenant, id: MembershipId, row: Membership, next: Membership, profile: ProfileId)
    requires next.user == row.user && next.profile == row.profile == profile
    ensures (RemovesOwner(t, row, next)
             && !(exists other :: other in t.memberships && other != id && ActiveOwner(t, other, profile)))
            <==> IsAnOwner(t, row) && !IsAnOwner(t, next) && !OwnedElsewhere(t, id, profile)
  {
  }

  /** An edit by a manager succeeds exactly when the actor stands high enough and the edit does no harm; it
      writes the requested role and state of that one membership. */
  lemma EditIs(seen: Tenant, t: Tenant, actor: UserId, profile: ProfileId, through: MembershipId,
               actorRole: ProfileRole, id: MembershipId, role: Option<ProfileRole>, active: Option<bool>)
    requires UniqueActive(seen) && Live(t, profile) && ActsAs(seen, t, through, actor, profile, actorRole)
    ensures var r := UpdateMembership(seen, t, actor, profile, id, role, active);
            if actorRole == Member then r == Err(Forbidden)
            else if id !in t.memberships || t.memberships[id].profile != profile then r == Err(NotFound)
            else
              var row, next := t.memberships[id], Edited(t.memberships[id], role, active);
              (r.Ok? <==> MayEdit(actorRole, row, next) && Harmless(t, id, row, next))
              && (r.Ok? ==> r.value == Tenant(t.users, t.profiles, t.workspaces, t.memberships[id := next], t.members))
              && (r.Err? ==> r.error == if MayEdit(actorRole, row, next) || (next.active && !row.active)
                                           || (next.role == Owner && next.active && !IsActive(t, row.user))
                                        then Invalid else Forbidden)
  {
    MembershipLocked(seen, t, actor, profile);
    if id in t.memberships && t.memberships[id].profile == profile {
      OwnerGuard(t, id, t.memberships[id], Edited(t.memberships[id], role, active), profile);
    }
  }

  /** Without a live membership in a live Profile nothing is edited. */
  lemma EditNeedsMembership(seen: Tenant, t: Tenant, actor: UserId, profile: ProfileId, id: MembershipId,
                            role: Option<ProfileRole>, active: Option<bool>)
    requires UniqueActive(seen)
    requires !Live(t, profile) || forall through, r :: !ActsAs(seen, t, through, actor, profile, r)
    ensures UpdateMembership(seen, t, actor, profile, id, role, active)
            == Err(if profile in t.profiles && !Live(t, profile) && (exists m :: WasHeld(seen, m, actor, profile))
                   then Forbidden else NotFound)
  {
    MembershipLocked(seen, t, actor, profile);
  }

  /** The rules the rows demand are exactly those that keep an Owner per Profile and a manager behind every
      Workspace. */
  lemma HarmlessKeeps(t: Tenant, id: MembershipId, next: Membership)
    requires OrgInv(t) && id in t.memberships && next.user == t.memberships[id].user
             && next.profile == t.memberships[id].profile
    requires next.active ==> t.memberships[id].active
    requires next.role == Owner && next.active ==> IsActive(t, next.user)
    ensures Harmless(t, id, t.memberships[id], next) <==> OrgInv(t.(memberships := t.memberships[id := next]))
  {
    var after := t.(memberships := t.memberships[id := next]);
    if Harmless(t, id, t.memberships[id], next) {
      HarmlessIsEdit(t, id, next);
      EditKeeps(t, after, id, next);
    } else {
      HarmBreaks(t, id, next);
    }
  }

  lemma HarmlessIsEdit(t: Tenant, id: MembershipId, next: Membership)
    requires id in t.memberships && next.user == t.memberships[id].user && next.profile == t.memberships[id].profile
    requires Harmless(t, id, t.memberships[id], next)
    ensures EditsMembership(t, t.(memberships := t.memberships[id := next]), id, next)
  {
    if RemovesOwner(t, t.memberships[id], next) {
      var other :| other != id && other in t.memberships && t.memberships[other].profile == next.profile
                   && IsAnOwner(t, t.memberships[other]);
      assert ActiveOwner(t, other, next.profile);
    }
  }

  lemma HarmBreaks(t: Tenant, id: MembershipId, next: Membership)
    requires OrgInv(t) && id in t.memberships && next.user == t.memberships[id].user
             && next.profile == t.memberships[id].profile
    requires next.active ==> t.memberships[id].active
    requires next.role == Owner && next.active ==> IsActive(t, next.user)
    requires !Harmless(t, id, t.memberships[id], next)
    ensures !OrgInv(t.(memberships := t.memberships[id := next]))
  {
  }

  // ----- workspaces -----

  /** Somebody who managed the Profile when looked up, and manages it in the same role under the locks. */
  ghost predicate StillManages(seen: Tenant, t: Tenant, actor: UserId, profile: ProfileId) {
    exists id, role ::
      role in {Owner, Admin} && Holds(seen, id, actor, profile, role) && Holds(t, id, actor, profile, role)
  }

  predicate MonthIsFree(t: Tenant, profile: ProfileId, month: nat) {
    forall w :: w in t.workspaces && t.workspaces[w].profile == profile ==> t.workspaces[w].period != month
  }

  /** A manager whose role has not changed opens the Workspace of a free month. */
  lemma OpeningIs(seen: Tenant, t: Tenant, actor: UserId, profile: ProfileId, period: Option<Period>, id: WorkspaceId)
    requires UniqueActive(seen)
    ensures var r := CreateWorkspace(seen, t, actor, profile, period, id);
            (r.Ok? <==> Live(t, profile) && StillManages(seen, t, actor, profile) && period.Some?
                        && period.value.day == 1 && MonthIsFree(t, profile, period.value.month) && id !in t.workspaces)
            && (r.Ok? ==> r.value == Tenant(t.users, t.profiles,
                                            t.workspaces[id := Workspace(profile, actor, period.value.month, Active)],
                                            t.memberships, t.members))
            && (r.Err? && Live(t, profile) && StillManages(seen, t, actor, profile) ==>
                  r.error == if period == None || period.value.day != 1 then Invalid else Conflict)
  {
    MembershipLocked(seen, t, actor, profile);
    forall m, role | Holds(seen, m, actor, profile, role) && Holds(t, m, actor, profile, role)
      ensures ActsAs(seen, t, m, actor, profile, role) {}
  }

  /** A Member may not open one, a role that changed in between reads as no Profile, and so does no role. */
  lemma OpeningDenied(seen: Tenant, t: Tenant, actor: UserId, profile: ProfileId, period: Option<Period>,
                      id: WorkspaceId)
    requires UniqueActive(seen) && (!Live(t, profile) || !StillManages(seen, t, actor, profile))
    ensures CreateWorkspace(seen, t, actor, profile, period, id)
            == Err(if Live(t, profile)
                   then if exists m :: Holds(seen, m, actor, profile, Member) && Holds(t, m, actor, profile, Member)
                        then Forbidden else NotFound
                   else if profile in t.profiles && exists m :: WasHeld(seen, m, actor, profile)
                        then Forbidden else NotFound)
  {
    MembershipLocked(seen, t, actor, profile);
    forall m, role | Holds(seen, m, actor, profile, role) && Holds(t, m, actor, profile, role)
      ensures ActsAs(seen, t, m, actor, profile, role) {}
  }

  /** The context four unlocked reads make up. */
  ghost predicate SeenThrough(g: Glance, c: Context) {
    var p := c.scope;
    WasHeld(g.first, p.membership, p.user, p.profile)
    && Holds(g.refresh, p.membership, p.user, p.profile, p.role)
    && Holds(g.visible, p.membership, p.user, p.profile, p.role) && InProfileOf(g.visible, c.workspace, p.profile)
    && if p.role != Member then c.workspaceRole == None
       else (exists role :: role in {WsAdmin, WsMember, WsViewer} && HoldsHere(g.visible, c.workspace, p.user, role))
            && IsContext(g.roles, c)
  }

  /** What was seen still holds under the locks, in a live Profile. */
  ghost predicate Locks(g: Glance, t: Tenant, c: Context) {
    SeenThrough(g, c) && IsContext(t, c) && Live(t, c.scope.profile)
  }

  ghost predicate Glanced(g: Glance, t: Tenant, actor: UserId, profile: ProfileId, workspace: WorkspaceId, c: Context) {
    Locks(g, t, c) && c.scope.user == actor && c.scope.profile == profile && c.workspace == workspace
  }

  lemma SeenIs(g: Glance, c: Context)
    requires UniqueActive(g.first)
    ensures SeenThrough(g, c) <==>
            var p := c.scope;
            LiveMembership(g.first, p.membership, p.user, p.profile)
            && ResolveWorkspace(g.refresh, g.visible, g.roles,
                                ProfileContext(p.user, p.profile, p.membership,
                                               if p.membership in g.first.memberships
                                               then g.first.memberships[p.membership].role else p.role), c.workspace)
               == Some(c)
  {
    var p := c.scope;
    LookedUp(g.first, p.membership, p.user, p.profile);
    if p.role == Member && LiveMember(g.visible, c.workspace, p.user) {
      var role := g.visible.members[(c.workspace, p.user)].role;
      assert role in {WsAdmin, WsMember, WsViewer};
      assert HoldsHere(g.visible, c.workspace, p.user, role);
    }
  }

  /** The lock returns a context exactly when it was seen without locks and still holds under them. */
  lemma LocksExactly(g: Glance, t: Tenant, actor: UserId, profile: ProfileId, workspace: WorkspaceId, c: Context)
    requires UniqueActive(g.first) && UniqueActive(t)
    ensures Lock(g, t, actor, profile, workspace) == Ok(c) <==> Glanced(g, t, actor, profile, workspace, c)
  {
    LockedContextIsFresh(g.first, g.refresh, g.visible, g.roles, t, actor, profile, workspace);
    ResolvedExactly(t, c);
    SeenIs(g, c);
    LookedUp(g.first, c.scope.membership, c.scope.user, c.scope.profile);
    var scope := ResolveProfile(g.first, actor, profile);
    if scope.Some? { LookedUp(g.first, scope.value.membership, actor, profile); }
  }

  lemma LockDenies(g: Glance, t: Tenant, actor: UserId, profile: ProfileId, workspace: WorkspaceId)
    requires UniqueActive(g.first) && UniqueActive(t) && Lock(g, t, actor, profile, workspace).Err?
    ensures Lock(g, t, actor, profile, workspace).error
            == if profile in t.profiles && !Live(t, profile)
                  && (exists c :: SeenThrough(g, c) && c.scope.user == actor && c.scope.profile == profile
                                  && c.workspace == workspace)
               then Forbidden else NotFound
  {
    var scope := ResolveProfile(g.first, actor, profile);
    if scope.Some? {
      LookedUp(g.first, scope.value.membership, actor, profile);
      var seen := ResolveWorkspace(g.refresh, g.visible, g.roles, scope.value, workspace);
      if seen.Some? { SeenIs(g, seen.value); }
    }
    if c :| SeenThrough(g, c) && c.scope.user == actor && c.scope.profile == profile && c.workspace == workspace {
      SeenIs(g, c);
      LookedUp(g.first, c.scope.membership, actor, profile);
    }
  }

  /** The user leads the Profile through some live membership. */
  ghost predicate LedBy(t: Tenant, profile: ProfileId, user: UserId) {
    exists id :: Holds(t, id, user, profile, Owner) || Holds(t, id, user, profile, Admin)
  }

  /** An Owner or Admin archives or restores a Workspace whose owner leads the Profile. */
  lemma WorkspaceStatusIs(g: Glance, t: Tenant, actor: UserId, profile: ProfileId, workspace: WorkspaceId,
                          next: Lifecycle, c: Context)
    requires UniqueActive(g.first) && UniqueActive(t) && Glanced(g, t, actor, profile, workspace, c)
    ensures SetWorkspaceStatus(g, t, actor, profile, workspace, next)
            == if c.scope.role == Member then Err(Forbidden)
               else if t.workspaces[workspace].status != next && !LedBy(t, profile, t.workspaces[workspace].owner)
               then Err(Invalid)
               else Ok(Tenant(t.users, t.profiles,
                              t.workspaces[workspace := t.workspaces[workspace].(status := next)], t.memberships,
                              t.members))
  {
    var w := t.workspaces[workspace];
    StatusLocked(g, t, actor, profile, workspace, c);
    LedByManager(t, profile, w.owner);
    if w.status == next { assert t.workspaces[workspace := w.(status := next)] == t.workspaces; }
  }

  lemma StatusLocked(g: Glance, t: Tenant, actor: UserId, profile: ProfileId, workspace: WorkspaceId, c: Context)
    requires UniqueActive(g.first) && UniqueActive(t) && Glanced(g, t, actor, profile, workspace, c)
    ensures Lock(g, t, actor, profile, workspace) == Ok(c)
    ensures CanManageLifecycle(t, c) <==> c.scope.role != Member
  {
    LocksExactly(g, t, actor, profile, workspace, c);
    CurrentIsFresh(t, c);
    ResolvedExactly(t, c);
  }

  lemma LedByManager(t: Tenant, profile: ProfileId, user: UserId)
    ensures LedBy(t, profile, user) <==> exists id :: id in t.memberships && ActiveManager(t, id, profile, user)
  {
    forall id
      ensures (Holds(t, id, user, profile, Owner) || Holds(t, id, user, profile, Admin))
              <==> id in t.memberships && ActiveManager(t, id, profile, user)
    {
    }
  }

  /** In reachable rows the owner of a Workspace always does. */
  lemma OwnersLead(t: Tenant, workspace: WorkspaceId)
    requires OrgInv(t) && workspace in t.workspaces
    ensures LedBy(t, t.workspaces[workspace].profile, t.workspaces[workspace].owner)
  {
    var w := t.workspaces[workspace];
    var id :| ActiveManager(t, id, w.profile, w.owner);
    LedByManager(t, w.profile, w.owner);
  }

  // ----- workspace members -----

  /** Owners, Admins and the Workspace's ADMINs manage its members while it is active. */
  predicate ManagesMembers(t: Tenant, c: Context) {
    c.workspace in t.workspaces && t.workspaces[c.workspace].status == Active
    && (c.scope.role in {Owner, Admin} || c.workspaceRole == Some(WsAdmin))
  }

  /** An ADMIN of the Workspace gives and takes MEMBER and VIEWER, a manager of the Profile also ADMIN. */
  predicate MayGive(c: Context, role: WorkspaceRole) {
    role in {WsMember, WsViewer} || (role == WsAdmin && c.scope.role in {Owner, Admin})
  }

  lemma MembersLocked(g: Glance, t: Tenant, actor: UserId, profile: ProfileId, workspace: WorkspaceId, c: Context)
    requires UniqueActive(g.first) && UniqueActive(t) && Glanced(g, t, actor, profile, workspace, c)
    ensures LockMembers(g, t, actor, profile, workspace) == if ManagesMembers(t, c) then Ok(c) else Err(Forbidden)
  {
    LocksExactly(g, t, actor, profile, workspace, c);
    CurrentIsFresh(t, c);
    ResolvedExactly(t, c);
  }

  /** A caller whose context is not locked is denied as the lock says, whatever was asked. */
  lemma MembersNeedLock(g: Glance, t: Tenant, actor: UserId, profile: ProfileId, workspace: WorkspaceId)
    requires UniqueActive(g.first) && UniqueActive(t) && forall c :: !Glanced(g, t, actor, profile, workspace, c)
    ensures Lock(g, t, actor, profile, workspace).Err?
            && var e := Lock(g, t, actor, profile, workspace).error;
               (forall target, role :: AddMember(g, t, actor, profile, workspace, target, role) == Err(e))
               && (forall user, role :: UpdateMember(g, t, actor, profile, workspace, user, role) == Err(e))
               && (forall user :: RevokeMember(g, t, actor, profile, workspace, user) == Err(e))
               && (forall next :: SetWorkspaceStatus(g, t, actor, profile, workspace, next) == Err(e))
  {
    var r := Lock(g, t, actor, profile, workspace);
    if r.Ok? { LocksExactly(g, t, actor, profile, workspace, r.value); }
  }

  ghost predicate HeldBySome(t: Tenant, user: UserId, profile: ProfileId) { exists id :: WasHeld(t, id, user, profile) }

  function WithMember(t: Tenant, workspace: WorkspaceId, user: UserId, row: WorkspaceMember): Tenant {
    Tenant(t.users, t.profiles, t.workspaces, t.memberships, t.members[(workspace, user) := row])
  }

  /** Only a live member of the Profile without an active row is added, in a role the actor may give. */
  lemma AddingIs(g: Glance, t: Tenant, actor: UserId, profile: ProfileId, workspace: WorkspaceId, c: Context,
                 target: MembershipId, role: WorkspaceRole)
    requires UniqueActive(g.first) && UniqueActive(t) && Glanced(g, t, actor, profile, workspace, c)
    ensures AddMember(g, t, actor, profile, workspace, target, role)
            == if !ManagesMembers(t, c) || !MayGive(c, role) then Err(Forbidden)
               else if target !in t.memberships || !WasHeld(t, target, t.memberships[target].user, profile)
               then Err(Invalid)
               else
                 var user := t.memberships[target].user;
                 if (workspace, user) in t.members && t.members[(workspace, user)].active then Err(Conflict)
                 else Ok(WithMember(t, workspace, user, WorkspaceMember(role, true)))
  {
    MembersLocked(g, t, actor, profile, workspace, c);
    if target in t.memberships { LookedUp(t, target, t.memberships[target].user, profile); }
  }

  /** What is answered before a row of the Workspace is changed or ended. */
  ghost predicate Changeable(t: Tenant, c: Context, user: UserId, r: Result<Tenant, ServiceError>) {
    ((c.workspace, user) !in t.members || !t.members[(c.workspace, user)].active ==> r == Err(NotFound))
    && ((c.workspace, user) in t.members && t.members[(c.workspace, user)].active ==>
          (!HeldBySome(t, user, c.scope.profile) ==> r == Err(Invalid))
          && (HeldBySome(t, user, c.scope.profile) && !MayGive(c, t.members[(c.workspace, user)].role) ==>
                r == Err(Forbidden)))
  }

  /** An active row of a live member whose role the actor may give. */
  ghost predicate Held(t: Tenant, c: Context, user: UserId) {
    (c.workspace, user) in t.members && t.members[(c.workspace, user)].active
    && HeldBySome(t, user, c.scope.profile) && MayGive(c, t.members[(c.workspace, user)].role)
  }

  lemma ResolvesHeld(t: Tenant, user: UserId, profile: ProfileId)
    requires UniqueActive(t)
    ensures ResolveProfile(t, user, profile).Some? <==> HeldBySome(t, user, profile)
  {
    var r := ResolveProfile(t, user, profile);
    if r.Some? { LookedUp(t, r.value.membership, user, profile); }
    if id :| WasHeld(t, id, user, profile) { LookedUp(t, id, user, profile); }
  }

  lemma ChangingIs(g: Glance, t: Tenant, actor: UserId, profile: ProfileId, workspace: WorkspaceId, c: Context,
                   user: UserId, role: WorkspaceRole)
    requires UniqueActive(g.first) && UniqueActive(t) && Glanced(g, t, actor, profile, workspace, c)
    ensures var r := UpdateMember(g, t, actor, profile, workspace, user, role);
            if !ManagesMembers(t, c) then r == Err(Forbidden)
            else if !Held(t, c, user) then Changeable(t, c, user, r)
            else if !MayGive(c, role) then r == Err(Forbidden)
            else r == Ok(WithMember(t, workspace, user, WorkspaceMember(role, true)))
  {
    MembersLocked(g, t, actor, profile, workspace, c);
    ResolvesHeld(t, user, profile);
  }

  lemma RevokingIs(g: Glance, t: Tenant, actor: UserId, profile: ProfileId, workspace: WorkspaceId, c: Context,
                   user: UserId)
    requires UniqueActive(g.first) && UniqueActive(t) && Glanced(g, t, actor, profile, workspace, c)
    ensures var r := RevokeMember(g, t, actor, profile, workspace, user);
            if !ManagesMembers(t, c) then r == Err(Forbidden)
            else if !Held(t, c, user) then Changeable(t, c, user, r)
            else r == Ok(WithMember(t, workspace, user, t.members[(workspace, user)].(active := false)))
  {
    MembersLocked(g, t, actor, profile, workspace, c);
    ResolvesHeld(t, user, profile);
  }

  // ----- joining -----

  predicate IsOf(t: Tenant, id: MembershipId, user: UserId, profile: ProfileId) {
    id in t.memberships && t.memberships[id].user == user && t.memberships[id].profile == profile
  }

  /** The user has no membership of the Profile and the fresh key is free, or has one ended membership in
      the very role offered, which is not Owner. */
  ghost predicate MayJoin(t: Tenant, user: UserId, profile: ProfileId, role: ProfileRole, spare: MembershipId) {
    ((forall m :: !IsOf(t, m, user, profile)) && spare !in t.memberships)
    || exists id :: Returns(t, user, profile, role, id)
  }

  ghost predicate Returns(t: Tenant, user: UserId, profile: ProfileId, role: ProfileRole, id: MembershipId) {
    (forall m :: IsOf(t, m, user, profile) <==> m == id)
    && id in t.memberships && t.memberships[id] == Membership(profile, user, role, false) && role != Owner
  }

  /** The user is a member in the role offered, and every Workspace role of the user in the Profile has
      ended; nothing else changes. */
  ghost predicate Joined(t: Tenant, next: Tenant, user: UserId, profile: ProfileId, role: ProfileRole,
                         id: MembershipId) {
    next.users == t.users && next.profiles == t.profiles && next.workspaces == t.workspaces
    && next.memberships == t.memberships[id := Membership(profile, user, role, true)]
    && next.members.Keys == t.members.Keys
    && forall k :: k in t.members ==>
         next.members[k] == if k.1 == user && InProfileOf(t, k.0, profile) then t.members[k].(active := false)
                            else t.members[k]
  }

  lemma RowsOf(t: Tenant, user: UserId, profile: ProfileId, id: MembershipId)
    requires IsOf(t, id, user, profile)
    ensures var rows := MembershipsOf(t, profile, user);
            rows != {} && (|rows| <= 1 <==> forall m :: IsOf(t, m, user, profile) <==> m == id)
            && (|rows| <= 1 ==> First(rows) == Some(id))
  {
    var rows := MembershipsOf(t, profile, user);
    assert forall m :: m in rows <==> IsOf(t, m, user, profile);
    assert |rows - {id}| == |rows| - 1;
    if rows - {id} == {} {
      assert rows == {id};
    } else {
      var other :| other in rows - {id};
      assert IsOf(t, other, user, profile) && other != id;
    }
  }

  lemma JoiningIs(t: Tenant, user: UserId, profile: ProfileId, role: ProfileRole, spare: MembershipId)
    ensures Admit(t, user, profile, role, spare).Ok? <==> MayJoin(t, user, profile, role, spare)
    ensures Admit(t, user, profile, role, spare).Err? ==> Admit(t, user, profile, role, spare).error == Conflict
  {
    var rows := MembershipsOf(t, profile, user);
    assert forall m :: m in rows <==> IsOf(t, m, user, profile);
    if id: MembershipId :| IsOf(t, id, user, profile) {
      RowsOf(t, user, profile, id);
      assert forall other :: Returns(t, user, profile, role, other) ==> other == id;
      assert Admit(t, user, profile, role, spare).Ok? <==> Returns(t, user, profile, role, id);
    } else {
      assert rows == {};
      assert forall other :: Returns(t, user, profile, role, other) ==> IsOf(t, other, user, profile);
    }
  }

  lemma JoiningTakesEffect(t: Tenant, user: UserId, profile: ProfileId, role: ProfileRole, spare: MembershipId,
                           next: Tenant)
      returns (id: MembershipId)
    requires Admit(t, user, profile, role, spare) == Ok(next)
    ensures Joined(t, next, user, profile, role, id)
    ensures if exists m :: IsOf(t, m, user, profile) then Returns(t, user, profile, role, id) else id == spare
  {
    JoiningIs(t, user, profile, role, spare);
    var rows := MembershipsOf(t, profile, user);
    assert forall m :: m in rows <==> IsOf(t, m, user, profile);
    id := if First(rows).Some? then First(rows).value else spare;
  }
}
