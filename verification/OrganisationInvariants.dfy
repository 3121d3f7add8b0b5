/** What every run of the organisation services keeps, with no account deactivated: an active Owner
    per Profile, one active membership per user, a manager behind every Workspace, and no Workspace
    role that outlived the membership it was given under. */
module OrganisationInvariants {
  import opened Prelude
  import opened Tenancy
  import opened Organisation

  ghost predicate OwnersHeld(t: Tenant) {
    forall p :: p in t.profiles ==> exists id :: ActiveOwner(t, id, p)
  }

  ghost predicate WorkspacesOwned(t: Tenant) {
    forall w :: w in t.workspaces ==> exists id :: ActiveManager(t, id, t.workspaces[w].profile, t.workspaces[w].owner)
  }

  ghost predicate PeriodsUnique(t: Tenant) {
    forall v, w ::
      (v in t.workspaces && w in t.workspaces && t.workspaces[v].profile == t.workspaces[w].profile
       && t.workspaces[v].period == t.workspaces[w].period) ==> v == w
  }

  /** Foreign keys. */
  ghost predicate Linked(t: Tenant) {
    (forall id :: id in t.memberships ==> t.memberships[id].profile in t.profiles)
    && (forall w :: w in t.workspaces ==> t.workspaces[w].profile in t.profiles)
    && (forall k :: k in t.members ==> k.0 in t.workspaces)
  }

  ghost predicate OrgInv(t: Tenant) {
    UniqueActive(t) && OwnersHeld(t) && WorkspacesOwned(t) && PeriodsUnique(t) && Linked(t)
  }

  // ----- what each service writes -----

  ghost predicate AddsProfile(t: Tenant, next: Tenant, profile: ProfileId, id: MembershipId) {
    profile !in t.profiles && id !in t.memberships && id in next.memberships
    && next == t.(profiles := t.profiles[profile := Active], memberships := t.memberships[id := next.memberships[id]])
    && ActiveOwner(next, id, profile)
  }

  ghost predicate SetsProfiles(t: Tenant, next: Tenant) {
    next == t.(profiles := next.profiles) && next.profiles.Keys == t.profiles.Keys
  }

  /** A membership changes role or ends; it never starts, moves, or strands a Profile or a Workspace. */
  ghost predicate EditsMembership(t: Tenant, next: Tenant, id: MembershipId, row: Membership) {
    id in t.memberships && next == t.(memberships := t.memberships[id := row])
    && row.profile == t.memberships[id].profile && row.user == t.memberships[id].user
    && (row.active ==> t.memberships[id].active)
    && (RemovesOwner(t, t.memberships[id], row) ==> exists other :: other != id && ActiveOwner(t, other, row.profile))
    && (RemovesManager(t.memberships[id], row) ==>
          forall w :: w in t.workspaces && t.workspaces[w].profile == row.profile ==> t.workspaces[w].owner != row.user)
  }

  ghost predicate AddsWorkspace(t: Tenant, next: Tenant, id: WorkspaceId, row: Workspace) {
    id !in t.workspaces && next == t.(workspaces := t.workspaces[id := row])
    && (exists m :: ActiveManager(t, m, row.profile, row.owner))
    && forall w :: w in t.workspaces && t.workspaces[w].profile == row.profile ==> t.workspaces[w].period != row.period
  }

  ghost predicate SetsWorkspace(t: Tenant, next: Tenant, id: WorkspaceId, status: Lifecycle) {
    id in t.workspaces && next == t.(workspaces := t.workspaces[id := t.workspaces[id].(status := status)])
  }

  /** A role is only started for a live member of the Workspace's Profile. */
  ghost predicate WritesMember(t: Tenant, next: Tenant, k: (WorkspaceId, UserId), row: WorkspaceMember) {
    k.0 in t.workspaces && next == t.(members := t.members[k := row])
    && (row.active && (k in t.members ==> !t.members[k].active) ==>
          exists id :: LiveMembership(t, id, k.1, t.workspaces[k.0].profile))
  }

  ghost predicate CallWrites(t: Tenant, next: Tenant, call: OrgCall) {
    next == t
    || match call
       case NewProfile(_, profile, id) => AddsProfile(t, next, profile, id)
       case EditMembership(_, _, _, id, _, _) => id in next.memberships
            && EditsMembership(t, next, id, next.memberships[id])
       case ProfileStatus(_, _, _, _) => SetsProfiles(t, next)
       case NewWorkspace(_, _, _, _, id) => id in next.workspaces && AddsWorkspace(t, next, id, next.workspaces[id])
       case WorkspaceStatus(_, _, _, w, status) => SetsWorkspace(t, next, w, status)
       case Add(_, _, _, w, target, role) =>
         target in t.memberships && WritesMember(t, next, (w, t.memberships[target].user), WorkspaceMember(role, true))
       case Change(_, _, _, w, user, role) => WritesMember(t, next, (w, user), WorkspaceMember(role, true))
       case Remove(_, _, _, w, user) =>
         (w, user) in next.members && !next.members[(w, user)].active
             && WritesMember(t, next, (w, user), next.members[(w, user)])
       case Accounts(users) => NobodyDeactivated(t, users) && next == t.(users := users)
  }

  lemma LockedFacts(g: Glance, t: Tenant, actor: UserId, profile: ProfileId, workspace: WorkspaceId)
    requires Lock(g, t, actor, profile, workspace).Ok?
    ensures workspace in t.workspaces && t.workspaces[workspace].profile == profile && profile in t.profiles
  {
  }

  lemma EditMeans(seen: Tenant, t: Tenant, actor: UserId, profile: ProfileId, id: MembershipId,
                  role: Option<ProfileRole>, active: Option<bool>)
    requires UpdateMembership(seen, t, actor, profile, id, role, active).Ok?
    ensures var next := UpdateMembership(seen, t, actor, profile, id, role, active).value;
            id in next.memberships && EditsMembership(t, next, id, next.memberships[id])
  {
  }

  lemma NewWorkspaceMeans(seen: Tenant, t: Tenant, actor: UserId, profile: ProfileId, period: Option<Period>,
                          id: WorkspaceId)
    requires CreateWorkspace(seen, t, actor, profile, period, id).Ok?
    ensures var next := CreateWorkspace(seen, t, actor, profile, period, id).value;
            id in next.workspaces && AddsWorkspace(t, next, id, next.workspaces[id])
  {
    var scope := LockMembership(seen, t, actor, profile).value;
    assert ActiveManager(t, scope.membership, profile, actor);
  }

  lemma AddMeans(g: Glance, t: Tenant, actor: UserId, profile: ProfileId, w: WorkspaceId, target: MembershipId,
                 role: WorkspaceRole)
    requires AddMember(g, t, actor, profile, w, target, role).Ok?
    ensures target in t.memberships
            && WritesMember(t, AddMember(g, t, actor, profile, w, target, role).value, (w, t.memberships[target].user),
                            WorkspaceMember(role, true))
  {
  }

  /** Every successful call writes one of these shapes and nothing else. */
  lemma ServeMeans(t: Tenant, call: OrgCall)
    requires Serve(t, call).Ok?
    ensures CallWrites(t, Serve(t, call).value, call)
  {
    match call
    case NewProfile(owner, profile, id) =>
    case EditMembership(seen, actor, profile, id, role, active) => EditMeans(seen, t, actor, profile, id, role, active);
    case ProfileStatus(seen, actor, profile, next) =>
    case NewWorkspace(seen, actor, profile, period, id) => NewWorkspaceMeans(seen, t, actor, profile, period, id);
    case WorkspaceStatus(g, actor, profile, w, next) =>
    case Add(g, actor, profile, w, target, role) => AddMeans(g, t, actor, profile, w, target, role);
    case Change(g, actor, profile, w, user, role) => LockedFacts(g, t, actor, profile, w);
    case Remove(g, actor, profile, w, user) => LockedFacts(g, t, actor, profile, w);
    case Accounts(users) =>
  }

  // ----- owners and managers stay -----

  /** Memberships only gain rows, none loses its user or Profile. */
  ghost predicate MembershipsStay(t: Tenant, next: Tenant) {
    forall id :: id in t.memberships ==>
      id in next.memberships && next.memberships[id].user == t.memberships[id].user
      && next.memberships[id].profile == t.memberships[id].profile
  }

  /** Owners and managers stay what they are. */
  ghost predicate ManagersStay(t: Tenant, next: Tenant) {
    (forall m, p :: ActiveOwner(t, m, p) ==> ActiveOwner(next, m, p))
    && (forall m, p, u :: ActiveManager(t, m, p, u) ==> ActiveManager(next, m, p, u))
  }

  lemma ManagerStays(t: Tenant, next: Tenant, w: WorkspaceId) returns (m: MembershipId)
    requires WorkspacesOwned(t) && ManagersStay(t, next) && w in t.workspaces
    ensures ActiveManager(next, m, t.workspaces[w].profile, t.workspaces[w].owner)
  {
    m :| ActiveManager(t, m, t.workspaces[w].profile, t.workspaces[w].owner);
  }

  lemma OwnersKeep(t: Tenant, next: Tenant)
    requires OwnersHeld(t) && ManagersStay(t, next)
    requires forall p :: p in next.profiles && p !in t.profiles ==> exists m :: ActiveOwner(next, m, p)
    ensures OwnersHeld(next)
  {
  }

  lemma WorkspacesKeep(t: Tenant, next: Tenant)
    requires WorkspacesOwned(t) && ManagersStay(t, next)
    requires forall w :: w in next.workspaces && w in t.workspaces ==>
               next.workspaces[w].profile == t.workspaces[w].profile
                   && next.workspaces[w].owner == t.workspaces[w].owner
    requires forall w :: w in next.workspaces && w !in t.workspaces ==>
               exists m :: ActiveManager(next, m, next.workspaces[w].profile, next.workspaces[w].owner)
    ensures WorkspacesOwned(next)
  {
  }

  lemma EditKeepsOwners(t: Tenant, next: Tenant, id: MembershipId, row: Membership)
    requires OwnersHeld(t) && EditsMembership(t, next, id, row)
    ensures OwnersHeld(next)
  {
    forall p | p in next.profiles ensures exists m :: ActiveOwner(next, m, p) {
      var m :| ActiveOwner(t, m, p);
      if m == id && RemovesOwner(t, t.memberships[id], row) {
        m :| m != id && ActiveOwner(t, m, row.profile);
      }
      assert ActiveOwner(next, m, p);
    }
  }

  lemma EditKeepsWorkspaces(t: Tenant, next: Tenant, id: MembershipId, row: Membership)
    requires WorkspacesOwned(t) && EditsMembership(t, next, id, row)
    ensures WorkspacesOwned(next)
  {
    forall w | w in next.workspaces
      ensures exists m :: ActiveManager(next, m, next.workspaces[w].profile, next.workspaces[w].owner)
    {
      var m :| ActiveManager(t, m, t.workspaces[w].profile, t.workspaces[w].owner);
      assert ActiveManager(next, m, next.workspaces[w].profile, next.workspaces[w].owner);
    }
  }

  lemma EditKeeps(t: Tenant, next: Tenant, id: MembershipId, row: Membership)
    requires OrgInv(t) && EditsMembership(t, next, id, row)
    ensures OrgInv(next)
  {
    EditKeepsOwners(t, next, id, row);
    EditKeepsWorkspaces(t, next, id, row);
  }

  lemma ProfileKeeps(t: Tenant, next: Tenant, profile: ProfileId, id: MembershipId)
    requires OrgInv(t) && AddsProfile(t, next, profile, id)
    ensures OrgInv(next)
  {
    OwnersKeep(t, next);
    WorkspacesKeep(t, next);
  }

  lemma NewWorkspaceKeeps(t: Tenant, next: Tenant, id: WorkspaceId, row: Workspace)
    requires OrgInv(t) && AddsWorkspace(t, next, id, row)
    ensures OrgInv(next)
  {
    NewWorkspaceOwned(t, next, id, row);
    OwnersKeep(t, next);
    NewPeriod(t, next, id, row);
  }

  lemma NewWorkspaceOwned(t: Tenant, next: Tenant, id: WorkspaceId, row: Workspace)
    requires WorkspacesOwned(t) && AddsWorkspace(t, next, id, row)
    ensures WorkspacesOwned(next)
  {
    var m :| ActiveManager(t, m, row.profile, row.owner);
    forall w | w in next.workspaces
      ensures exists x :: ActiveManager(next, x, next.workspaces[w].profile, next.workspaces[w].owner)
    {
      if w == id {
        assert ActiveManager(next, m, row.profile, row.owner);
      } else {
        var x := ManagerStays(t, next, w);
      }
    }
  }

  lemma NewPeriod(t: Tenant, next: Tenant, id: WorkspaceId, row: Workspace)
    requires PeriodsUnique(t) && AddsWorkspace(t, next, id, row)
    ensures PeriodsUnique(next)
  {
  }

  /** Rows that decide no ownership may change. */
  ghost predicate Peripheral(t: Tenant, next: Tenant) {
    next.profiles.Keys == t.profiles.Keys && next.memberships == t.memberships
        && next.workspaces.Keys == t.workspaces.Keys
    && (forall w :: w in t.workspaces ==> next.workspaces[w] == t.workspaces[w].(status := next.workspaces[w].status))
    && (forall k :: k in next.members ==> k.0 in t.workspaces)
    && (forall u :: ActiveUser(t, u) ==> ActiveUser(next, u))
  }

  lemma PeripheralKeeps(t: Tenant, next: Tenant)
    requires OrgInv(t) && Peripheral(t, next)
    ensures OrgInv(next)
  {
    OwnersKeep(t, next);
    WorkspacesKeep(t, next);
  }

  lemma WritesKeep(t: Tenant, next: Tenant, call: OrgCall)
    requires OrgInv(t) && CallWrites(t, next, call)
    ensures OrgInv(next)
  {
    if next != t {
      match call
      case NewProfile(_, profile, id) => ProfileKeeps(t, next, profile, id);
      case EditMembership(_, _, _, id, _, _) => EditKeeps(t, next, id, next.memberships[id]);
      case NewWorkspace(_, _, _, _, id) => NewWorkspaceKeeps(t, next, id, next.workspaces[id]);
      case _ =>
        PeripheralWrites(t, next, call);
        PeripheralKeeps(t, next);
    }
  }

  lemma PeripheralWrites(t: Tenant, next: Tenant, call: OrgCall)
    requires Linked(t) && CallWrites(t, next, call)
    requires !call.NewProfile? && !call.EditMembership? && !call.NewWorkspace?
    ensures Peripheral(t, next)
  {
  }

  lemma WritesStay(t: Tenant, next: Tenant, call: OrgCall)
    requires CallWrites(t, next, call)
    ensures MembershipsStay(t, next)
  {
  }

  // ----- admission -----

  /** One membership of the user starts, and every Workspace role in the Profile is taken away. */
  ghost predicate Admits(t: Tenant, next: Tenant, user: UserId, profile: ProfileId, id: MembershipId) {
    id in next.memberships
    && next == t.(memberships := t.memberships[id := next.memberships[id]], members := Ousted(t, profile, user))
    && next.memberships[id].active && next.memberships[id].user == user && next.memberships[id].profile == profile
    && (id in t.memberships ==> next.memberships[id] == t.memberships[id].(active := true) && !t.memberships[id].active)
    && forall m :: m in t.memberships && t.memberships[m].user == user && t.memberships[m].profile == profile ==>
         !t.memberships[m].active
  }

  lemma AdmitMeans(t: Tenant, user: UserId, profile: ProfileId, role: ProfileRole, spare: MembershipId)
      returns (id: MembershipId)
    requires Admit(t, user, profile, role, spare).Ok?
    ensures Admits(t, Admit(t, user, profile, role, spare).value, user, profile, id)
    ensures Admit(t, user, profile, role, spare).value.memberships[id].role == role
  {
    var rows := MembershipsOf(t, profile, user);
    id := if First(rows).Some? then First(rows).value else spare;
    assert forall m :: m in t.memberships && t.memberships[m].user == user && t.memberships[m].profile == profile ==>
             m in rows;
  }

  lemma AdmitLeavesOne(t: Tenant, next: Tenant, user: UserId, profile: ProfileId, id: MembershipId)
    requires UniqueActive(t) && Admits(t, next, user, profile, id)
    ensures UniqueActive(next)
  {
  }

  lemma AdmitLeavesManagers(t: Tenant, next: Tenant, user: UserId, profile: ProfileId, id: MembershipId)
    requires Admits(t, next, user, profile, id)
    ensures ManagersStay(t, next)
  {
  }

  lemma AdmitKeeps(t: Tenant, next: Tenant, user: UserId, profile: ProfileId, id: MembershipId)
    requires OrgInv(t) && Admits(t, next, user, profile, id) && profile in t.profiles
    ensures OrgInv(next)
  {
    AdmitLeavesOne(t, next, user, profile, id);
    AdmitLeavesManagers(t, next, user, profile, id);
    OwnersKeep(t, next);
    WorkspacesKeep(t, next);
  }

  lemma AdmitStays(t: Tenant, next: Tenant, user: UserId, profile: ProfileId, id: MembershipId)
    requires Linked(t) && Admits(t, next, user, profile, id)
    ensures MembershipsStay(t, next) && PlacesStay(t, next)
  {
  }

  // ----- deactivating an account -----

  function Deactivated(t: Tenant, user: UserId): Tenant
    requires user in t.users
  {
    t.(users := t.users[user := t.users[user].(active := false)])
  }

  /** Some active Owner with an active account is not the user. */
  ghost predicate OwnedWithout(t: Tenant, profile: ProfileId, user: UserId) {
    exists id :: ActiveOwner(t, id, profile) && t.memberships[id].user != user
  }

  lemma OwnersWithout(t: Tenant, user: UserId, profile: ProfileId)
    requires user in t.users
    ensures (exists id :: ActiveOwner(Deactivated(t, user), id, profile)) <==> OwnedWithout(t, profile, user)
  {
    var next := Deactivated(t, user);
    assert forall id ::
             ActiveOwner(next, id, profile) <==> ActiveOwner(t, id, profile) && t.memberships[id].user != user;
    if OwnedWithout(t, profile, user) {
      var id :| ActiveOwner(t, id, profile) && t.memberships[id].user != user;
      assert ActiveOwner(next, id, profile);
    }
  }

  lemma ManagersWithout(t: Tenant, user: UserId)
    requires WorkspacesOwned(t) && user in t.users
    ensures WorkspacesOwned(Deactivated(t, user)) <==> forall w :: w in t.workspaces ==> t.workspaces[w].owner != user
  {
    var next := Deactivated(t, user);
    assert forall id, p, u :: ActiveManager(next, id, p, u) <==> ActiveManager(t, id, p, u) && u != user;
    forall w | w in t.workspaces && t.workspaces[w].owner != user
      ensures exists m :: ActiveManager(next, m, t.workspaces[w].profile, t.workspaces[w].owner)
    {
      var m :| ActiveManager(t, m, t.workspaces[w].profile, t.workspaces[w].owner);
      assert ActiveManager(next, m, t.workspaces[w].profile, t.workspaces[w].owner);
    }
  }

  /** Saving an account as inactive checks neither rule; it keeps both exactly when every Profile has
      another active Owner and the user owns no Workspace. */
  lemma DeactivationKeepsWhen(t: Tenant, user: UserId)
    requires OrgInv(t) && user in t.users
    ensures OrgInv(Deactivated(t, user)) <==>
            (forall p :: p in t.profiles ==> OwnedWithout(t, p, user))
            && (forall w :: w in t.workspaces ==> t.workspaces[w].owner != user)
  {
    OwnersHeldWithout(t, user);
    ManagersWithout(t, user);
    RestWithout(t, user);
  }

  lemma OwnersHeldWithout(t: Tenant, user: UserId)
    requires user in t.users
    ensures OwnersHeld(Deactivated(t, user)) <==> forall p :: p in t.profiles ==> OwnedWithout(t, p, user)
  {
    forall p | p in t.profiles
      ensures (exists id :: ActiveOwner(Deactivated(t, user), id, p)) <==> OwnedWithout(t, p, user)
    {
      OwnersWithout(t, user, p);
    }
  }

  lemma RestWithout(t: Tenant, user: UserId)
    requires OrgInv(t) && user in t.users
    ensures UniqueActive(Deactivated(t, user)) && PeriodsUnique(Deactivated(t, user)) && Linked(Deactivated(t, user))
  {
  }

  /** It fails for the founder of a Profile, straight after founding it. */
  lemma DeactivatingFounderStrands(t: Tenant, owner: UserId, profile: ProfileId, id: MembershipId)
    requires OrgInv(t) && CreateProfile(t, owner, profile, id).Ok?
    ensures var next := CreateProfile(t, owner, profile, id).value;
            OrgInv(next) && !OwnersHeld(Deactivated(next, owner))
  {
    var next := CreateProfile(t, owner, profile, id).value;
    ProfileKeeps(t, next, profile, id);
    OwnersWithout(next, owner, profile);
    assert forall m :: ActiveOwner(next, m, profile) ==> m == id;
  }

  // ----- access is never resurrected -----

  /** When each live membership and each live Workspace role started, as an observer of the rows
      before and after each step would note it. */
  datatype Watch = Watch(tick: nat, activated: map<MembershipId, nat>, granted: map<(WorkspaceId, UserId), nat>)

  function Observe(w: Watch, t: Tenant, next: Tenant): Watch {
    Watch(w.tick + 1,
          map id | id in next.memberships && next.memberships[id].active ::
            if id in t.memberships && t.memberships[id].active && id in w.activated then w.activated[id] else w.tick,
          map k | k in next.members && next.members[k].active ::
            if k in t.members && t.members[k].active && k in w.granted then w.granted[k] else w.tick)
  }

  ghost predicate Noted(t: Tenant, w: Watch) {
    (forall id :: id in t.memberships && t.memberships[id].active ==> id in w.activated && w.activated[id] < w.tick)
    && (forall k :: k in t.members && t.members[k].active ==> k in w.granted && w.granted[k] < w.tick)
  }

  /** A live role was given after the current activation of its user's membership. */
  ghost predicate GivenLater(t: Tenant, w: Watch, id: MembershipId, k: (WorkspaceId, UserId)) {
    id in t.memberships && t.memberships[id].active && k in t.members && t.members[k].active
    && k.1 == t.memberships[id].user && InProfile(t, k.0, t.memberships[id].profile) ==>
      id in w.activated && k in w.granted && w.activated[id] < w.granted[k]
  }

  ghost predicate NoResurrection(t: Tenant, w: Watch) {
    Noted(t, w) && forall id, k :: GivenLater(t, w, id, k)
  }

  lemma NothingResurrected(t: Tenant, w: Watch, next: Tenant, id: MembershipId, k: (WorkspaceId, UserId))
    requires Linked(t) && NoResurrection(t, w)
    requires id in t.memberships && t.memberships[id].active && id in next.memberships
    requires next.memberships[id].user == t.memberships[id].user
             && next.memberships[id].profile == t.memberships[id].profile
    requires InProfile(next, k.0, t.memberships[id].profile) && k in t.members ==>
               InProfile(t, k.0, t.memberships[id].profile)
    ensures GivenLater(next, Observe(w, t, next), id, k)
  {
    assert GivenLater(t, w, id, k);
  }

  /** Workspaces keep their Profile, and new ones start without members. */
  ghost predicate PlacesStay(t: Tenant, next: Tenant) {
    (forall w :: w in t.workspaces ==> w in next.workspaces && next.workspaces[w].profile == t.workspaces[w].profile)
    && (forall k :: k in next.members && k !in t.members ==> k.0 in t.workspaces)
  }

  lemma PlacesKept(t: Tenant, next: Tenant, call: OrgCall)
    requires CallWrites(t, next, call)
    ensures PlacesStay(t, next)
  {
  }

  /** A step that starts no membership. */
  lemma NothingStarts(t: Tenant, w: Watch, next: Tenant)
    requires Linked(t) && Linked(next) && NoResurrection(t, w) && MembershipsStay(t, next) && PlacesStay(t, next)
    requires forall id :: id in next.memberships && next.memberships[id].active ==>
               id in t.memberships && t.memberships[id].active
    ensures NoResurrection(next, Observe(w, t, next))
  {
    var seen := Observe(w, t, next);
    forall id, k ensures GivenLater(next, seen, id, k) {
      if id in next.memberships && next.memberships[id].active { NothingResurrected(t, w, next, id, k); }
    }
  }

  /** A step that starts one membership, whose Profile grants the user nothing. */
  lemma OneStarts(t: Tenant, w: Watch, next: Tenant, id: MembershipId)
    requires Linked(t) && Linked(next) && NoResurrection(t, w) && MembershipsStay(t, next) && PlacesStay(t, next)
    requires id in next.memberships
    requires forall m :: m in next.memberships && next.memberships[m].active && m != id ==>
               m in t.memberships && t.memberships[m].active
    requires forall k ::
               k in next.members && k.1 == next.memberships[id].user
                   && InProfile(next, k.0, next.memberships[id].profile) ==>
               !next.members[k].active
    ensures NoResurrection(next, Observe(w, t, next))
  {
    var seen := Observe(w, t, next);
    forall m, k ensures GivenLater(next, seen, m, k) {
      if m != id && m in next.memberships && next.memberships[m].active { NothingResurrected(t, w, next, m, k); }
    }
  }

  lemma ServingResurrectsNothing(t: Tenant, w: Watch, next: Tenant, call: OrgCall)
    requires Linked(t) && Linked(next) && NoResurrection(t, w) && CallWrites(t, next, call)
    ensures NoResurrection(next, Observe(w, t, next))
  {
    PlacesKept(t, next, call);
    WritesStay(t, next, call);
    if next != t && call.NewProfile? {
      OneStarts(t, w, next, call.membership);
    } else {
      NothingStarts(t, w, next);
    }
  }

  lemma AdmittingResurrectsNothing(t: Tenant, w: Watch, next: Tenant, user: UserId, profile: ProfileId,
                                   id: MembershipId)
    requires Linked(t) && Linked(next) && NoResurrection(t, w) && Admits(t, next, user, profile, id)
    ensures NoResurrection(next, Observe(w, t, next))
  {
    AdmitStays(t, next, user, profile, id);
    OneStarts(t, w, next, id);
  }
}
