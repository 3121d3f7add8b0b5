/** Who may do what, said in the columns of the tenant rows: what the access contexts, the locks and the
    account lookups amount to. */
module Authority {
  import opened Prelude
  import opened Tenancy
  import opened TaskWorkflow

  /** An active membership, in this role, of an active account. */
  predicate Holds(t: Tenant, id: MembershipId, user: UserId, profile: ProfileId, role: ProfileRole) {
    id in t.memberships && t.memberships[id] == Membership(profile, user, role, true)
    && user in t.users && t.users[user].active
  }

  /** An active row of the Workspace, in this role. */
  predicate HoldsHere(t: Tenant, workspace: WorkspaceId, user: UserId, role: WorkspaceRole) {
    (workspace, user) in t.members && t.members[(workspace, user)] == WorkspaceMember(role, true)
  }

  predicate InProfileOf(t: Tenant, workspace: WorkspaceId, profile: ProfileId) {
    workspace in t.workspaces && t.workspaces[workspace].profile == profile
  }

  /** A Profile and a Workspace of it, neither archived. */
  predicate Open(t: Tenant, s: Scope) {
    s.profile in t.profiles && t.profiles[s.profile] == Active
    && InProfileOf(t, s.workspace, s.profile) && t.workspaces[s.workspace].status == Active
  }

  /** The context of a user: Owners and Admins see every Workspace of the Profile, a Member those with an
      active row of theirs as ADMIN, MEMBER or VIEWER. */
  predicate IsContext(t: Tenant, c: Context) {
    InProfileOf(t, c.workspace, c.scope.profile)
    && Holds(t, c.scope.membership, c.scope.user, c.scope.profile, c.scope.role)
    && if c.scope.role != Member then c.workspaceRole == None
       else c.workspaceRole in {Some(WsAdmin), Some(WsMember), Some(WsViewer)}
            && HoldsHere(t, c.workspace, c.scope.user, c.workspaceRole.value)
  }

  ghost predicate Sees(t: Tenant, s: Scope) {
    exists c :: IsContext(t, c) && c.scope.user == s.actor && c.scope.profile == s.profile
                && c.workspace == s.workspace
  }

  ghost predicate Manages(t: Tenant, s: Scope) {
    Open(t, s)
    && exists id ::
         Holds(t, id, s.actor, s.profile, Owner) || Holds(t, id, s.actor, s.profile, Admin)
         || (Holds(t, id, s.actor, s.profile, Member) && HoldsHere(t, s.workspace, s.actor, WsAdmin))
  }

  ghost predicate Edits(t: Tenant, s: Scope) {
    Open(t, s) && HoldsHere(t, s.workspace, s.actor, WsMember)
    && exists id :: Holds(t, id, s.actor, s.profile, Member)
  }

  /** What a caller who may not act is told: whoever cannot see the Workspace is told that there is none. */
  ghost function Denial(t: Tenant, s: Scope): ServiceError {
    if Sees(t, s) && s.profile in t.profiles then Forbidden else NotFound
  }

  // ----- contexts and locks -----

  lemma ResolvedExactly(t: Tenant, c: Context)
    requires UniqueActive(t)
    ensures Resolve(t, c.scope.user, c.scope.profile, c.workspace) == Some(c) <==> IsContext(t, c)
  {
    if LiveMembership(t, c.scope.membership, c.scope.user, c.scope.profile) {
      ResolveProfileIs(t, c.scope.membership, c.scope.user, c.scope.profile);
    }
  }

  lemma ResolvedFor(t: Tenant, s: Scope)
    requires UniqueActive(t)
    ensures Resolve(t, s.actor, s.profile, s.workspace).Some? <==> Sees(t, s)
    ensures Sees(t, s) ==> var c := Resolve(t, s.actor, s.profile, s.workspace).value;
                           IsContext(t, c) && c.scope.user == s.actor && c.scope.profile == s.profile
                           && c.workspace == s.workspace
  {
    var resolved := Resolve(t, s.actor, s.profile, s.workspace);
    if resolved.Some? { ResolvedExactly(t, resolved.value); }
    if c :| IsContext(t, c) && c.scope.user == s.actor && c.scope.profile == s.profile && c.workspace == s.workspace {
      ResolvedExactly(t, c);
    }
  }

  /** Whoever cannot see the Workspace is told that it does not exist, whoever sees it but may not act is
      refused, and only that. */
  lemma LockRefuses(t: Tenant, s: Scope)
    requires UniqueActive(t)
    ensures var r := LockContext(t, s.actor, s.profile, s.workspace);
            (r.Ok? <==> Sees(t, s) && s.profile in t.profiles && t.profiles[s.profile] == Active)
            && (r.Ok? ==> IsContext(t, r.value) && r.value.scope.user == s.actor && r.value.scope.profile == s.profile
                          && r.value.workspace == s.workspace)
            && (r.Err? ==> r.error == Denial(t, s))
  {
    ResolvedFor(t, s);
    LockContextIs(t, s.actor, s.profile, s.workspace);
  }

  lemma ManagersOnly(t: Tenant, s: Scope)
    requires UniqueActive(t)
    ensures LockManager(t, s).Ok? <==> Manages(t, s)
    ensures LockManager(t, s).Err? ==> LockManager(t, s).error == Denial(t, s)
  {
    LockRefuses(t, s);
    ResolvedFor(t, s);
    if Manages(t, s) {
      var id :| Holds(t, id, s.actor, s.profile, Owner) || Holds(t, id, s.actor, s.profile, Admin)
                || (Holds(t, id, s.actor, s.profile, Member) && HoldsHere(t, s.workspace, s.actor, WsAdmin));
      var role := t.memberships[id].role;
      assert IsContext(t, Context(ProfileContext(s.actor, s.profile, id, role), s.workspace,
                                  if role == Member then Some(WsAdmin) else None));
    }
  }

  lemma EditorsOnly(t: Tenant, s: Scope)
    requires UniqueActive(t)
    ensures LockExecutor(t, s).Ok? <==> Edits(t, s)
    ensures LockExecutor(t, s).Err? ==> LockExecutor(t, s).error == Denial(t, s)
  {
    LockRefuses(t, s);
    ResolvedFor(t, s);
    if Edits(t, s) {
      var id :| Holds(t, id, s.actor, s.profile, Member);
      assert IsContext(t, Context(ProfileContext(s.actor, s.profile, id, Member), s.workspace, Some(WsMember)));
    }
  }

  // ----- looking up an account by address -----

  /** A lookup names an account exactly when it is the only match and its address is the one asked for;
      several matches are a conflict. */
  lemma LookupIs(emails: map<UserId, Email>, matches: set<UserId>, canonical: string)
    ensures forall u :: UniqueMatch(emails, matches, canonical) == Ok(Some(u))
                        <==> u in emails && matches * emails.Keys == {u} && emails[u].canonical == canonical
    ensures UniqueMatch(emails, matches, canonical).Err?
            <==> exists u, v :: u in matches * emails.Keys && v in matches * emails.Keys && u != v
    ensures UniqueMatch(emails, matches, canonical).Err? ==>
              UniqueMatch(emails, matches, canonical).error == Conflict
  {
    var found := matches * emails.Keys;
    if u :| u in found {
      if found == {u} {
        assert |found| == 1;
      } else {
        assert found - {u} != {};
        var v :| v in found - {u};
        assert |found| == |found - {u}| + 1 && |found - {u}| == |found - {u} - {v}| + 1;
      }
    }
  }
}
