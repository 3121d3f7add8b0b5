/** The serializer's capability hints and the notification recipients, against the services
    and the access policy they must agree with. */
module CapabilityHints {
  import opened Prelude
  import opened Tenancy
  import opened TaskHierarchy
  import opened TaskWorkflow
  import opened WorkflowInvariants

  // ----- the hints -----

  /** The row a Task response shows as its active assignment. */
  function ShownAssignee(db: WorkDb, task: TaskId): Option<UserId> { First(ActiveAssignees(db, task)) }

  predicate ExecutionAllowed(t: Tenant, user: UserId, c: Option<Context>) {
    c.Some? && ActiveUser(t, user) && c.value.scope.user == user && CanExecuteTasks(t, c.value)
  }

  predicate CanStart(t: Tenant, db: WorkDb, user: UserId, c: Option<Context>, task: TaskId)
    requires task in db.tasks
  {
    c.Some? && db.tasks[task].workspace == c.value.workspace && db.tasks[task].status.Assigned?
    && ExecutionAllowed(t, user, c) && ShownAssignee(db, task) == Some(c.value.scope.user)
  }

  predicate CanSubmit(t: Tenant, db: WorkDb, user: UserId, c: Option<Context>, task: TaskId)
    requires task in db.tasks
  {
    c.Some? && db.tasks[task].workspace == c.value.workspace && db.tasks[task].status.Working?
    && ExecutionAllowed(t, user, c) && ShownAssignee(db, task) == Some(c.value.scope.user)
    && !Unresolved(db.deliverables, task)
  }

  predicate ReviewAllowed(t: Tenant, user: UserId, c: Option<Context>) {
    c.Some? && ActiveUser(t, user) && c.value.scope.user == user && CanReviewDeliverables(t, c.value)
  }

  /** `can_approve` and `can_request_changes` share this test. */
  predicate CanDecide(t: Tenant, db: WorkDb, user: UserId, c: Option<Context>, d: DeliverableId)
    requires d < |db.deliverables| && db.deliverables[d].task in db.tasks
  {
    var row, task := db.deliverables[d], db.tasks[db.deliverables[d].task];
    c.Some? && task.workspace == c.value.workspace && task.status.InReview? && row.status.Submitted?
    && row.uploader != c.value.scope.user && ReviewAllowed(t, user, c)
    && LatestDeliverable(db.deliverables, row.task) == Some(d) && d !in db.reviews
  }

  // ----- notifications never veto -----

  /** The tenant facts a successful lock leaves behind. */
  predicate Locked(t: Tenant, s: Scope) {
    s.profile in t.profiles && t.profiles[s.profile].Active? && s.workspace in t.workspaces
    && t.workspaces[s.workspace].profile == s.profile
  }

  lemma LockGivesTenant(t: Tenant, s: Scope)
    requires UniqueActive(t) && LockContext(t, s.actor, s.profile, s.workspace).Ok?
    ensures Locked(t, s)
  {
  }

  lemma WellFormedEventIsEmitted(t: Tenant, db: WorkDb, e: Audit, kind: Kind)
    requires Locked(t, Scope(e.actor, e.profile, e.workspace)) && ActionMatches(e.action, kind)
    requires e.task in db.tasks && db.tasks[e.task].workspace == e.workspace
    requires Recipients(t, db.(audit := db.audit + [e]), e).Some?
    ensures Announce(t, db, e, kind).Ok?
  {
  }

  /** The lock and capability checks alone, without any row of the Task tables. */
  predicate MayManage(t: Tenant, s: Scope) { LockManager(t, s).Ok? }

  predicate MayExecute(t: Tenant, s: Scope) { LockExecutor(t, s).Ok? }

  lemma StartSucceedsWhen(t: Tenant, db: WorkDb, s: Scope, task: TaskId)
    ensures StartTask(t, db, s, task).Ok? <==>
            MayExecute(t, s) && InWorkspace(db, task, s.workspace) && s.actor in ActiveAssignees(db, task)
            && db.tasks[task].status.Assigned?
  {
  }

  lemma SubmitSucceedsWhen(t: Tenant, db: WorkDb, s: Scope, task: TaskId, url: string, now: Time, tie: nat)
    requires UniqueActive(t)
    ensures SubmitDeliverable(t, db, s, task, url, now, tie).Ok? <==>
            MayExecute(t, s) && InWorkspace(db, task, s.workspace) && s.actor in ActiveAssignees(db, task)
            && db.tasks[task].status.Working? && !Unresolved(db.deliverables, task) && 0 < |Strip(url)| <= 500
  {
  }

  lemma ReviewSucceedsWhen(t: Tenant, db: WorkDb, s: Scope, task: TaskId, d: DeliverableId, decision: Decision,
                           comment: Option<string>)
    requires UniqueActive(t)
    ensures ReviewDeliverable(t, db, s, task, d, decision, comment).Ok? <==>
            MayManage(t, s) && InWorkspace(db, task, s.workspace) && d < |db.deliverables|
                && db.deliverables[d].task == task
            && db.tasks[task].status.InReview? && LatestDeliverable(db.deliverables, task) == Some(d)
            && db.deliverables[d].status.Submitted? && db.deliverables[d].uploader != s.actor && d !in db.reviews
            && (decision.RequestChanges? ==> comment.Some? && Strip(comment.value) != "")
  {
  }

  lemma OnlyPrevious(db: WorkDb, task: TaskId)
    requires WorkInv(db) && task in db.tasks
    ensures var previous := First(ActiveAssignees(db, task));
            ActiveAssignees(db, task) == if previous.Some? then {previous.value} else {}
  {
    assert TaskInv(db, task);
  }

  lemma AssignmentIsEmitted(t: Tenant, db: WorkDb, s: Scope, task: TaskId, target: MembershipId, now: Time)
    requires Locked(t, s) && InWorkspace(db, task, s.workspace) && target in t.memberships
    ensures var user, previous := t.memberships[target].user, First(ActiveAssignees(db, task));
            Announce(t, db.(tasks := SetStatus(db.tasks, task, Assigned),
                            assignments := Reassigned(db.assignments, task, previous, user, now)),
                     Audit(s.actor, s.profile, s.workspace, task, TaskAssigned(user, target, previous),
                           db.tasks[task].status, Assigned), AssignedNotice).Ok?
  {
  }

  lemma EligibleIsAssigned(t: Tenant, db: WorkDb, s: Scope, task: TaskId, target: MembershipId, now: Time)
    requires UniqueActive(t) && WorkInv(db) && MayManage(t, s) && InWorkspace(db, task, s.workspace)
    requires !db.tasks[task].status.InReview? && !db.tasks[task].status.Completed?
    requires EligibleEditor(t, target, s.profile, s.workspace)
             && t.memberships[target].user !in ActiveAssignees(db, task)
    ensures AssignTask(t, db, s, task, target, now).Ok?
  {
    LockGivesTenant(t, s);
    OnlyPrevious(db, task);
    AssignmentIsEmitted(t, db, s, task, target, now);
  }

  lemma AssignedIsEligible(t: Tenant, db: WorkDb, s: Scope, task: TaskId, target: MembershipId, now: Time)
    requires WorkInv(db) && AssignTask(t, db, s, task, target, now).Ok?
    ensures MayManage(t, s) && InWorkspace(db, task, s.workspace) && !db.tasks[task].status.InReview?
            && !db.tasks[task].status.Completed? && EligibleEditor(t, target, s.profile, s.workspace)
            && t.memberships[target].user !in ActiveAssignees(db, task)
  {
    if InWorkspace(db, task, s.workspace) { OnlyPrevious(db, task); }
  }

  lemma AssignSucceedsWhen(t: Tenant, db: WorkDb, s: Scope, task: TaskId, target: MembershipId, now: Time)
    requires UniqueActive(t) && WorkInv(db)
    ensures AssignTask(t, db, s, task, target, now).Ok? <==>
            MayManage(t, s) && InWorkspace(db, task, s.workspace) && !db.tasks[task].status.InReview?
            && !db.tasks[task].status.Completed? && EligibleEditor(t, target, s.profile, s.workspace)
            && t.memberships[target].user !in ActiveAssignees(db, task)
  {
    if AssignTask(t, db, s, task, target, now).Ok? {
      AssignedIsEligible(t, db, s, task, target, now);
    } else if MayManage(t, s) && InWorkspace(db, task, s.workspace) && !db.tasks[task].status.InReview?
              && !db.tasks[task].status.Completed? && EligibleEditor(t, target, s.profile, s.workspace)
              && t.memberships[target].user !in ActiveAssignees(db, task) {
      EligibleIsAssigned(t, db, s, task, target, now);
    }
  }

  // ----- the hints are exact -----

  lemma FreshContext(t: Tenant, s: Scope)
    requires UniqueActive(t)
    ensures var c := Resolve(t, s.actor, s.profile, s.workspace);
            (MayExecute(t, s) <==> ExecutionAllowed(t, s.actor, c))
                && (MayManage(t, s) <==> ReviewAllowed(t, s.actor, c))
            && (c.Some? ==> c.value.scope.user == s.actor && c.value.workspace == s.workspace)
  {
  }

  /** On every reachable state, with a freshly resolved context, a hint is true exactly when the
      service call it announces succeeds for well-formed text. */
  lemma TaskHintsAreExact(t: Tenant, db: WorkDb, s: Scope, task: TaskId, url: string, now: Time, tie: nat)
    requires UniqueActive(t) && WorkInv(db) && task in db.tasks
    ensures var c := Resolve(t, s.actor, s.profile, s.workspace);
            CanStart(t, db, s.actor, c, task) <==> StartTask(t, db, s, task).Ok?
    ensures var c := Resolve(t, s.actor, s.profile, s.workspace);
            0 < |Strip(url)| <= 500 ==>
              (CanSubmit(t, db, s.actor, c, task) <==> SubmitDeliverable(t, db, s, task, url, now, tie).Ok?)
  {
    FreshContext(t, s);
    StartSucceedsWhen(t, db, s, task);
    SubmitSucceedsWhen(t, db, s, task, url, now, tie);
    assert TaskInv(db, task);
  }

  lemma ReviewHintsAreExact(t: Tenant, db: WorkDb, s: Scope, d: DeliverableId, comment: Option<string>)
    requires UniqueActive(t) && WorkInv(db) && d < |db.deliverables|
    ensures var c, task := Resolve(t, s.actor, s.profile, s.workspace), db.deliverables[d].task;
            CanDecide(t, db, s.actor, c, d) <==> ReviewDeliverable(t, db, s, task, d, Approve, comment).Ok?
    ensures var c, task := Resolve(t, s.actor, s.profile, s.workspace), db.deliverables[d].task;
            comment.Some? && Strip(comment.value) != "" ==>
              (CanDecide(t, db, s.actor, c, d) <==> ReviewDeliverable(t, db, s, task, d, RequestChanges, comment).Ok?)
  {
    FreshContext(t, s);
    ReviewSucceedsWhen(t, db, s, db.deliverables[d].task, d, Approve, comment);
    ReviewSucceedsWhen(t, db, s, db.deliverables[d].task, d, RequestChanges, comment);
  }

  // ----- recipients -----

  /** Notifications only ever name audit rows that exist. */
  ghost predicate NoticesLogged(db: WorkDb) { forall k :: k in db.notifications ==> k.0 < |db.audit| }

  lemma AnnounceNotices(t: Tenant, db: WorkDb, e: Audit, kind: Kind)
    requires Announce(t, db, e, kind).Ok?
    ensures var next, logged := Announce(t, db, e, kind).value, db.(audit := db.audit + [e]);
            Locked(t, Scope(e.actor, e.profile, e.workspace)) && t.workspaces[e.workspace].status.Active?
            && ReadableBy(t, e.actor, e.profile, e.workspace) && NoticesLogged(db) && e.task in db.tasks
            && db.tasks[e.task].workspace == e.workspace ==>
              Recipients(t, logged, e).Some?
              && forall u ::
                   (|db.audit|, u) in next.notifications <==> u in Recipients(t, logged, e).value && u != e.actor
  {
  }

  lemma NoticesStayLogged(db: WorkDb, r: Request)
    requires NoticesLogged(db)
    ensures NoticesLogged(Step(db, r))
    ensures forall k :: k in db.notifications ==>
              k in Step(db, r).notifications && Step(db, r).notifications[k] == db.notifications[k]
  {
    CallMeans(db, r);
    WritesLogNotices(db, Step(db, r), r);
  }

  lemma WritesLogNotices(db: WorkDb, next: WorkDb, r: Request)
    requires NoticesLogged(db) && CallWrites(db, next, r)
    ensures NoticesLogged(next)
    ensures forall k :: k in db.notifications ==>
              k in next.notifications && next.notifications[k] == db.notifications[k]
  {
  }

  /** Delivering an event again changes nothing: a notice already read stays read. */
  lemma ReplayIsIdempotent(t: Tenant, db: WorkDb, event: EventId, actor: UserId, task: TaskId, kind: Kind)
    requires Emit(t, db, event, actor, task, kind).Ok?
    ensures var once := db.(notifications := Emit(t, db, event, actor, task, kind).value);
            Emit(t, once, event, actor, task, kind) == Ok(once.notifications)
  {
    var once := db.(notifications := Emit(t, db, event, actor, task, kind).value);
    assert Recipients(t, once, db.audit[event]) == Recipients(t, db, db.audit[event]);
    var again := Emit(t, once, event, actor, task, kind).value;
    assert again == once.notifications;
  }

  /** A reader's role decides what they may do: reviewing needs a manager role in the Profile or
      an ADMIN row in the Workspace. */
  lemma ReviewersAre(t: Tenant, profile: ProfileId, workspace: WorkspaceId, user: UserId)
    requires UniqueActive(t) && Locked(t, Scope(user, profile, workspace)) && t.workspaces[workspace].status.Active?
    ensures MayManage(t, Scope(user, profile, workspace)) <==>
            exists m :: m in t.memberships && t.memberships[m].user == user && Readable(t, m, profile, workspace)
                        && (IsManager(t.memberships[m].role)
                            || ((workspace, user) in t.members
                                && t.members[(workspace, user)] == WorkspaceMember(WsAdmin, true)))
  {
    var s := Scope(user, profile, workspace);
    LockContextIs(t, user, profile, workspace);
    ReadPolicyAgrees(t, user, profile, workspace);
    if m :| m in t.memberships && t.memberships[m].user == user && Readable(t, m, profile, workspace) {
      ResolveProfileIs(t, m, user, profile);
      if other :| (other in t.memberships && t.memberships[other].user == user
                   && Readable(t, other, profile, workspace)) {
        assert other == m;
      }
    }
  }

  lemma SubmitRecipients(t: Tenant, db: WorkDb, e: Audit, u: UserId)
    requires UniqueActive(t) && Locked(t, Scope(u, e.profile, e.workspace)) && t.workspaces[e.workspace].status.Active?
    requires e.action.DeliverableSubmitted? && Recipients(t, db, e).Some?
    ensures u in Recipients(t, db, e).value <==> MayManage(t, Scope(u, e.profile, e.workspace))
  {
    ReviewersAre(t, e.profile, e.workspace, u);
    if m :| m in t.memberships && t.memberships[m].user == u && Readable(t, m, e.profile, e.workspace)
            && (IsManager(t.memberships[m].role)
                || ((e.workspace, u) in t.members && t.members[(e.workspace, u)] == WorkspaceMember(WsAdmin, true))) {
      assert m in set m | m in t.memberships && Readable(t, m, e.profile, e.workspace);
    }
  }

  lemma ExecutorsDoNotManage(t: Tenant, s: Scope)
    requires UniqueActive(t) && MayExecute(t, s)
    ensures !MayManage(t, s) && Locked(t, s) && t.workspaces[s.workspace].status.Active?
            && ReadableBy(t, s.actor, s.profile, s.workspace)
  {
  }

  /** Submitting tells exactly the users who may review the Task, whoever they are. */
  lemma SubmitNotifiesReviewers(t: Tenant, db: WorkDb, s: Scope, task: TaskId, url: string, now: Time, tie: nat,
                                u: UserId)
    requires UniqueActive(t) && NoticesLogged(db) && SubmitDeliverable(t, db, s, task, url, now, tie).Ok?
    ensures (|db.audit|, u) in SubmitDeliverable(t, db, s, task, url, now, tie).value.notifications
            <==> MayManage(t, Scope(u, s.profile, s.workspace))
  {
    SubmitSucceedsWhen(t, db, s, task, url, now, tie);
    ExecutorsDoNotManage(t, s);
    var revision := LatestRevision(db.deliverables, task) + 1;
    var row := Deliverable(task, s.actor, revision, Submitted, Strip(url), now, tie);
    var e := Audit(s.actor, s.profile, s.workspace, task, DeliverableSubmitted(|db.deliverables|, revision), Working,
                   InReview);
    var mid := db.(deliverables := db.deliverables + [row], tasks := SetStatus(db.tasks, task, InReview));
    AnnounceNotices(t, mid, e, SubmittedNotice);
    SubmitRecipients(t, mid.(audit := mid.audit + [e]), e, u);
  }

  lemma AssignRecipients(t: Tenant, db: WorkDb, e: Audit, u: UserId)
    requires e.action.TaskAssigned? && EligibleEditor(t, e.action.membership, e.profile, e.workspace)
    requires t.memberships[e.action.membership].user == e.action.assignee
    requires (e.task, e.action.assignee) in db.assignments && db.assignments[(e.task, e.action.assignee)].active
    ensures Recipients(t, db, e).Some? && (u in Recipients(t, db, e).value <==> u == e.action.assignee)
  {
  }

  lemma ManagersAreNotEditors(t: Tenant, s: Scope, target: MembershipId)
    requires UniqueActive(t) && MayManage(t, s) && EligibleEditor(t, target, s.profile, s.workspace)
    ensures t.memberships[target].user != s.actor && Locked(t, s) && t.workspaces[s.workspace].status.Active?
            && ReadableBy(t, s.actor, s.profile, s.workspace)
  {
  }

  /** Assigning tells exactly the new assignee, who is never the manager who assigned. */
  lemma AssignNotifiesAssignee(t: Tenant, db: WorkDb, s: Scope, task: TaskId, target: MembershipId, now: Time,
                               u: UserId)
    requires UniqueActive(t) && NoticesLogged(db) && AssignTask(t, db, s, task, target, now).Ok?
    ensures (|db.audit|, u) in AssignTask(t, db, s, task, target, now).value.notifications
            <==> u == t.memberships[target].user
  {
    ManagersAreNotEditors(t, s, target);
    var user, previous := t.memberships[target].user, First(ActiveAssignees(db, task));
    var e := Audit(s.actor, s.profile, s.workspace, task, TaskAssigned(user, target, previous), db.tasks[task].status,
                   Assigned);
    var mid :=
        db.(tasks := SetStatus(db.tasks, task, Assigned),
            assignments := Reassigned(db.assignments, task, previous, user, now));
    AnnounceNotices(t, mid, e, AssignedNotice);
    AssignRecipients(t, mid.(audit := mid.audit + [e]), e, u);
  }

  /** A decision tells the uploader, if they can still read the Workspace, and nobody else. */
  lemma ReviewNotifiesUploader(t: Tenant, db: WorkDb, s: Scope, task: TaskId, d: DeliverableId, decision: Decision,
                               comment: Option<string>, u: UserId)
    requires UniqueActive(t) && NoticesLogged(db) && ReviewDeliverable(t, db, s, task, d, decision, comment).Ok?
    ensures (|db.audit|, u) in ReviewDeliverable(t, db, s, task, d, decision, comment).value.notifications
            <==> u == db.deliverables[d].uploader && ReadableBy(t, u, s.profile, s.workspace)
  {
    LockContextIs(t, s.actor, s.profile, s.workspace);
    LockGivesTenant(t, s);
    ReadPolicyAgrees(t, s.actor, s.profile, s.workspace);
    var text := if comment.Some? && Strip(comment.value) != "" then Some(Strip(comment.value)) else None;
    var after := if decision.Approve? then Completed else Working;
    var e := Audit(s.actor, s.profile, s.workspace, task, DeliverableReviewed(d, db.deliverables[d].revision, decision),
                   InReview, after);
    var mid := db.(reviews := db.reviews[d := Review(s.actor, decision, text)],
                   deliverables := db.deliverables[d := db.deliverables[d].(status := StatusFor(decision))],
                   tasks := SetStatus(db.tasks, task, after));
    AnnounceNotices(t, mid, e, if decision.Approve? then ApprovedNotice else ChangesNotice);
  }
}
