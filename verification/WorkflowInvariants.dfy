/** What every run of the Task services keeps: the hierarchy, the shape of each Task's
    assignments, deliverables and reviews, and an audit trail that determines its status. */
module WorkflowInvariants {
  import opened Prelude
  import opened Tenancy
  import opened TaskHierarchy
  import opened TaskWorkflow

  /** Revisions are 1, 2, ... in creation order and all but the last are rejected. */
  predicate IsHistory(h: seq<Deliverable>) {
    (forall i :: 0 <= i < |h| ==> h[i].revision == i + 1)
    && (forall i :: 0 <= i < |h| - 1 ==> h[i].status.Rejected?)
    && (h != [] ==> !h[|h| - 1].status.Unsent?)
  }

  ghost predicate TaskInv(db: WorkDb, task: TaskId)
    requires task in db.tasks
  {
    var h, status := History(db.deliverables, task), db.tasks[task].status;
    IsHistory(h)
    && (status.InReview? <==> h != [] && h[|h| - 1].status.Submitted?)
    && (status.Completed? <==> h != [] && h[|h| - 1].status.Approved?)
    && (status.Pending? <==> ActiveAssignees(db, task) == {})
    && (forall u, v :: u in ActiveAssignees(db, task) && v in ActiveAssignees(db, task) ==> u == v)
  }

  /** A deliverable is decided exactly when it has a review, which matches it and is by somebody else. */
  ghost predicate ReviewsMatch(db: WorkDb) {
    (forall d :: d in db.reviews ==> d < |db.deliverables|)
    && (forall d :: 0 <= d < |db.deliverables| ==>
          (d in db.reviews <==> db.deliverables[d].status.Approved? || db.deliverables[d].status.Rejected?))
    && (forall d :: d in db.reviews ==>
          (db.reviews[d].decision.Approve? <==> db.deliverables[d].status.Approved?)
          && (db.reviews[d].decision.RequestChanges? ==> db.reviews[d].comment.Some?)
          && db.reviews[d].reviewer != db.deliverables[d].uploader)
  }

  ghost predicate RowsInv(db: WorkDb) {
    (forall k :: k in db.assignments ==> k.0 in db.tasks)
    && (forall d :: 0 <= d < |db.deliverables| ==> db.deliverables[d].task in db.tasks)
    && ReviewsMatch(db)
    && forall task :: task in db.tasks ==> TaskInv(db, task)
  }

  predicate IsStep(action: Action) { !action.TaskCreated? && !action.TaskUpdated? }

  /** The status a workflow step leads to, whatever the Task was before. */
  function Effect(action: Action): TaskStatus
    requires IsStep(action)
  {
    match action
    case TaskAssigned(_, _, _) => Assigned
    case TaskStarted => Working
    case DeliverableSubmitted(_, _) => InReview
    case DeliverableReviewed(_, _, decision) => if decision.Approve? then Completed else Working
  }

  /** The status read off the audit rows alone. */
  function Replay(audit: seq<Audit>, task: TaskId): TaskStatus {
    if audit == [] then Pending
    else
      var last := audit[|audit| - 1];
      if last.task == task && IsStep(last.action) then Effect(last.action) else Replay(audit[..|audit| - 1], task)
  }

  /** Each Task's entries form an unbroken chain from PENDING to its current status. */
  ghost predicate TrailInv(db: WorkDb) {
    (forall task :: task in db.tasks ==> Replay(db.audit, task) == db.tasks[task].status)
    && (forall i :: 0 <= i < |db.audit| ==> db.audit[i].task in db.tasks)
    && (forall i :: 0 <= i < |db.audit| && IsStep(db.audit[i].action) ==>
          db.audit[i].before == Replay(db.audit[..i], db.audit[i].task)
              && db.audit[i].after == Effect(db.audit[i].action))
  }

  ghost predicate WorkInv(db: WorkDb) { ValidForest(db.tasks) && RowsInv(db) && TrailInv(db) }

  // ----- histories -----

  lemma HistoryOfAppend(ds: seq<Deliverable>, row: Deliverable, task: TaskId)
    ensures History(ds + [row], task) == History(ds, task) + if row.task == task then [row] else []
  {
  }

  /** Replacing a row of a Task replaces one entry of its history and touches no other history. */
  lemma {:induction false} HistoryOfUpdate(ds: seq<Deliverable>, i: nat, row: Deliverable, task: TaskId)
      returns (j: nat)
    requires i < |ds| && row.task == ds[i].task
    ensures row.task != task ==> History(ds[i := row], task) == History(ds, task)
    ensures row.task == task ==> j < |History(ds, task)| && History(ds, task)[j] == ds[i]
                                 && History(ds[i := row], task) == History(ds, task)[j := row]
    decreases |ds|
  {
    var front := ds[..|ds| - 1];
    j := 0;
    if i == |ds| - 1 {
      assert ds[i := row][..|ds| - 1] == front;
      if row.task == task { j := |History(front, task)|; }
    } else {
      assert ds[i := row][..|ds| - 1] == front[i := row];
      j := HistoryOfUpdate(front, i, row, task);
    }
  }

  lemma {:induction false} HistoryOfNobody(ds: seq<Deliverable>, task: TaskId)
    requires forall d :: 0 <= d < |ds| ==> ds[d].task != task
    ensures History(ds, task) == []
  {
    if ds != [] { HistoryOfNobody(ds[..|ds| - 1], task); }
  }

  /** Counting rows or asking for the highest revision is the same thing. */
  lemma {:induction false} RevisionCounts(ds: seq<Deliverable>, task: TaskId)
    requires forall i :: 0 <= i < |History(ds, task)| ==> History(ds, task)[i].revision == i + 1
    ensures LatestRevision(ds, task) == |History(ds, task)|
  {
    if ds != [] {
      var h, front := History(ds, task), History(ds[..|ds| - 1], task);
      assert forall i :: 0 <= i < |front| ==> front[i] == h[i];
      RevisionCounts(ds[..|ds| - 1], task);
      if ds[|ds| - 1].task == task { assert h[|front|].revision == |front| + 1; }
    }
  }

  // ----- what each service writes -----

  /** Old notices keep their read state; new ones belong to the new audit row. */
  ghost predicate NoticesGrow(db: WorkDb, next: WorkDb) {
    (forall k :: k in db.notifications ==> k in next.notifications && next.notifications[k] == db.notifications[k])
    && (forall k :: k in next.notifications && k !in db.notifications ==>
          k.0 == |db.audit| && !next.notifications[k].read)
  }

  /** A step moves one Task to its new status and logs it; rows of other tables are named separately. */
  ghost predicate StepWrites(db: WorkDb, next: WorkDb, e: Audit) {
    e.task in db.tasks && IsStep(e.action) && e.before == db.tasks[e.task].status && e.after == Effect(e.action)
    && next.tasks == SetStatus(db.tasks, e.task, e.after) && next.audit == db.audit + [e]
  }

  lemma AnnounceWrites(t: Tenant, db: WorkDb, e: Audit, kind: Kind)
    ensures Announce(t, db, e, kind).Ok? ==>
              var next := Announce(t, db, e, kind).value;
              next == db.(audit := db.audit + [e], notifications := next.notifications) && NoticesGrow(db, next)
  {
  }

  ghost predicate AssignWrites(db: WorkDb, next: WorkDb, e: Audit, user: UserId, now: Time) {
    StepWrites(db, next, e) && e.action.TaskAssigned? && !e.before.InReview? && !e.before.Completed?
    && ActiveAssignees(db, e.task) <= (if e.action.previous.Some? then {e.action.previous.value} else {})
    && (e.action.previous.Some? ==>
          e.action.previous.value in ActiveAssignees(db, e.task) && e.action.previous.value != user)
    && next.assignments == Reassigned(db.assignments, e.task, e.action.previous, user, now)
    && next.deliverables == db.deliverables && next.reviews == db.reviews
  }

  lemma AssignMeans(t: Tenant, db: WorkDb, s: Scope, task: TaskId, target: MembershipId, now: Time)
    requires AssignTask(t, db, s, task, target, now).Ok?
    ensures var next := AssignTask(t, db, s, task, target, now).value;
            |next.audit| == |db.audit| + 1 && target in t.memberships && NoticesGrow(db, next)
            && AssignWrites(db, next, next.audit[|db.audit|], t.memberships[target].user, now)
            && next.audit[|db.audit|].task == task && next.audit[|db.audit|].actor == s.actor
  {
    var user, previous := t.memberships[target].user, First(ActiveAssignees(db, task));
    var e := Audit(s.actor, s.profile, s.workspace, task, TaskAssigned(user, target, previous), db.tasks[task].status,
                   Assigned);
    AnnounceWrites(t, db.(tasks := SetStatus(db.tasks, task, Assigned),
                          assignments := Reassigned(db.assignments, task, previous, user, now)), e, AssignedNotice);
  }

  ghost predicate StartWrites(db: WorkDb, next: WorkDb, e: Audit) {
    StepWrites(db, next, e) && e.action.TaskStarted? && e.before.Assigned? && e.actor in ActiveAssignees(db, e.task)
    && next.assignments == db.assignments && next.deliverables == db.deliverables && next.reviews == db.reviews
  }

  lemma StartMeans(t: Tenant, db: WorkDb, s: Scope, task: TaskId)
    requires StartTask(t, db, s, task).Ok?
    ensures var next := StartTask(t, db, s, task).value;
            |next.audit| == |db.audit| + 1 && NoticesGrow(db, next) && StartWrites(db, next, next.audit[|db.audit|])
            && next.audit[|db.audit|].task == task && next.audit[|db.audit|].actor == s.actor
  {
  }

  ghost predicate SubmitWrites(db: WorkDb, next: WorkDb, e: Audit) {
    StepWrites(db, next, e) && e.action.DeliverableSubmitted? && e.before.Working?
        && e.actor in ActiveAssignees(db, e.task)
    && |next.deliverables| == |db.deliverables| + 1
    && (var row := next.deliverables[|db.deliverables|];
        next.deliverables == db.deliverables + [row] && row.task == e.task && row.uploader == e.actor
            && row.status.Submitted?
        && row.revision == LatestRevision(db.deliverables, e.task) + 1
        && e.action == DeliverableSubmitted(|db.deliverables|, row.revision))
    && next.assignments == db.assignments && next.reviews == db.reviews
  }

  lemma SubmitMeans(t: Tenant, db: WorkDb, s: Scope, task: TaskId, url: string, now: Time, tie: nat)
    requires SubmitDeliverable(t, db, s, task, url, now, tie).Ok?
    ensures var next := SubmitDeliverable(t, db, s, task, url, now, tie).value;
            |next.audit| == |db.audit| + 1 && NoticesGrow(db, next) && SubmitWrites(db, next, next.audit[|db.audit|])
            && next.audit[|db.audit|].task == task && next.audit[|db.audit|].actor == s.actor
  {
    var revision := LatestRevision(db.deliverables, task) + 1;
    var row := Deliverable(task, s.actor, revision, Submitted, Strip(url), now, tie);
    var e := Audit(s.actor, s.profile, s.workspace, task, DeliverableSubmitted(|db.deliverables|, revision), Working,
                   InReview);
    AnnounceWrites(t, db.(deliverables := db.deliverables + [row], tasks := SetStatus(db.tasks, task, InReview)), e,
                   SubmittedNotice);
  }

  ghost predicate ReviewWrites(db: WorkDb, next: WorkDb, e: Audit) {
    StepWrites(db, next, e) && e.action.DeliverableReviewed? && e.before.InReview?
    && (var d := e.action.reviewed;
        d < |db.deliverables| && db.deliverables[d].task == e.task && db.deliverables[d].status.Submitted?
        && db.deliverables[d].uploader != e.actor && d !in db.reviews && d in next.reviews
        && next.reviews == db.reviews[d := next.reviews[d]] && next.reviews[d].reviewer == e.actor
        && next.reviews[d].decision == e.action.decision
        && (e.action.decision.RequestChanges? ==> next.reviews[d].comment.Some?)
        && next.deliverables == db.deliverables[d := db.deliverables[d].(status := StatusFor(e.action.decision))])
    && next.assignments == db.assignments
  }

  lemma ReviewMeans(t: Tenant, db: WorkDb, s: Scope, task: TaskId, d: DeliverableId, decision: Decision,
                    comment: Option<string>)
    requires ReviewDeliverable(t, db, s, task, d, decision, comment).Ok?
    ensures var next := ReviewDeliverable(t, db, s, task, d, decision, comment).value;
            |next.audit| == |db.audit| + 1 && NoticesGrow(db, next) && ReviewWrites(db, next, next.audit[|db.audit|])
            && next.audit[|db.audit|].task == task && next.audit[|db.audit|].actor == s.actor
            && next.audit[|db.audit|].action == DeliverableReviewed(d, db.deliverables[d].revision, decision)
  {
    var text := if comment.Some? && Strip(comment.value) != "" then Some(Strip(comment.value)) else None;
    var after := if decision.Approve? then Completed else Working;
    var e := Audit(s.actor, s.profile, s.workspace, task, DeliverableReviewed(d, db.deliverables[d].revision, decision),
                   InReview, after);
    AnnounceWrites(t, db.(reviews := db.reviews[d := Review(s.actor, decision, text)],
                          deliverables := db.deliverables[d := db.deliverables[d].(status := StatusFor(decision))],
                          tasks := SetStatus(db.tasks, task, after)), e,
                   if decision.Approve? then ApprovedNotice else ChangesNotice);
  }

  /** Creating or updating writes one row, in a valid forest, and at most one log entry. */
  ghost predicate EditWrites(db: WorkDb, next: WorkDb, e: Audit) {
    e.task in next.tasks && next.tasks == db.tasks[e.task := next.tasks[e.task]] && ValidForest(next.tasks)
    && (if e.task in db.tasks then e.action.TaskUpdated? && next.tasks[e.task].status == db.tasks[e.task].status
                                   && next.tasks[e.task].workspace == db.tasks[e.task].workspace
                                   && next.tasks != db.tasks
        else e.action.TaskCreated? && next.tasks[e.task].status.Pending?)
    && next == db.(tasks := next.tasks, audit := db.audit + [e])
  }

  lemma CreateMeans(t: Tenant, db: WorkDb, s: Scope, draft: Draft, parent: Option<TaskId>, id: TaskId)
    requires CreateTask(t, db, s, draft, parent, id).Ok?
    ensures var next := CreateTask(t, db, s, draft, parent, id).value;
            |next.audit| == |db.audit| + 1 && EditWrites(db, next, next.audit[|db.audit|])
            && next.audit[|db.audit|].task == id && id !in db.tasks
  {
  }

  lemma UpdateMeans(t: Tenant, db: WorkDb, s: Scope, task: TaskId, p: Patch)
    requires UpdateTask(t, db, s, task, p).Ok?
    ensures var next := UpdateTask(t, db, s, task, p).value;
            next == db || (|next.audit| == |db.audit| + 1 && EditWrites(db, next, next.audit[|db.audit|])
                           && next.audit[|db.audit|].task == task && task in db.tasks)
  {
  }

  // ----- frames -----

  lemma SameRows(db: WorkDb, next: WorkDb, task: TaskId)
    requires task in db.tasks && task in next.tasks && next.tasks[task].status == db.tasks[task].status
             && TaskInv(db, task)
    requires History(next.deliverables, task) == History(db.deliverables, task)
    requires ActiveAssignees(next, task) == ActiveAssignees(db, task)
    ensures TaskInv(next, task)
  {
  }

  /** Rows of every other Task are left alone. */
  lemma OneTaskMoves(db: WorkDb, next: WorkDb, e: Audit)
    requires (forall k :: k in db.assignments ==> k.0 in db.tasks)
             && (forall task :: task in db.tasks ==> TaskInv(db, task))
    requires StepWrites(db, next, e)
    requires AssignmentsOf(db, next, e.task)
    requires forall d :: 0 <= d < |next.deliverables| ==> next.deliverables[d].task in db.tasks
    requires forall other :: other in db.tasks && other != e.task ==>
               History(next.deliverables, other) == History(db.deliverables, other)
    requires ReviewsMatch(next) && TaskInv(next, e.task)
    ensures RowsInv(next)
  {
    forall other | other in next.tasks && other != e.task ensures TaskInv(next, other) {
      SameAssignees(db, next, other);
      SameRows(db, next, other);
    }
  }

  lemma StatusKeepsForest(db: WorkDb, next: WorkDb, e: Audit)
    requires ValidForest(db.tasks) && StepWrites(db, next, e)
    ensures ValidForest(next.tasks)
  {
    ForestDependsOnShape(db.tasks, next.tasks);
  }

  lemma PrefixesStay(audit: seq<Audit>, e: Audit, more: seq<Audit>)
    requires more == audit + [e]
    ensures more[..|audit|] == audit && forall i :: 0 <= i <= |audit| ==> more[..i] == audit[..i]
  {
  }

  lemma TrailGrows(db: WorkDb, next: WorkDb, e: Audit)
    requires TrailInv(db) && StepWrites(db, next, e)
    ensures TrailInv(next)
  {
    PrefixesStay(db.audit, e, next.audit);
  }

  lemma TrailIgnores(db: WorkDb, next: WorkDb, e: Audit)
    requires TrailInv(db) && EditWrites(db, next, e)
    ensures TrailInv(next)
  {
    PrefixesStay(db.audit, e, next.audit);
    if e.task !in db.tasks { NobodysReplay(db.audit, e.task); }
  }

  lemma {:induction false} NobodysReplay(audit: seq<Audit>, task: TaskId)
    requires forall i :: 0 <= i < |audit| ==> audit[i].task != task
    ensures Replay(audit, task) == Pending
  {
    if audit != [] { NobodysReplay(audit[..|audit| - 1], task); }
  }

  // ----- one lemma per kind of write -----

  lemma SameAssignees(db: WorkDb, next: WorkDb, task: TaskId)
    requires forall k: (TaskId, UserId) :: k.0 == task ==> (k in db.assignments <==> k in next.assignments)
    requires forall k :: k in db.assignments && k.0 == task ==> next.assignments[k].active == db.assignments[k].active
    ensures ActiveAssignees(next, task) == ActiveAssignees(db, task)
  {
  }

  lemma NewTaskIsClean(db: WorkDb, task: TaskId)
    requires RowsInv(db) && task !in db.tasks
    ensures History(db.deliverables, task) == [] && ActiveAssignees(db, task) == {}
  {
    HistoryOfNobody(db.deliverables, task);
  }

  lemma EditKeepsTask(db: WorkDb, next: WorkDb, e: Audit, task: TaskId)
    requires RowsInv(db) && EditWrites(db, next, e) && task in next.tasks
    ensures TaskInv(next, task)
  {
    SameAssignees(db, next, task);
    if task in db.tasks {
      assert TaskInv(db, task);
    } else {
      NewTaskIsClean(db, task);
    }
  }

  lemma EditKeeps(db: WorkDb, next: WorkDb, e: Audit)
    requires RowsInv(db) && EditWrites(db, next, e)
    ensures RowsInv(next)
  {
    forall task | task in next.tasks ensures TaskInv(next, task) { EditKeepsTask(db, next, e, task); }
  }

  lemma AssignLeavesOne(db: WorkDb, next: WorkDb, e: Audit, user: UserId, now: Time)
    requires AssignWrites(db, next, e, user, now)
    ensures ActiveAssignees(next, e.task) == {user}
  {
  }

  lemma AssignKeepsTask(db: WorkDb, next: WorkDb, e: Audit, user: UserId, now: Time)
    requires e.task in db.tasks && TaskInv(db, e.task) && AssignWrites(db, next, e, user, now)
    ensures TaskInv(next, e.task)
  {
    AssignLeavesOne(db, next, e, user, now);
  }

  /** Only assignments of the one Task are touched. */
  ghost predicate AssignmentsOf(db: WorkDb, next: WorkDb, task: TaskId) {
    (forall k :: k in next.assignments ==> k in db.assignments || k.0 == task)
    && forall k :: k in db.assignments && k.0 != task ==>
         k in next.assignments && next.assignments[k] == db.assignments[k]
  }

  lemma AssignTouchesOne(db: WorkDb, next: WorkDb, e: Audit, user: UserId, now: Time)
    requires AssignWrites(db, next, e, user, now)
    ensures AssignmentsOf(db, next, e.task)
  {
  }

  lemma AssignKeeps(db: WorkDb, next: WorkDb, e: Audit, user: UserId, now: Time)
    requires RowsInv(db) && AssignWrites(db, next, e, user, now)
    ensures RowsInv(next)
  {
    AssignKeepsTask(db, next, e, user, now);
    AssignTouchesOne(db, next, e, user, now);
    OneTaskMoves(db, next, e);
  }

  lemma StartKeepsTask(db: WorkDb, next: WorkDb, e: Audit)
    requires e.task in db.tasks && TaskInv(db, e.task) && StartWrites(db, next, e)
    ensures TaskInv(next, e.task)
  {
  }

  lemma StartKeeps(db: WorkDb, next: WorkDb, e: Audit)
    requires RowsInv(db) && StartWrites(db, next, e)
    ensures RowsInv(next)
  {
    StartKeepsTask(db, next, e);
    OneTaskMoves(db, next, e);
  }

  lemma SubmitKeepsTask(db: WorkDb, next: WorkDb, e: Audit)
    requires RowsInv(db) && SubmitWrites(db, next, e)
    ensures TaskInv(next, e.task)
  {
    assert TaskInv(db, e.task);
    RevisionCounts(db.deliverables, e.task);
    HistoryOfAppend(db.deliverables, next.deliverables[|db.deliverables|], e.task);
    NextRevision(History(db.deliverables, e.task), next.deliverables[|db.deliverables|]);
    SameAssignees(db, next, e.task);
  }

  lemma NextRevision(h: seq<Deliverable>, row: Deliverable)
    requires IsHistory(h) && (h != [] ==> h[|h| - 1].status.Rejected?) && row.revision == |h| + 1
             && row.status.Submitted?
    ensures IsHistory(h + [row])
  {
  }

  lemma SubmitKeepsReviews(db: WorkDb, next: WorkDb, e: Audit)
    requires ReviewsMatch(db) && SubmitWrites(db, next, e)
    ensures ReviewsMatch(next)
  {
  }

  lemma SubmitKeeps(db: WorkDb, next: WorkDb, e: Audit)
    requires RowsInv(db) && SubmitWrites(db, next, e)
    ensures RowsInv(next)
  {
    SubmitKeepsTask(db, next, e);
    SubmitKeepsReviews(db, next, e);
    forall other | other != e.task ensures History(next.deliverables, other) == History(db.deliverables, other) {
      HistoryOfAppend(db.deliverables, next.deliverables[|db.deliverables|], other);
    }
    OneTaskMoves(db, next, e);
  }

  lemma LastDecided(h: seq<Deliverable>, row: Deliverable)
    requires IsHistory(h) && h != [] && row == h[|h| - 1].(status := row.status) && !row.status.Unsent?
    ensures IsHistory(h[|h| - 1 := row])
  {
  }

  lemma ReviewKeepsTask(db: WorkDb, next: WorkDb, e: Audit)
    requires e.task in db.tasks && TaskInv(db, e.task) && ReviewWrites(db, next, e)
    ensures TaskInv(next, e.task)
  {
    var d := e.action.reviewed;
    var j := HistoryOfUpdate(db.deliverables, d, next.deliverables[d], e.task);
    assert j == |History(db.deliverables, e.task)| - 1;
    LastDecided(History(db.deliverables, e.task), next.deliverables[d]);
    SameAssignees(db, next, e.task);
  }

  lemma ReviewKeepsReviews(db: WorkDb, next: WorkDb, e: Audit)
    requires ReviewsMatch(db) && ReviewWrites(db, next, e)
    ensures ReviewsMatch(next)
  {
  }

  lemma ReviewKeeps(db: WorkDb, next: WorkDb, e: Audit)
    requires RowsInv(db) && ReviewWrites(db, next, e)
    ensures RowsInv(next)
  {
    ReviewKeepsTask(db, next, e);
    ReviewKeepsReviews(db, next, e);
    var d := e.action.reviewed;
    forall other | other != e.task ensures History(next.deliverables, other) == History(db.deliverables, other) {
      var _ := HistoryOfUpdate(db.deliverables, d, next.deliverables[d], other);
    }
    OneTaskMoves(db, next, e);
  }

  // ----- runs -----

  /** The log entry a successful call adds; a patch that changes nothing adds none. */
  ghost predicate CallWrites(db: WorkDb, next: WorkDb, r: Request) {
    next == db
    || (|next.audit| == |db.audit| + 1 && NoticesGrow(db, next)
        && var e := next.audit[|db.audit|];
           match r.call
           case Create(_, _, id) => EditWrites(db, next, e) && e.task == id && id !in db.tasks
           case Update(task, _) => EditWrites(db, next, e) && e.task == task && task in db.tasks
           case Assign(task, target) => target in r.tenant.memberships && e.task == task
                                        && AssignWrites(db, next, e, r.tenant.memberships[target].user, r.now)
           case Start(task) => StartWrites(db, next, e) && e.task == task && e.actor == r.scope.actor
           case Submit(task, _, _) => SubmitWrites(db, next, e) && e.task == task && e.actor == r.scope.actor
           case Decide(task, d, decision, _) => ReviewWrites(db, next, e) && e.task == task && e.actor == r.scope.actor
                                                && e.action.reviewed == d && e.action.decision == decision)
  }

  lemma EditCallMeans(db: WorkDb, r: Request)
    requires (r.call.Create? || r.call.Update? || r.call.Start?) && Attempt(db, r).Ok?
    ensures CallWrites(db, Attempt(db, r).value, r)
    ensures !r.call.Update? ==> |Attempt(db, r).value.audit| == |db.audit| + 1
  {
    match r.call
    case Create(draft, parent, id) => CreateMeans(r.tenant, db, r.scope, draft, parent, id);
    case Update(task, patch) => UpdateMeans(r.tenant, db, r.scope, task, patch);
    case Start(task) => StartMeans(r.tenant, db, r.scope, task);
  }

  lemma NotifyingCallMeans(db: WorkDb, r: Request)
    requires (r.call.Assign? || r.call.Submit? || r.call.Decide?) && Attempt(db, r).Ok?
    ensures CallWrites(db, Attempt(db, r).value, r)
    ensures |Attempt(db, r).value.audit| == |db.audit| + 1
  {
    match r.call
    case Assign(task, target) => AssignMeans(r.tenant, db, r.scope, task, target, r.now);
    case Submit(task, url, tie) => SubmitMeans(r.tenant, db, r.scope, task, url, r.now, tie);
    case Decide(task, d, decision, comment) => ReviewMeans(r.tenant, db, r.scope, task, d, decision, comment);
  }

  /** What a call writes: nothing when it fails, one log entry when it succeeds (none for an empty patch). */
  lemma CallMeans(db: WorkDb, r: Request)
    ensures CallWrites(db, Step(db, r), r)
    ensures Attempt(db, r).Err? ==> Step(db, r) == db
    ensures Attempt(db, r).Ok? && !r.call.Update? ==> |Step(db, r).audit| == |db.audit| + 1
  {
    if Attempt(db, r).Ok? {
      if r.call.Create? || r.call.Update? || r.call.Start? {
        EditCallMeans(db, r);
      } else {
        NotifyingCallMeans(db, r);
      }
    }
  }

  lemma WritesKeep(db: WorkDb, next: WorkDb, r: Request)
    requires WorkInv(db) && CallWrites(db, next, r)
    ensures WorkInv(next)
  {
    if next != db {
      var e := next.audit[|db.audit|];
      if r.call.Create? || r.call.Update? {
        EditKeeps(db, next, e);
        TrailIgnores(db, next, e);
      } else {
        StatusKeepsForest(db, next, e);
        TrailGrows(db, next, e);
        match r.call
        case Assign(task, target) => AssignKeeps(db, next, e, r.tenant.memberships[target].user, r.now);
        case Start(task) => StartKeeps(db, next, e);
        case Submit(task, _, _) => SubmitKeeps(db, next, e);
        case Decide(task, _, _, _) => ReviewKeeps(db, next, e);
      }
    }
  }

  lemma StepKeeps(db: WorkDb, r: Request)
    requires WorkInv(db)
    ensures WorkInv(Step(db, r))
  {
    CallMeans(db, r);
    WritesKeep(db, Step(db, r), r);
  }

  /** Every run of the Task services from empty tables, over any changing tenant rows, any clock
      and any ids, satisfies the workflow, hierarchy and audit invariants. */
  lemma {:induction false} EveryRunKeeps(requests: seq<Request>)
    ensures WorkInv(Run(EMPTY, requests))
  {
    if requests == [] {
      forall task ensures History([], task) == [] {}
    } else {
      EveryRunKeeps(requests[..|requests| - 1]);
      StepKeeps(Run(EMPTY, requests[..|requests| - 1]), requests[|requests| - 1]);
    }
  }

  /** COMPLETED is final: no call moves a completed Task or changes its deliverables. */
  lemma CompletedStays(db: WorkDb, r: Request, task: TaskId)
    requires WorkInv(db) && task in db.tasks && db.tasks[task].status.Completed?
    ensures task in Step(db, r).tasks && Step(db, r).tasks[task].status.Completed?
    ensures History(Step(db, r).deliverables, task) == History(db.deliverables, task)
  {
    CallMeans(db, r);
    CompletedIgnores(db, Step(db, r), r, task);
  }

  lemma CompletedIgnores(db: WorkDb, next: WorkDb, r: Request, task: TaskId)
    requires CallWrites(db, next, r) && task in db.tasks && db.tasks[task].status.Completed?
    ensures task in next.tasks && next.tasks[task].status.Completed?
    ensures History(next.deliverables, task) == History(db.deliverables, task)
  {
    if next != db {
      var e := next.audit[|db.audit|];
      if r.call.Submit? {
        HistoryOfAppend(db.deliverables, next.deliverables[|db.deliverables|], task);
      } else if r.call.Decide? {
        var _ := HistoryOfUpdate(db.deliverables, e.action.reviewed, next.deliverables[e.action.reviewed], task);
      }
    }
  }
}
