/** The Task services as they run: rows changed step by step inside a transaction, which is
    undone when a later step fails. Each method does exactly what its function in TaskWorkflow says. */
module TaskStore {
  import opened Prelude
  import opened Tenancy
  import opened TaskHierarchy
  import opened TaskWorkflow
  import opened WorkflowInvariants

  /** A transaction either commits the specified next state or leaves the state before it. */
  predicate Committed(spec: Result<WorkDb, ServiceError>, before: WorkDb, after: WorkDb, error: Option<ServiceError>) {
    match spec
    case Ok(next) => after == next && error.None?
    case Err(e) => after == before && error == Some(e)
  }

  /** Either outcome of a call leaves the tables in order. */
  lemma CommittedKeeps(before: WorkDb, r: Request, after: WorkDb, error: Option<ServiceError>)
    requires WorkInv(before) && Committed(Attempt(before, r), before, after, error)
    ensures WorkInv(after)
  {
    StepKeeps(before, r);
  }

  class Store {
    var tasks: map<TaskId, Task>
    var assignments: map<(TaskId, UserId), Assignment>
    var deliverables: seq<Deliverable>
    var reviews: map<DeliverableId, Review>
    var audit: seq<Audit>
    var notifications: map<(EventId, UserId), Notification>

    function Db(): WorkDb reads this { WorkDb(tasks, assignments, deliverables, reviews, audit, notifications) }

    /** Kept by every service; the other methods are steps inside a transaction. */
    ghost predicate Valid() reads this { WorkInv(Db()) }

    constructor ()
      ensures Db() == EMPTY && Valid()
    {
      EveryRunKeeps([]);
      tasks, assignments, deliverables, reviews, audit, notifications := map[], map[], [], map[], [], map[];
    }

    method Rollback(saved: WorkDb)
      modifies this
      ensures Db() == saved
    {
      tasks, assignments, deliverables := saved.tasks, saved.assignments, saved.deliverables;
      reviews, audit, notifications := saved.reviews, saved.audit, saved.notifications;
    }

    /** Re-validates the whole row, hierarchy included, before the status is written. */
    method SaveTaskStatus(task: TaskId, next: TaskStatus) returns (previous: TaskStatus)
      requires task in tasks && ValidForest(tasks)
      modifies this`tasks
      ensures tasks == SetStatus(old(tasks), task, next) && previous == old(tasks)[task].status
      ensures ValidForest(tasks)
    {
      previous := tasks[task].status;
      var row := tasks[task].(status := next);
      var verdict := CleanHierarchy(tasks, task, row, false);
      ForestDependsOnShape(tasks, tasks[task := row]);
      assert verdict.Accepted?;
      tasks := tasks[task := row];
    }

    method CreateTask(t: Tenant, s: Scope, draft: Draft, parent: Option<TaskId>, id: TaskId)
        returns (error: Option<ServiceError>)
      requires Valid()
      modifies this
      ensures Committed(TaskWorkflow.CreateTask(t, old(Db()), s, draft, parent, id), old(Db()), Db(), error)
      ensures Valid()
      ensures Db() == Step(old(Db()), Request(t, s, 0, Create(draft, parent, id)))
    {
      ghost var before := Db();
      error := InsertTask(t, s, draft, parent, id);
      CommittedKeeps(before, Request(t, s, 0, Create(draft, parent, id)), Db(), error);
    }

    /** The transaction of `create_task`. */
    method InsertTask(t: Tenant, s: Scope, draft: Draft, parent: Option<TaskId>, id: TaskId)
        returns (error: Option<ServiceError>)
      requires ValidForest(tasks)
      modifies this
      ensures Committed(TaskWorkflow.CreateTask(t, old(Db()), s, draft, parent, id), old(Db()), Db(), error)
      ensures ValidForest(tasks)
    {
      var locked := LockManager(t, s);
      if locked.Err? { return Some(locked.error); }
      if parent.Some? && !InWorkspace(Db(), parent.value, s.workspace) { return Some(NotFound); }
      var row :=
          Task(s.workspace, parent, Strip(draft.title), draft.description, draft.priority, draft.deadline, Pending,
               s.actor);
      if id in tasks || !ValidTitle(row.title) { return Some(Invalid); }
      var verdict := CleanHierarchy(tasks, id, row, true);
      if !verdict.Accepted? { return Some(Invalid); }
      tasks := tasks[id := row];
      audit := audit + [Audit(s.actor, s.profile, s.workspace, id, TaskCreated, Pending, Pending)];
      return None;
    }

    /** Assign the members that differ, noting whether any did. */
    static method ApplyPatch(before: Task, p: Patch) returns (row: Task, changed: bool)
      ensures row == Patched(before, p) && (changed <==> row != before)
    {
      row, changed := before, false;
      if p.parent.Some? && row.parent != p.parent.value { row := row.(parent := p.parent.value); changed := true; }
      if p.title.Some? && row.title != Strip(p.title.value) {
        row := row.(title := Strip(p.title.value));
        changed := true;
      }
      if p.description.Some? && row.description != p.description.value {
        row := row.(description := p.description.value);
        changed := true;
      }
      if p.priority.Some? && row.priority != p.priority.value {
        row := row.(priority := p.priority.value);
        changed := true;
      }
      if p.deadline.Some? && row.deadline != p.deadline.value {
        row := row.(deadline := p.deadline.value);
        changed := true;
      }
    }

    method UpdateTask(t: Tenant, s: Scope, task: TaskId, p: Patch) returns (error: Option<ServiceError>)
      requires Valid()
      modifies this
      ensures Committed(TaskWorkflow.UpdateTask(t, old(Db()), s, task, p), old(Db()), Db(), error)
      ensures Valid()
      ensures Db() == Step(old(Db()), Request(t, s, 0, Update(task, p)))
    {
      ghost var before := Db();
      error := SaveUpdate(t, s, task, p);
      CommittedKeeps(before, Request(t, s, 0, Update(task, p)), Db(), error);
    }

    /** The transaction of `update_task`. */
    method SaveUpdate(t: Tenant, s: Scope, task: TaskId, p: Patch) returns (error: Option<ServiceError>)
      requires ValidForest(tasks)
      modifies this
      ensures Committed(TaskWorkflow.UpdateTask(t, old(Db()), s, task, p), old(Db()), Db(), error)
      ensures ValidForest(tasks)
    {
      var locked := LockManager(t, s);
      if locked.Err? { return Some(locked.error); }
      if !InWorkspace(Db(), task, s.workspace) { return Some(NotFound); }
      if p.parent.Some? && p.parent.value.Some? && !InWorkspace(Db(), p.parent.value.value, s.workspace) {
        return Some(NotFound);
      }
      var row, changed := ApplyPatch(tasks[task], p);
      if !changed { return None; }
      if !ValidTitle(row.title) { return Some(Invalid); }
      var verdict := CleanHierarchy(tasks, task, row, false);
      if !verdict.Accepted? { return Some(Invalid); }
      tasks := tasks[task := row];
      audit := audit + [Audit(s.actor, s.profile, s.workspace, task, TaskUpdated, row.status, row.status)];
      return None;
    }

    /** Insert one notice per recipient, keeping rows that already exist. */
    method InsertNotices(event: EventId, to: set<UserId>, notice: Notification)
      modifies this`notifications
      ensures notifications == Deliver(old(notifications), event, to, notice)
    {
      var rest := to;
      while rest != {}
        invariant rest <= to
        invariant notifications == Deliver(old(notifications), event, to - rest, notice)
      {
        var u :| u in rest;
        if (event, u) !in notifications {
          notifications := notifications[(event, u) := notice];
        }
        rest := rest - {u};
        assert to - rest == (to - (rest + {u})) + {u};
      }
      assert to - rest == to;
    }

    /** Write an audit row and emit its notifications; a refusal undoes the whole transaction. */
    method LogAndNotify(t: Tenant, saved: WorkDb, e: Audit, kind: Kind) returns (error: Option<ServiceError>)
      modifies this
      ensures Committed(Announce(t, old(Db()), e, kind), saved, Db(), error)
    {
      audit := audit + [e];
      var event := |audit| - 1;
      var emitted := Emit(t, Db(), event, e.actor, e.task, kind);
      if emitted.Err? {
        Rollback(saved);
        return Some(emitted.error);
      }
      var workspace := tasks[e.task].workspace;
      var profile := t.workspaces[workspace].profile;
      if t.profiles[profile].Active? && t.workspaces[workspace].status.Active?
          && ReadableBy(t, e.actor, profile, workspace) {
        var recipients := Recipients(t, Db(), e);
        InsertNotices(event, recipients.value - {e.actor}, Notification(profile, workspace, e.task, kind, false));
      }
      return None;
    }

    method AssignTask(t: Tenant, s: Scope, task: TaskId, target: MembershipId, now: Time)
        returns (error: Option<ServiceError>)
      requires Valid()
      modifies this
      ensures Committed(TaskWorkflow.AssignTask(t, old(Db()), s, task, target, now), old(Db()), Db(), error)
      ensures Valid()
      ensures Db() == Step(old(Db()), Request(t, s, now, Assign(task, target)))
    {
      ghost var before := Db();
      error := SaveAssignment(t, s, task, target, now);
      CommittedKeeps(before, Request(t, s, now, Assign(task, target)), Db(), error);
    }

    /** The transaction of `assign_task`. */
    method SaveAssignment(t: Tenant, s: Scope, task: TaskId, target: MembershipId, now: Time)
        returns (error: Option<ServiceError>)
      requires ValidForest(tasks)
      modifies this
      ensures Committed(TaskWorkflow.AssignTask(t, old(Db()), s, task, target, now), old(Db()), Db(), error)
    {
      var saved := Db();
      var locked := LockManager(t, s);
      if locked.Err? { return Some(locked.error); }
      if !InWorkspace(saved, task, s.workspace) { return Some(NotFound); }
      if tasks[task].status.InReview? || tasks[task].status.Completed? { return Some(Conflict); }
      if !EligibleEditor(t, target, s.profile, s.workspace) { return Some(Invalid); }
      var user := t.memberships[target].user;
      var previous := First(ActiveAssignees(saved, task));
      if previous == Some(user) { return Some(Conflict); }
      if previous.Some? {
        assignments := assignments[(task, previous.value) := assignments[(task, previous.value)].(active := false)];
      }
      if !(ActiveAssignees(saved, task) <= (if previous.Some? then {previous.value} else {})) {
        Rollback(saved);
        return Some(Conflict);
      }
      assignments := assignments[(task, user) := Assignment(true, now)];
      var before := SaveTaskStatus(task, Assigned);
      error := LogAndNotify(t, saved,
                            Audit(s.actor, s.profile, s.workspace, task, TaskAssigned(user, target, previous), before,
                                  Assigned), AssignedNotice);
    }

    method StartTask(t: Tenant, s: Scope, task: TaskId) returns (error: Option<ServiceError>)
      requires Valid()
      modifies this
      ensures Committed(TaskWorkflow.StartTask(t, old(Db()), s, task), old(Db()), Db(), error)
      ensures Valid()
      ensures Db() == Step(old(Db()), Request(t, s, 0, Start(task)))
    {
      ghost var before := Db();
      error := SaveStart(t, s, task);
      CommittedKeeps(before, Request(t, s, 0, Start(task)), Db(), error);
    }

    /** The transaction of `start_task`. */
    method SaveStart(t: Tenant, s: Scope, task: TaskId) returns (error: Option<ServiceError>)
      requires ValidForest(tasks)
      modifies this
      ensures Committed(TaskWorkflow.StartTask(t, old(Db()), s, task), old(Db()), Db(), error)
    {
      var locked := LockExecutor(t, s);
      if locked.Err? { return Some(locked.error); }
      if !InWorkspace(Db(), task, s.workspace) { return Some(NotFound); }
      if !HoldsAssignment(Db(), task, s.actor) { return Some(Forbidden); }
      if !tasks[task].status.Assigned? { return Some(Conflict); }
      var before := SaveTaskStatus(task, Working);
      audit := audit + [Audit(s.actor, s.profile, s.workspace, task, TaskStarted, before, Working)];
      return None;
    }

    method SubmitDeliverable(t: Tenant, s: Scope, task: TaskId, url: string, now: Time, tie: nat)
        returns (error: Option<ServiceError>)
      requires Valid()
      modifies this
      ensures Committed(TaskWorkflow.SubmitDeliverable(t, old(Db()), s, task, url, now, tie), old(Db()), Db(), error)
      ensures Valid()
      ensures Db() == Step(old(Db()), Request(t, s, now, Submit(task, url, tie)))
    {
      ghost var before := Db();
      error := SaveSubmission(t, s, task, url, now, tie);
      CommittedKeeps(before, Request(t, s, now, Submit(task, url, tie)), Db(), error);
    }

    /** The transaction of `submit_deliverable`. */
    method SaveSubmission(t: Tenant, s: Scope, task: TaskId, url: string, now: Time, tie: nat)
        returns (error: Option<ServiceError>)
      requires ValidForest(tasks)
      modifies this
      ensures Committed(TaskWorkflow.SubmitDeliverable(t, old(Db()), s, task, url, now, tie), old(Db()), Db(), error)
    {
      var saved := Db();
      var locked := LockExecutor(t, s);
      if locked.Err? { return Some(locked.error); }
      if !InWorkspace(saved, task, s.workspace) { return Some(NotFound); }
      if !HoldsAssignment(saved, task, s.actor) { return Some(Forbidden); }
      if !tasks[task].status.Working? { return Some(Conflict); }
      if Unresolved(deliverables, task) { return Some(Conflict); }
      var revision := LatestRevision(deliverables, task) + 1;
      var row := Deliverable(task, s.actor, revision, Submitted, Strip(url), now, tie);
      if row.fileUrl == "" || |row.fileUrl| > 500 { return Some(Invalid); }
      var id := |deliverables|;
      deliverables := deliverables + [row];
      var before := SaveTaskStatus(task, InReview);
      assert Db()
             == saved.(deliverables := saved.deliverables + [row], tasks := SetStatus(saved.tasks, task, InReview));
      error := LogAndNotify(t, saved,
                            Audit(s.actor, s.profile, s.workspace, task, DeliverableSubmitted(id, revision), before,
                                  InReview), SubmittedNotice);
    }

    method ReviewDeliverable(t: Tenant, s: Scope, task: TaskId, d: DeliverableId, decision: Decision,
                             comment: Option<string>) returns (error: Option<ServiceError>)
      requires Valid()
      modifies this
      ensures Committed(TaskWorkflow.ReviewDeliverable(t, old(Db()), s, task, d, decision, comment), old(Db()), Db(),
                        error)
      ensures Valid()
      ensures Db() == Step(old(Db()), Request(t, s, 0, Decide(task, d, decision, comment)))
    {
      ghost var before := Db();
      error := SaveReview(t, s, task, d, decision, comment);
      CommittedKeeps(before, Request(t, s, 0, Decide(task, d, decision, comment)), Db(), error);
    }

    /** The transaction of `_review_deliverable`. */
    method SaveReview(t: Tenant, s: Scope, task: TaskId, d: DeliverableId, decision: Decision, comment: Option<string>)
        returns (error: Option<ServiceError>)
      requires ValidForest(tasks)
      modifies this
      ensures Committed(TaskWorkflow.ReviewDeliverable(t, old(Db()), s, task, d, decision, comment), old(Db()), Db(),
                        error)
    {
      var saved := Db();
      var text := None;
      if comment.Some? && Strip(comment.value) != "" { text := Some(Strip(comment.value)); }
      if decision.RequestChanges? && text.None? { return Some(Invalid); }
      var locked := LockManager(t, s);
      if locked.Err? { return Some(locked.error); }
      if !InWorkspace(saved, task, s.workspace) || d >= |deliverables| || deliverables[d].task != task {
        return Some(NotFound);
      }
      if !tasks[task].status.InReview? { return Some(Conflict); }
      if LatestDeliverable(deliverables, task) != Some(d) { return Some(Conflict); }
      if !deliverables[d].status.Submitted? { return Some(Conflict); }
      if deliverables[d].uploader == s.actor { return Some(Forbidden); }
      if d in reviews { return Some(Conflict); }
      reviews := reviews[d := Review(s.actor, decision, text)];
      var next := Working;
      if decision.Approve? {
        deliverables := deliverables[d := deliverables[d].(status := Approved)];
        next := Completed;
      } else {
        deliverables := deliverables[d := deliverables[d].(status := Rejected)];
      }
      var before := SaveTaskStatus(task, next);
      error := LogAndNotify(t, saved, Audit(s.actor, s.profile, s.workspace, task,
                                            DeliverableReviewed(d, deliverables[d].revision, decision), before, next),
                            if decision.Approve? then ApprovedNotice else ChangesNotice);
    }
  }
}
