/** Which deliverable a reviewer may decide. The service only decides "the latest" row, by creation
    time and then by random key, and that need not be the last revision: then the Task is stuck. */
module ReviewTies {
  import opened Prelude
  import opened Tenancy
  import opened TaskHierarchy
  import PlanContract
  import opened TaskWorkflow
  import opened WorkflowInvariants
  import opened CapabilityHints

  // ----- the last row and the latest row -----

  predicate IsLastOf(ds: seq<Deliverable>, task: TaskId, last: nat) {
    last < |ds| && ds[last].task == task && forall i :: last < i < |ds| ==> ds[i].task != task
  }

  /** The last revision is as new as every other row of the Task. */
  predicate LastIsNewest(ds: seq<Deliverable>, task: TaskId, last: nat)
    requires last < |ds|
  {
    forall i :: 0 <= i < last && ds[i].task == task ==> Newer(ds[last], ds[i])
  }

  /** The row chosen as the latest is at least as new as every other row of the Task. */
  lemma {:induction false} LatestIsNewest(ds: seq<Deliverable>, task: TaskId, i: nat)
    requires i < |ds| && ds[i].task == task
    ensures LatestDeliverable(ds, task).Some? && Newer(ds[LatestDeliverable(ds, task).value], ds[i])
  {
    if i < |ds| - 1 { LatestIsNewest(ds[..|ds| - 1], task, i); }
  }

  lemma {:induction false} LatestIsLastWhen(ds: seq<Deliverable>, task: TaskId, last: nat)
    requires IsLastOf(ds, task, last)
    ensures LatestDeliverable(ds, task) == Some(last) <==> LastIsNewest(ds, task, last)
  {
    var front := ds[..|ds| - 1];
    if last < |ds| - 1 {
      LatestIsLastWhen(front, task, last);
    } else {
      forall i | 0 <= i < last && ds[i].task == task
        ensures LatestDeliverable(front, task).Some? && Newer(front[LatestDeliverable(front, task).value], front[i])
      {
        LatestIsNewest(front, task, i);
      }
    }
  }

  lemma {:induction false} HistoryEndsWith(ds: seq<Deliverable>, task: TaskId, last: nat)
    requires IsLastOf(ds, task, last)
    ensures History(ds, task) == History(ds[..last], task) + [ds[last]]
  {
    if last < |ds| - 1 {
      HistoryEndsWith(ds[..|ds| - 1], task, last);
      assert ds[..|ds| - 1][..last] == ds[..last];
    }
  }

  lemma {:induction false} RowInHistory(ds: seq<Deliverable>, task: TaskId, i: nat) returns (j: nat)
    requires i < |ds| && ds[i].task == task
    ensures j < |History(ds, task)| && History(ds, task)[j] == ds[i]
  {
    if i < |ds| - 1 {
      j := RowInHistory(ds[..|ds| - 1], task, i);
    } else {
      j := |History(ds[..i], task)|;
    }
  }

  /** Of a Task in review exactly the last row awaits a decision. */
  lemma OnlyLastIsOpen(db: WorkDb, task: TaskId, last: nat, d: DeliverableId)
    requires WorkInv(db) && task in db.tasks && IsLastOf(db.deliverables, task, last)
    requires d < |db.deliverables| && db.deliverables[d].task == task
    ensures db.tasks[task].status.InReview? ==> (db.deliverables[d].status.Submitted? <==> d == last)
    ensures db.tasks[task].status.InReview? && d == last ==> d !in db.reviews
  {
    var ds := db.deliverables;
    assert TaskInv(db, task);
    HistoryEndsWith(ds, task, last);
    if d < last {
      var j := RowInHistory(ds[..last], task, d);
      assert History(ds, task)[j] == ds[d];
    }
  }

  // ----- when a review succeeds -----

  /** A manager other than the uploader can decide something exactly when the last revision is as new
      as every earlier one, and then it is the last revision that they decide. */
  lemma ReviewableWhen(t: Tenant, db: WorkDb, s: Scope, task: TaskId, last: nat, decision: Decision,
                       comment: Option<string>)
    requires UniqueActive(t) && WorkInv(db) && InWorkspace(db, task, s.workspace) && db.tasks[task].status.InReview?
    requires IsLastOf(db.deliverables, task, last) && MayManage(t, s) && db.deliverables[last].uploader != s.actor
    requires decision.RequestChanges? ==> comment.Some? && Strip(comment.value) != ""
    ensures (exists d :: ReviewDeliverable(t, db, s, task, d, decision, comment).Ok?)
            <==> LastIsNewest(db.deliverables, task, last)
    ensures forall d :: ReviewDeliverable(t, db, s, task, d, decision, comment).Ok? ==> d == last
  {
    LatestIsLastWhen(db.deliverables, task, last);
    forall d | ReviewDeliverable(t, db, s, task, d, decision, comment).Ok?
      ensures d == last && LatestDeliverable(db.deliverables, task) == Some(d)
    {
      ReviewSucceedsWhen(t, db, s, task, d, decision, comment);
      OnlyLastIsOpen(db, task, last, d);
    }
    OnlyLastIsOpen(db, task, last, last);
    ReviewSucceedsWhen(t, db, s, task, last, decision, comment);
  }

  /** Strictly increasing creation times are enough. */
  lemma {:induction false} LatestIsLast(ds: seq<Deliverable>, task: TaskId, last: nat)
    requires IsLastOf(ds, task, last)
    requires forall i, j ::
               0 <= i < j < |ds| && ds[i].task == task && ds[j].task == task ==> ds[i].createdAt < ds[j].createdAt
    ensures LatestDeliverable(ds, task) == Some(last) && LastIsNewest(ds, task, last)
  {
    LatestIsLastWhen(ds, task, last);
  }

  // ----- a stuck Task -----

  /** The Task is in review, but the row that may be decided is already decided. */
  predicate Stuck(db: WorkDb, task: TaskId) {
    task in db.tasks && db.tasks[task].status.InReview?
    && LatestDeliverable(db.deliverables, task).Some?
    && !db.deliverables[LatestDeliverable(db.deliverables, task).value].status.Submitted?
  }

  /** The Task is in review and has one more deliverable. */
  ghost predicate Appended(db: WorkDb, next: WorkDb, row: Deliverable) {
    row.task in db.tasks && next.tasks == SetStatus(db.tasks, row.task, InReview)
    && next.assignments == db.assignments && next.deliverables == db.deliverables + [row]
  }

  lemma SubmitAppends(t: Tenant, db: WorkDb, s: Scope, task: TaskId, url: string, now: Time, tie: nat, next: WorkDb)
    requires SubmitDeliverable(t, db, s, task, url, now, tie) == Ok(next)
    ensures Appended(db, next, Deliverable(task, s.actor, LatestRevision(db.deliverables, task) + 1, Submitted,
                                           Strip(url), now, tie))
  {
    var revision := LatestRevision(db.deliverables, task) + 1;
    var row := Deliverable(task, s.actor, revision, Submitted, Strip(url), now, tie);
    var e := Audit(s.actor, s.profile, s.workspace, task, DeliverableSubmitted(|db.deliverables|, revision), Working,
                   InReview);
    AnnounceWrites(t, db.(deliverables := db.deliverables + [row], tasks := SetStatus(db.tasks, task, InReview)), e,
                   SubmittedNotice);
  }

  lemma StepSubmits(t: Tenant, db: WorkDb, s: Scope, task: TaskId, url: string, now: Time, tie: nat)
      returns (next: WorkDb)
    requires SubmitDeliverable(t, db, s, task, url, now, tie).Ok?
    ensures next == Step(db, Request(t, s, now, Submit(task, url, tie)))
    ensures Ok(next) == SubmitDeliverable(t, db, s, task, url, now, tie)
  {
    next := Step(db, Request(t, s, now, Submit(task, url, tie)));
  }

  lemma HiddenLastSticks(db: WorkDb, task: TaskId, last: nat)
    requires WorkInv(db) && task in db.tasks && db.tasks[task].status.InReview?
    requires IsLastOf(db.deliverables, task, last)
    ensures !LastIsNewest(db.deliverables, task, last) <==> Stuck(db, task)
  {
    LatestIsLastWhen(db.deliverables, task, last);
    LatestIsNewest(db.deliverables, task, last);
    OnlyLastIsOpen(db, task, last, LatestDeliverable(db.deliverables, task).value);
  }

  /** Submitting while some row of the Task is newer, by time or by key, gets the Task stuck. */
  lemma TiedSubmissionSticks(t: Tenant, db: WorkDb, s: Scope, task: TaskId, url: string, now: Time, tie: nat, i: nat)
    requires WorkInv(db) && SubmitDeliverable(t, db, s, task, url, now, tie).Ok?
    requires i < |db.deliverables| && db.deliverables[i].task == task
    requires db.deliverables[i].createdAt > now || (db.deliverables[i].createdAt == now && db.deliverables[i].tie > tie)
    ensures Stuck(Step(db, Request(t, s, now, Submit(task, url, tie))), task)
  {
    var next := StepSubmits(t, db, s, task, url, now, tie);
    StepKeeps(db, Request(t, s, now, Submit(task, url, tie)));
    SubmitAppends(t, db, s, task, url, now, tie, next);
    assert next.deliverables[i] == db.deliverables[i];
    HiddenLastSticks(next, task, |db.deliverables|);
  }

  lemma NobodyDecides(t: Tenant, db: WorkDb, s: Scope, task: TaskId, d: DeliverableId, decision: Decision,
                      comment: Option<string>)
    requires UniqueActive(t) && Stuck(db, task)
    ensures ReviewDeliverable(t, db, s, task, d, decision, comment).Err?
  {
    ReviewSucceedsWhen(t, db, s, task, d, decision, comment);
  }

  lemma LatestOfAppend(ds: seq<Deliverable>, row: Deliverable, task: TaskId)
    requires row.task != task
    ensures LatestDeliverable(ds + [row], task) == LatestDeliverable(ds, task)
  {
    assert (ds + [row])[..|ds|] == ds;
  }

  /** Deciding a row changes neither its time nor its key. */
  lemma {:induction false} LatestOfUpdate(ds: seq<Deliverable>, i: nat, row: Deliverable, task: TaskId)
    requires i < |ds| && row == ds[i].(status := row.status)
    ensures LatestDeliverable(ds[i := row], task) == LatestDeliverable(ds, task)
  {
    if i < |ds| - 1 {
      assert ds[i := row][..|ds| - 1] == ds[..|ds| - 1][i := row];
      LatestOfUpdate(ds[..|ds| - 1], i, row, task);
    } else {
      assert ds[i := row][..i] == ds[..i];
    }
  }

  /** No call of any service gets the Task out. */
  lemma StuckStays(db: WorkDb, r: Request, task: TaskId)
    requires UniqueActive(r.tenant) && Stuck(db, task)
    ensures Stuck(Step(db, r), task)
  {
    CallMeans(db, r);
    if r.call.Decide? {
      NobodyDecides(r.tenant, db, r.scope, task, r.call.deliverable, r.call.decision, r.call.comment);
    }
    WritesLeaveStuck(db, Step(db, r), r, task);
  }

  lemma WritesLeaveStuck(db: WorkDb, next: WorkDb, r: Request, task: TaskId)
    requires CallWrites(db, next, r) && Stuck(db, task) && (r.call.Decide? && r.call.reviewed == task ==> next == db)
    ensures Stuck(next, task)
  {
    if next != db {
      var e := next.audit[|db.audit|];
      if r.call.Submit? {
        LatestOfAppend(db.deliverables, next.deliverables[|db.deliverables|], task);
      } else if r.call.Decide? {
        var d := e.action.reviewed;
        LatestOfUpdate(db.deliverables, d, next.deliverables[d], task);
      }
    }
  }

  /** Whatever is called afterwards, by whomever, the Task stays in review and nobody can decide it. */
  lemma {:induction false} StuckForEver(db: WorkDb, requests: seq<Request>, task: TaskId)
    requires Stuck(db, task) && forall i :: 0 <= i < |requests| ==> UniqueActive(requests[i].tenant)
    ensures Stuck(Run(db, requests), task)
  {
    if requests != [] {
      var front := requests[..|requests| - 1];
      assert forall i :: 0 <= i < |front| ==> front[i] == requests[i];
      StuckForEver(db, front, task);
      StuckStays(Run(db, front), requests[|requests| - 1], task);
    }
  }

  // ----- such a run exists -----

  /** A manager and an Editor of one Workspace. */
  predicate Cast(t: Tenant, manager: Scope, editor: Scope, target: MembershipId) {
    UniqueActive(t) && MayManage(t, manager) && MayExecute(t, editor) && manager.workspace == editor.workspace
    && EligibleEditor(t, target, manager.profile, manager.workspace) && t.memberships[target].user == editor.actor
  }

  /** Task 0 with its status, the Editor's assignment and its deliverables. */
  ghost predicate At(db: WorkDb, editor: Scope, status: TaskStatus, ds: seq<Deliverable>) {
    InWorkspace(db, 0, editor.workspace) && db.tasks[0].status == status && db.deliverables == ds
    && (ActiveAssignees(db, 0) == if status.Pending? then {} else {editor.actor})
  }

  lemma OneCharacter(c: char)
    requires !PlanContract.IsSpace(c)
    ensures Strip([c]) == [c]
  {
  }

  function NewTask(t: Tenant, s: Scope): Request {
    Request(t, s, 0, Create(Draft("t", None, PlanContract.Low, None), None, 0))
  }

  lemma OpenedAt(t: Tenant, s: Scope)
    requires MayManage(t, s)
    ensures At(Step(EMPTY, NewTask(t, s)), s, TaskStatus.Pending, [])
  {
    OneCharacter('t');
    EveryRunKeeps([]);
    NewRowHasNoSubtree(EMPTY.tasks, 0);
    WriteKeepsForest(EMPTY.tasks, 0,
                     Task(s.workspace, None, "t", None, PlanContract.Low, None, TaskStatus.Pending, s.actor), 0);
  }

  lemma AtAfterAssign(db: WorkDb, next: WorkDb, e: Audit, editor: Scope, now: Time)
    requires At(db, editor, TaskStatus.Pending, []) && AssignWrites(db, next, e, editor.actor, now) && e.task == 0
    ensures At(next, editor, Assigned, [])
  {
    AssignLeavesOne(db, next, e, editor.actor, now);
  }

  lemma AssignWorks(t: Tenant, db: WorkDb, manager: Scope, editor: Scope, target: MembershipId)
    requires Cast(t, manager, editor, target) && WorkInv(db) && At(db, editor, TaskStatus.Pending, [])
    ensures AssignTask(t, db, manager, 0, target, 1).Ok?
  {
    AssignSucceedsWhen(t, db, manager, 0, target, 1);
  }

  lemma AssignedAt(t: Tenant, db: WorkDb, manager: Scope, editor: Scope, target: MembershipId)
    requires Cast(t, manager, editor, target) && WorkInv(db) && At(db, editor, TaskStatus.Pending, [])
    ensures At(Step(db, Request(t, manager, 1, Assign(0, target))), editor, Assigned, [])
  {
    AssignWorks(t, db, manager, editor, target);
    var next := StepAssigns(t, db, manager, 0, target, 1);
    AtAfterAssigning(t, db, manager, editor, target, next);
  }

  lemma StepAssigns(t: Tenant, db: WorkDb, s: Scope, task: TaskId, target: MembershipId, now: Time)
      returns (next: WorkDb)
    requires AssignTask(t, db, s, task, target, now).Ok?
    ensures next == Step(db, Request(t, s, now, Assign(task, target)))
    ensures Ok(next) == AssignTask(t, db, s, task, target, now)
  {
    next := Step(db, Request(t, s, now, Assign(task, target)));
  }

  lemma AtAfterAssigning(t: Tenant, db: WorkDb, manager: Scope, editor: Scope, target: MembershipId, next: WorkDb)
    requires AssignTask(t, db, manager, 0, target, 1) == Ok(next) && At(db, editor, TaskStatus.Pending, [])
    requires target in t.memberships && t.memberships[target].user == editor.actor
    ensures At(next, editor, Assigned, [])
  {
    AssignMeans(t, db, manager, 0, target, 1);
    AtAfterAssign(db, next, next.audit[|db.audit|], editor, 1);
  }

  lemma StartedAt(t: Tenant, db: WorkDb, editor: Scope)
    requires MayExecute(t, editor) && At(db, editor, Assigned, [])
    ensures At(Step(db, Request(t, editor, 2, Start(0))), editor, Working, [])
  {
    StartSucceedsWhen(t, db, editor, 0);
    StartMeans(t, db, editor, 0);
    SameAssignees(db, StartTask(t, db, editor, 0).value, 0);
  }

  lemma AtAfterSubmit(db: WorkDb, next: WorkDb, editor: Scope, ds: seq<Deliverable>, row: Deliverable)
    requires At(db, editor, Working, ds) && row.task == 0 && Appended(db, next, row)
    ensures At(next, editor, InReview, ds + [row])
  {
    SameAssignees(db, next, 0);
  }

  lemma SubmitSucceeds(t: Tenant, db: WorkDb, editor: Scope, c: char, tie: nat, ds: seq<Deliverable>)
    requires UniqueActive(t) && MayExecute(t, editor) && At(db, editor, Working, ds) && !PlanContract.IsSpace(c)
    requires forall i :: 0 <= i < |ds| ==> ds[i].status.Rejected?
    ensures SubmitDeliverable(t, db, editor, 0, [c], 7, tie).Ok?
  {
    OneCharacter(c);
    SubmitSucceedsWhen(t, db, editor, 0, [c], 7, tie);
  }

  lemma SubmittedAt(t: Tenant, db: WorkDb, editor: Scope, c: char, tie: nat, ds: seq<Deliverable>)
      returns (next: WorkDb)
    requires UniqueActive(t) && MayExecute(t, editor) && At(db, editor, Working, ds) && !PlanContract.IsSpace(c)
    requires forall i :: 0 <= i < |ds| ==> ds[i].status.Rejected?
    ensures next == Step(db, Request(t, editor, 7, Submit(0, [c], tie)))
    ensures At(next, editor, InReview,
               ds + [Deliverable(0, editor.actor, LatestRevision(ds, 0) + 1, Submitted, [c], 7, tie)])
  {
    OneCharacter(c);
    SubmitSucceeds(t, db, editor, c, tie, ds);
    next := StepSubmits(t, db, editor, 0, [c], 7, tie);
    SubmitAppends(t, db, editor, 0, [c], 7, tie, next);
    AtAfterSubmit(db, next, editor, ds,
                  Deliverable(0, editor.actor, LatestRevision(ds, 0) + 1, Submitted, [c], 7, tie));
  }

  lemma SendBackSucceeds(t: Tenant, db: WorkDb, manager: Scope, editor: Scope, c: char, row: Deliverable)
    requires UniqueActive(t) && MayManage(t, manager) && manager.workspace == editor.workspace
             && manager.actor != editor.actor
    requires WorkInv(db) && At(db, editor, InReview, [row]) && row.task == 0 && row.uploader == editor.actor
    requires !PlanContract.IsSpace(c)
    ensures ReviewDeliverable(t, db, manager, 0, 0, RequestChanges, Some([c])).Ok?
  {
    OneCharacter(c);
    ReviewableWhen(t, db, manager, 0, 0, RequestChanges, Some([c]));
  }

  lemma SentBackAt(t: Tenant, db: WorkDb, manager: Scope, editor: Scope, c: char, row: Deliverable)
    requires At(db, editor, InReview, [row]) && row.task == 0
    requires ReviewDeliverable(t, db, manager, 0, 0, RequestChanges, Some([c])).Ok?
    ensures At(Step(db, Request(t, manager, 7, Decide(0, 0, RequestChanges, Some([c])))), editor, Working,
               [row.(status := Rejected)])
  {
    ReviewMeans(t, db, manager, 0, 0, RequestChanges, Some([c]));
    var next := ReviewDeliverable(t, db, manager, 0, 0, RequestChanges, Some([c])).value;
    AtAfterSendBack(db, next, editor, row, next.audit[|db.audit|]);
  }

  lemma AtAfterSendBack(db: WorkDb, next: WorkDb, editor: Scope, row: Deliverable, e: Audit)
    requires At(db, editor, InReview, [row]) && ReviewWrites(db, next, e) && e.task == 0
    requires e.action.reviewed == 0 && e.action.decision.RequestChanges?
    ensures At(next, editor, Working, [row.(status := Rejected)])
  {
    SameAssignees(db, next, 0);
  }

  lemma ManagerIsNotEditor(t: Tenant, manager: Scope, editor: Scope, target: MembershipId)
    requires Cast(t, manager, editor, target)
    ensures manager.actor != editor.actor
  {
    ManagersAreNotEditors(t, manager, target);
  }

  /** The state after some run from empty tables under one tenant. */
  ghost predicate Reached(t: Tenant, db: WorkDb) {
    exists calls: seq<Request> :: db == Run(EMPTY, calls) && forall i :: 0 <= i < |calls| ==> calls[i].tenant == t
  }

  lemma ReachedNext(t: Tenant, db: WorkDb, r: Request)
    requires Reached(t, db) && r.tenant == t
    ensures Reached(t, Step(db, r))
  {
    var calls: seq<Request> :| db == Run(EMPTY, calls) && forall i :: 0 <= i < |calls| ==> calls[i].tenant == t;
    var more := calls + [r];
    assert more[..|more| - 1] == calls && Run(EMPTY, more) == Step(db, r);
  }

  lemma ReachedIsSound(t: Tenant, db: WorkDb)
    requires Reached(t, db)
    ensures WorkInv(db)
  {
    var calls: seq<Request> :| db == Run(EMPTY, calls) && forall i :: 0 <= i < |calls| ==> calls[i].tenant == t;
    EveryRunKeeps(calls);
  }

  lemma NothingReached(t: Tenant)
    ensures Reached(t, EMPTY)
  {
    assert Run(EMPTY, []) == EMPTY;
  }

  /** Create, assign and start lead to a Task that is worked on. */
  lemma WorkingReached(t: Tenant, manager: Scope, editor: Scope, target: MembershipId) returns (db: WorkDb)
    requires Cast(t, manager, editor, target)
    ensures Reached(t, db) && At(db, editor, Working, [])
  {
    NothingReached(t);
    OpenedAt(t, manager);
    ReachedNext(t, EMPTY, NewTask(t, manager));
    var planned := Step(EMPTY, NewTask(t, manager));
    ReachedIsSound(t, planned);
    AssignedAt(t, planned, manager, editor, target);
    ReachedNext(t, planned, Request(t, manager, 1, Assign(0, target)));
    var given := Step(planned, Request(t, manager, 1, Assign(0, target)));
    StartedAt(t, given, editor);
    ReachedNext(t, given, Request(t, editor, 2, Start(0)));
    db := Step(given, Request(t, editor, 2, Start(0)));
  }

  lemma SubmitStep(t: Tenant, db: WorkDb, editor: Scope, c: char) returns (next: WorkDb)
    requires Reached(t, db) && UniqueActive(t) && MayExecute(t, editor) && !PlanContract.IsSpace(c)
             && At(db, editor, Working, [])
    ensures Reached(t, next) && At(next, editor, InReview, [Deliverable(0, editor.actor, 1, Submitted, [c], 7, 1)])
  {
    next := FirstSubmission(t, db, editor, c);
    ReachedNext(t, db, Request(t, editor, 7, Submit(0, [c], 1)));
  }

  lemma FirstSubmission(t: Tenant, db: WorkDb, editor: Scope, c: char) returns (next: WorkDb)
    requires UniqueActive(t) && MayExecute(t, editor) && !PlanContract.IsSpace(c) && At(db, editor, Working, [])
    ensures next == Step(db, Request(t, editor, 7, Submit(0, [c], 1)))
    ensures At(next, editor, InReview, [Deliverable(0, editor.actor, 1, Submitted, [c], 7, 1)])
  {
    next := SubmittedAt(t, db, editor, c, 1, []);
    var row := Deliverable(0, editor.actor, 1, Submitted, [c], 7, 1);
    assert [] + [row] == [row];
  }

  lemma SendBackStep(t: Tenant, db: WorkDb, manager: Scope, editor: Scope, c: char, row: Deliverable)
      returns (next: WorkDb)
    requires Reached(t, db) && UniqueActive(t) && MayManage(t, manager) && !PlanContract.IsSpace(c)
    requires manager.workspace == editor.workspace && manager.actor != editor.actor
    requires At(db, editor, InReview, [row]) && row.task == 0 && row.uploader == editor.actor
    ensures Reached(t, next) && At(next, editor, Working, [row.(status := Rejected)])
  {
    var r := Request(t, manager, 7, Decide(0, 0, RequestChanges, Some([c])));
    ReachedIsSound(t, db);
    SendBackSucceeds(t, db, manager, editor, c, row);
    SentBackAt(t, db, manager, editor, c, row);
    ReachedNext(t, db, r);
    next := Step(db, r);
  }

  lemma TiedSubmission(t: Tenant, db: WorkDb, editor: Scope, text: string, row: Deliverable, r: Request)
    requires WorkInv(db) && SubmitDeliverable(t, db, editor, 0, text, 7, 0).Ok? && db.deliverables == [row]
    requires row.task == 0 && row.createdAt == 7 && row.tie == 1 && r == Request(t, editor, 7, Submit(0, text, 0))
    ensures Stuck(Step(db, r), 0)
  {
    TiedSubmissionSticks(t, db, editor, 0, text, 7, 0, 0);
  }

  lemma TiedStep(t: Tenant, db: WorkDb, editor: Scope, c: char, row: Deliverable) returns (next: WorkDb)
    requires Reached(t, db) && UniqueActive(t) && MayExecute(t, editor) && !PlanContract.IsSpace(c)
    requires At(db, editor, Working, [row]) && row.status.Rejected?
    requires row.task == 0 && row.createdAt == 7 && row.tie == 1
    ensures Reached(t, next) && Stuck(next, 0)
  {
    var r := Request(t, editor, 7, Submit(0, [c], 0));
    ReachedIsSound(t, db);
    SubmitSucceeds(t, db, editor, c, 0, [row]);
    TiedSubmission(t, db, editor, [c], row, r);
    ReachedNext(t, db, r);
    next := Step(db, r);
  }

  /** Then submit, send back, and submit again in the instant of the first submission: with any manager
      and Editor some run from empty tables gets a Task stuck. */
  lemma TiedRunSticks(t: Tenant, manager: Scope, editor: Scope, target: MembershipId, c: char) returns (db: WorkDb)
    requires Cast(t, manager, editor, target) && !PlanContract.IsSpace(c)
    ensures Reached(t, db) && WorkInv(db) && Stuck(db, 0)
  {
    ManagerIsNotEditor(t, manager, editor, target);
    var working := WorkingReached(t, manager, editor, target);
    var first := SubmitStep(t, working, editor, c);
    var row := Deliverable(0, editor.actor, 1, Submitted, [c], 7, 1);
    var back := SendBackStep(t, first, manager, editor, c, row);
    db := TiedStep(t, back, editor, c, row.(status := Rejected));
    ReachedIsSound(t, db);
  }

  /** Such a manager and Editor exist. */
  lemma CastExists()
    ensures exists t, manager, editor, target :: Cast(t, manager, editor, target)
  {
    var t := Tenant(
      map[0 := User(true, Email("o", "o")), 1 := User(true, Email("e", "e"))],
      map[0 := Active], map[0 := Workspace(0, 0, 0, Active)],
      map[0 := Membership(0, 0, Owner, true), 1 := Membership(0, 1, Member, true)],
      map[(0, 1) := WorkspaceMember(WsMember, true)]);
    ResolveProfileIs(t, 0, 0, 0);
    ResolveProfileIs(t, 1, 1, 0);
    LockContextIs(t, 0, 0, 0);
    LockContextIs(t, 1, 0, 0);
    assert Cast(t, Scope(0, 0, 0), Scope(1, 0, 0), 1);
  }
}
