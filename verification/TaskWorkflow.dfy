/** The Task services as functions from one committed state to the next: create, move, assign,
    start, submit and review, each with its audit entry and notifications. A failed call is an
    `Err` and leaves no trace. */
module TaskWorkflow {
  import opened Prelude
  import opened Calendar
  import opened Tenancy
  import opened TaskHierarchy
  import opened PlanContract

  type DeliverableId = nat
  type EventId = nat
  type Time = nat

  datatype Assignment = Assignment(active: bool, assignedAt: Time)

  datatype DeliverableStatus = Unsent | Submitted | Approved | Rejected

  /** `tie` is the random primary key that orders rows created at the same time. */
  datatype Deliverable = Deliverable(task: TaskId, uploader: UserId, revision: nat, status: DeliverableStatus,
                                     fileUrl: string, createdAt: Time, tie: nat)

  datatype Decision = Approve | RequestChanges

  function StatusFor(decision: Decision): DeliverableStatus { if decision.Approve? then Approved else Rejected }

  datatype Review = Review(reviewer: UserId, decision: Decision, comment: Option<string>)

  datatype Action =
    | TaskCreated
    | TaskUpdated
    | TaskAssigned(assignee: UserId, membership: MembershipId, previous: Option<UserId>)
    | TaskStarted
    | DeliverableSubmitted(deliverable: DeliverableId, revision: nat)
    | DeliverableReviewed(reviewed: DeliverableId, reviewedRevision: nat, decision: Decision)

  /** One audit row; `before` and `after` are the Task status around the step. */
  datatype Audit = Audit(actor: UserId, profile: ProfileId, workspace: WorkspaceId, task: TaskId,
                         action: Action, before: TaskStatus, after: TaskStatus)

  datatype Kind = AssignedNotice | SubmittedNotice | ApprovedNotice | ChangesNotice

  datatype Notification = Notification(profile: ProfileId, workspace: WorkspaceId, task: TaskId, kind: Kind, read: bool)

  /** Deliverables and audit rows are listed in insertion order; a review is keyed by the
      deliverable it decides and a notification by its (event, user) pair, as their unique
      constraints demand. */
  datatype WorkDb = WorkDb(
    tasks: map<TaskId, Task>,
    assignments: map<(TaskId, UserId), Assignment>,
    deliverables: seq<Deliverable>,
    reviews: map<DeliverableId, Review>,
    audit: seq<Audit>,
    notifications: map<(EventId, UserId), Notification>)

  /** The tenant boundary every call names. */
  datatype Scope = Scope(actor: UserId, profile: ProfileId, workspace: WorkspaceId)

  // ----- text -----

  function Strip(s: string): (r: string)
    ensures r != "" <==> NotBlank(s)
    ensures |r| <= |s|
  {
    StripRight(StripLeft(s))
  }

  function StripLeft(s: string): (r: string)
    ensures r != "" <==> NotBlank(s)
    ensures r != "" ==> !IsSpace(r[0])
    ensures |r| <= |s|
  {
    if s == "" || !IsSpace(s[0]) then s
    else
      assert NotBlank(s) <==> NotBlank(s[1..]) by {
        if i :| 0 <= i < |s| && !IsSpace(s[i]) { assert !IsSpace(s[1..][i - 1]); }
        if i :| 0 <= i < |s[1..]| && !IsSpace(s[1..][i]) { assert !IsSpace(s[i + 1]); }
      }
      StripLeft(s[1..])
  }

  function StripRight(s: string): (r: string)
    ensures r <= s
    ensures s != "" && !IsSpace(s[0]) ==> r != ""
    ensures r != "" ==> !IsSpace(r[|r| - 1])
  {
    if s == "" || !IsSpace(s[|s| - 1]) then s else StripRight(s[..|s| - 1])
  }

  predicate ValidTitle(title: string) { title != "" && |title| <= 255 }

  // ----- rows of one Task -----

  function ActiveAssignees(db: WorkDb, task: TaskId): set<UserId> {
    set k | k in db.assignments && k.0 == task && db.assignments[k].active :: k.1
  }

  /** The deliverables of a Task in insertion order. */
  function History(ds: seq<Deliverable>, task: TaskId): seq<Deliverable> {
    if ds == [] then []
    else
      var front, last := History(ds[..|ds| - 1], task), ds[|ds| - 1];
      if last.task == task then front + [last] else front
  }

  /** `order_by("-revision").first()`, or 0 without rows. */
  function LatestRevision(ds: seq<Deliverable>, task: TaskId): nat {
    if ds == [] then 0
    else
      var front, last := LatestRevision(ds[..|ds| - 1], task), ds[|ds| - 1];
      if last.task == task && last.revision > front then last.revision else front
  }

  predicate Newer(a: Deliverable, b: Deliverable) {
    a.createdAt > b.createdAt || (a.createdAt == b.createdAt && a.tie >= b.tie)
  }

  /** `order_by("-created_at", "-id").first()`. */
  function LatestDeliverable(ds: seq<Deliverable>, task: TaskId): (r: Option<DeliverableId>)
    ensures r.Some? ==> r.value < |ds| && ds[r.value].task == task
  {
    if ds == [] then None
    else
      var front, last := LatestDeliverable(ds[..|ds| - 1], task), ds[|ds| - 1];
      if last.task == task && (front.None? || Newer(last, ds[front.value])) then Some(|ds| - 1) else front
  }

  predicate Unresolved(ds: seq<Deliverable>, task: TaskId) {
    exists i :: 0 <= i < |ds| && ds[i].task == task && (ds[i].status.Submitted? || ds[i].status.Unsent?)
  }

  function SetStatus(tasks: map<TaskId, Task>, task: TaskId, status: TaskStatus): map<TaskId, Task>
    requires task in tasks
  {
    tasks[task := tasks[task].(status := status)]
  }

  predicate InWorkspace(db: WorkDb, task: TaskId, workspace: WorkspaceId) {
    task in db.tasks && db.tasks[task].workspace == workspace
  }

  // ----- notifications -----

  predicate ActionMatches(action: Action, kind: Kind) {
    match kind
    case AssignedNotice => action.TaskAssigned?
    case SubmittedNotice => action.DeliverableSubmitted?
    case ApprovedNotice => action.DeliverableReviewed? && action.decision.Approve?
    case ChangesNotice => action.DeliverableReviewed? && action.decision.RequestChanges?
  }

  /** The readers an event is for, before the actor is excluded; `None` is a ValidationError. */
  function Recipients(t: Tenant, db: WorkDb, e: Audit): Option<set<UserId>> {
    var readers := set m | m in t.memberships && Readable(t, m, e.profile, e.workspace);
    match e.action
    case TaskAssigned(assignee, membership, _) =>
      if (e.task, assignee) !in db.assignments || !db.assignments[(e.task, assignee)].active then Some({})
      else Some(set m | m in readers && m == membership && t.memberships[m].user == assignee
                        && t.memberships[m].role.Member? && (e.workspace, assignee) in t.members
                        && t.members[(e.workspace, assignee)] == WorkspaceMember(WsMember, true) ::
                             t.memberships[m].user)
    case DeliverableSubmitted(d, revision) =>
      if d >= |db.deliverables| || db.deliverables[d].task != e.task || db.deliverables[d].uploader != e.actor
         || db.deliverables[d].revision != revision then None
      else Some(set m | m in readers
                        && (IsManager(t.memberships[m].role)
                            || ((e.workspace, t.memberships[m].user) in t.members
                                && t.members[(e.workspace, t.memberships[m].user)] == WorkspaceMember(WsAdmin, true)))
                  :: t.memberships[m].user)
    case DeliverableReviewed(d, revision, decision) =>
      if d !in db.reviews || db.reviews[d].reviewer != e.actor || db.reviews[d].decision != decision
         || d >= |db.deliverables| || db.deliverables[d].task != e.task || db.deliverables[d].revision != revision
            then None
      else Some(set m | m in readers && t.memberships[m].user == db.deliverables[d].uploader :: t.memberships[m].user)
    case _ => None
  }

  /** `get_or_create` for every recipient: an existing row keeps its read state. */
  function Deliver(existing: map<(EventId, UserId), Notification>, event: EventId, to: set<UserId>,
                   notice: Notification): map<(EventId, UserId), Notification> {
    (map u | u in to :: (event, u) := notice) + existing
  }

  /** `emit_task_notifications` for a persisted audit row. */
  function Emit(t: Tenant, db: WorkDb, event: EventId, actor: UserId, task: TaskId, kind: Kind):
      Result<map<(EventId, UserId), Notification>, ServiceError> {
    if event >= |db.audit| || task !in db.tasks || db.tasks[task].workspace !in t.workspaces then Err(Invalid)
    else
      var workspace := db.tasks[task].workspace;
      var profile := t.workspaces[workspace].profile;
      var e := db.audit[event];
      if profile !in t.profiles || !ActionMatches(e.action, kind) || e.actor != actor || e.profile != profile
         || e.workspace != workspace || e.task != task then Err(Invalid)
      else if !t.profiles[profile].Active? || !t.workspaces[workspace].status.Active?
              || !ReadableBy(t, actor, profile, workspace) then Ok(db.notifications)
      else
        match Recipients(t, db, e)
        case None => Err(Invalid)
        case Some(users) => Ok(Deliver(db.notifications, event, users - {actor},
                                       Notification(profile, workspace, task, kind, false)))
  }

  /** Write the audit row, then its notifications. */
  function Announce(t: Tenant, db: WorkDb, e: Audit, kind: Kind): Result<WorkDb, ServiceError> {
    var logged := db.(audit := db.audit + [e]);
    match Emit(t, logged, |db.audit|, e.actor, e.task, kind)
    case Err(error) => Err(error)
    case Ok(notifications) => Ok(logged.(notifications := notifications))
  }

  // ----- services -----

  function LockManager(t: Tenant, s: Scope): Result<Context, ServiceError> {
    match LockContext(t, s.actor, s.profile, s.workspace)
    case Err(e) => Err(e)
    case Ok(c) => if CanManageTasks(t, c) then Ok(c) else Err(Forbidden)
  }

  function LockExecutor(t: Tenant, s: Scope): Result<Context, ServiceError> {
    match LockContext(t, s.actor, s.profile, s.workspace)
    case Err(e) => Err(e)
    case Ok(c) => if CanExecuteTasks(t, c) then Ok(c) else Err(Forbidden)
  }

  datatype Draft = Draft(title: string, description: Option<string>, priority: Priority, deadline: Option<UtcTime>)

  /** `id` is the fresh primary key of the insert. */
  function CreateTask(t: Tenant, db: WorkDb, s: Scope, draft: Draft, parent: Option<TaskId>,
                      id: TaskId): Result<WorkDb, ServiceError> {
    match LockManager(t, s)
    case Err(e) => Err(e)
    case Ok(_) =>
      if parent.Some? && !InWorkspace(db, parent.value, s.workspace) then Err(NotFound)
      else
        var row := Task(s.workspace, parent, Strip(draft.title), draft.description, draft.priority, draft.deadline,
                        Pending, s.actor);
        if id in db.tasks || !ValidTitle(row.title) || !ValidForest(db.tasks[id := row]) then Err(Invalid)
        else Ok(db.(tasks := db.tasks[id := row],
                    audit := db.audit + [Audit(s.actor, s.profile, s.workspace, id, TaskCreated, Pending, Pending)]))
  }

  /** Absent members of a patch are left alone. */
  datatype Patch = Patch(title: Option<string>, description: Option<Option<string>>, priority: Option<Priority>,
                         deadline: Option<Option<UtcTime>>, parent: Option<Option<TaskId>>)

  function Patched(row: Task, p: Patch): Task {
    row.(parent := if p.parent.Some? then p.parent.value else row.parent,
         title := if p.title.Some? then Strip(p.title.value) else row.title,
         description := if p.description.Some? then p.description.value else row.description,
         priority := if p.priority.Some? then p.priority.value else row.priority,
         deadline := if p.deadline.Some? then p.deadline.value else row.deadline)
  }

  function UpdateTask(t: Tenant, db: WorkDb, s: Scope, task: TaskId, p: Patch): Result<WorkDb, ServiceError> {
    match LockManager(t, s)
    case Err(e) => Err(e)
    case Ok(_) =>
      if !InWorkspace(db, task, s.workspace) then Err(NotFound)
      else if p.parent.Some? && p.parent.value.Some? && !InWorkspace(db, p.parent.value.value, s.workspace)
          then Err(NotFound)
      else
        var row := Patched(db.tasks[task], p);
        if row == db.tasks[task] then Ok(db)
        else if !ValidTitle(row.title) || !ValidForest(db.tasks[task := row]) then Err(Invalid)
        else Ok(db.(tasks := db.tasks[task := row],
                    audit := db.audit + [Audit(s.actor, s.profile, s.workspace, task, TaskUpdated, row.status,
                                               row.status)]))
  }

  /** The membership an assignment may name: an active Profile Member who is an active Editor here. */
  predicate EligibleEditor(t: Tenant, target: MembershipId, profile: ProfileId, workspace: WorkspaceId) {
    target in t.memberships && t.memberships[target].profile == profile && ActiveUser(t, t.memberships[target].user)
    && t.memberships[target].active && t.memberships[target].role.Member?
    && (workspace, t.memberships[target].user) in t.members
    && t.members[(workspace, t.memberships[target].user)] == WorkspaceMember(WsMember, true)
  }

  /** Deactivate the previous assignee's row, then activate or insert the target's. */
  function Reassigned(rows: map<(TaskId, UserId), Assignment>, task: TaskId, previous: Option<UserId>, user: UserId,
                      now: Time): map<(TaskId, UserId), Assignment>
    requires previous.Some? ==> (task, previous.value) in rows
  {
    var released := if previous.None? then rows
                    else rows[(task, previous.value) := rows[(task, previous.value)].(active := false)];
    released[(task, user) := Assignment(true, now)]
  }

  function AssignTask(t: Tenant, db: WorkDb, s: Scope, task: TaskId, target: MembershipId,
                      now: Time): Result<WorkDb, ServiceError> {
    match LockManager(t, s)
    case Err(e) => Err(e)
    case Ok(_) =>
      if !InWorkspace(db, task, s.workspace) then Err(NotFound)
      else if db.tasks[task].status.InReview? || db.tasks[task].status.Completed? then Err(Conflict)
      else if !EligibleEditor(t, target, s.profile, s.workspace) then Err(Invalid)
      else
        var user := t.memberships[target].user;
        var previous := First(ActiveAssignees(db, task));
        if previous == Some(user) || !(ActiveAssignees(db, task) <= (if previous.Some? then {previous.value} else {}))
        then Err(Conflict)
        else
          var before := db.tasks[task].status;
          Announce(t, db.(tasks := SetStatus(db.tasks, task, Assigned),
                          assignments := Reassigned(db.assignments, task, previous, user, now)),
                   Audit(s.actor, s.profile, s.workspace, task, TaskAssigned(user, target, previous), before, Assigned),
                   AssignedNotice)
  }

  /** Only the Editor who holds the active assignment may act. */
  predicate HoldsAssignment(db: WorkDb, task: TaskId, actor: UserId) { actor in ActiveAssignees(db, task) }

  function StartTask(t: Tenant, db: WorkDb, s: Scope, task: TaskId): Result<WorkDb, ServiceError> {
    match LockExecutor(t, s)
    case Err(e) => Err(e)
    case Ok(_) =>
      if !InWorkspace(db, task, s.workspace) then Err(NotFound)
      else if !HoldsAssignment(db, task, s.actor) then Err(Forbidden)
      else if !db.tasks[task].status.Assigned? then Err(Conflict)
      else Ok(db.(tasks := SetStatus(db.tasks, task, Working),
                  audit := db.audit + [Audit(s.actor, s.profile, s.workspace, task, TaskStarted, Assigned, Working)]))
  }

  function SubmitDeliverable(t: Tenant, db: WorkDb, s: Scope, task: TaskId, url: string, now: Time,
                             tie: nat): Result<WorkDb, ServiceError> {
    match LockExecutor(t, s)
    case Err(e) => Err(e)
    case Ok(_) =>
      if !InWorkspace(db, task, s.workspace) then Err(NotFound)
      else if !HoldsAssignment(db, task, s.actor) then Err(Forbidden)
      else if !db.tasks[task].status.Working? || Unresolved(db.deliverables, task) then Err(Conflict)
      else
        var revision := LatestRevision(db.deliverables, task) + 1;
        var row := Deliverable(task, s.actor, revision, Submitted, Strip(url), now, tie);
        if row.fileUrl == "" || |row.fileUrl| > 500 then Err(Invalid)
        else Announce(t, db.(deliverables := db.deliverables + [row], tasks := SetStatus(db.tasks, task, InReview)),
                      Audit(s.actor, s.profile, s.workspace, task, DeliverableSubmitted(|db.deliverables|, revision),
                            Working, InReview),
                      SubmittedNotice)
  }

  /** `approve_deliverable` and `request_deliverable_changes`; only the latter needs a comment. */
  function ReviewDeliverable(t: Tenant, db: WorkDb, s: Scope, task: TaskId, d: DeliverableId, decision: Decision,
                             comment: Option<string>): Result<WorkDb, ServiceError> {
    var text := if comment.Some? && Strip(comment.value) != "" then Some(Strip(comment.value)) else None;
    if decision.RequestChanges? && text.None? then Err(Invalid)
    else
      match LockContext(t, s.actor, s.profile, s.workspace)
      case Err(e) => Err(e)
      case Ok(c) =>
        if !CanReviewDeliverables(t, c) then Err(Forbidden)
        else if !InWorkspace(db, task, s.workspace) || d >= |db.deliverables| || db.deliverables[d].task != task
            then Err(NotFound)
        else if !db.tasks[task].status.InReview? || LatestDeliverable(db.deliverables, task) != Some(d)
                || !db.deliverables[d].status.Submitted? then Err(Conflict)
        else if db.deliverables[d].uploader == s.actor then Err(Forbidden)
        else if d in db.reviews then Err(Conflict)
        else
          var after := if decision.Approve? then Completed else Working;
          Announce(t, db.(reviews := db.reviews[d := Review(s.actor, decision, text)],
                          deliverables := db.deliverables[d := db.deliverables[d].(status := StatusFor(decision))],
                          tasks := SetStatus(db.tasks, task, after)),
                   Audit(s.actor, s.profile, s.workspace, task,
                         DeliverableReviewed(d, db.deliverables[d].revision, decision), InReview, after),
                   if decision.Approve? then ApprovedNotice else ChangesNotice)
  }

  // ----- runs -----

  datatype Call =
    | Create(draft: Draft, parent: Option<TaskId>, id: TaskId)
    | Update(updated: TaskId, patch: Patch)
    | Assign(todo: TaskId, target: MembershipId)
    | Start(started: TaskId)
    | Submit(submitted: TaskId, url: string, tie: nat)
    | Decide(reviewed: TaskId, deliverable: DeliverableId, decision: Decision, comment: Option<string>)

  /** One call: the tenant rows it finds under its locks, who asks, when, and what. */
  datatype Request = Request(tenant: Tenant, scope: Scope, now: Time, call: Call)

  function Attempt(db: WorkDb, r: Request): Result<WorkDb, ServiceError> {
    match r.call
    case Create(draft, parent, id) => CreateTask(r.tenant, db, r.scope, draft, parent, id)
    case Update(task, patch) => UpdateTask(r.tenant, db, r.scope, task, patch)
    case Assign(task, target) => AssignTask(r.tenant, db, r.scope, task, target, r.now)
    case Start(task) => StartTask(r.tenant, db, r.scope, task)
    case Submit(task, url, tie) => SubmitDeliverable(r.tenant, db, r.scope, task, url, r.now, tie)
    case Decide(task, d, decision, comment) => ReviewDeliverable(r.tenant, db, r.scope, task, d, decision, comment)
  }

  /** The state after a call, whether it succeeded or was rolled back. */
  function Step(db: WorkDb, r: Request): WorkDb {
    match Attempt(db, r)
    case Ok(next) => next
    case Err(_) => db
  }

  function Run(db: WorkDb, requests: seq<Request>): WorkDb {
    if requests == [] then db else Step(Run(db, requests[..|requests| - 1]), requests[|requests| - 1])
  }

  const EMPTY := WorkDb(map[], map[], [], map[], [], map[])
}
