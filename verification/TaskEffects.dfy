/** When each Task service succeeds, what it leaves in every column and what it answers otherwise, said of
    the rows and not of the services. */
module TaskEffects {
  import opened Prelude
  import opened Ancestry
  import opened Tenancy
  import opened TaskHierarchy
  import opened PlanContract
  import opened TaskWorkflow
  import opened WorkflowInvariants
  import opened CapabilityHints
  import opened Authority

  predicate AllSpaces(s: string) { forall i :: 0 <= i < |s| ==> IsSpace(s[i]) }

  /** Stripping takes spaces off both ends and nothing else. */
  lemma StripIsMiddle(s: string) returns (left: string, right: string)
    ensures s == left + Strip(s) + right && AllSpaces(left) && AllSpaces(right)
    ensures Strip(s) != "" ==> !IsSpace(Strip(s)[0]) && !IsSpace(Strip(s)[|Strip(s)| - 1])
  {
    left := LeftSpaces(s);
    right := RightSpaces(StripLeft(s));
  }

  lemma {:induction false} LeftSpaces(s: string) returns (left: string)
    ensures s == left + StripLeft(s) && AllSpaces(left)
  {
    if s == "" || !IsSpace(s[0]) {
      left := "";
    } else {
      var rest := LeftSpaces(s[1..]);
      left := [s[0]] + rest;
      assert s == [s[0]] + s[1..] && [s[0]] + (rest + StripLeft(s)) == left + StripLeft(s);
    }
  }

  lemma {:induction false} RightSpaces(s: string) returns (right: string)
    ensures s == StripRight(s) + right && AllSpaces(right)
  {
    if s == "" || !IsSpace(s[|s| - 1]) {
      right := "";
    } else {
      var last := [s[|s| - 1]];
      var rest := RightSpaces(s[..|s| - 1]);
      right := rest + last;
      assert s == s[..|s| - 1] + last && (StripRight(s) + rest) + last == StripRight(s) + right;
    }
  }

  predicate Fits(s: string, maximum: nat) { 0 < |s| <= maximum }

  predicate Here(db: WorkDb, task: TaskId, s: Scope) { task in db.tasks && db.tasks[task].workspace == s.workspace }

  predicate Holder(db: WorkDb, task: TaskId, user: UserId) {
    (task, user) in db.assignments && db.assignments[(task, user)].active
  }

  /** One entry is logged. */
  function Logged(db: WorkDb, s: Scope, task: TaskId, action: Action, before: TaskStatus,
                  after: TaskStatus): seq<Audit> {
    db.audit + [Audit(s.actor, s.profile, s.workspace, task, action, before, after)]
  }

  // ----- creating -----

  lemma {:induction false} ChainsAreOld(tasks: map<TaskId, Task>, id: TaskId, row: Task, x: TaskId, k: nat)
    requires Closed(TaskParents(tasks)) && id !in tasks && x in tasks
    ensures Up(TaskParents(tasks[id := row]), x, k) == Up(TaskParents(tasks), x, k)
    decreases k
  {
    if k > 0 && tasks[x].parent.Some? {
      assert TaskParents(tasks)[x].value in TaskParents(tasks);
      ChainsAreOld(tasks, id, row, tasks[x].parent.value, k - 1);
    }
  }

  /** A new row fits exactly under a Task of its Workspace that has at most two edges above it. */
  lemma NewRowFitsWhen(tasks: map<TaskId, Task>, id: TaskId, row: Task)
    requires ValidForest(tasks) && id !in tasks
    requires row.parent.Some? ==> row.parent.value in tasks && tasks[row.parent.value].workspace == row.workspace
    ensures ValidForest(tasks[id := row])
            <==> (row.parent.Some? ==> Up(TaskParents(tasks), row.parent.value, 3).None?)
  {
    var after := TaskParents(tasks[id := row]);
    if row.parent.Some? {
      var p := row.parent.value;
      ChainsAreOld(tasks, id, row, p, 3);
      assert Up(after, id, 4) == Up(after, p, 3);
      assert id in after;
      if Up(after, p, 3).None? {
        var level := LevelExists(after, p, 2);
        assert Up(after, id, level + 1) == Up(after, p, level) && Up(after, id, level + 2) == Up(after, p, level + 1);
        NewRowHasNoSubtree(tasks, id);
        WriteKeepsForest(tasks, id, row, level + 1);
      }
    } else {
      assert Up(after, id, 0).Some? && Up(after, id, 1).None?;
      NewRowHasNoSubtree(tasks, id);
      WriteKeepsForest(tasks, id, row, 0);
    }
  }

  /** Creating succeeds exactly for a manager, a free key, a title and a place that is not too deep. */
  lemma CreateIs(t: Tenant, db: WorkDb, s: Scope, draft: Draft, parent: Option<TaskId>, id: TaskId)
    requires UniqueActive(t) && ValidForest(db.tasks)
    ensures var r := CreateTask(t, db, s, draft, parent, id);
            (r.Ok? <==> Manages(t, s) && id !in db.tasks && Fits(Strip(draft.title), 255)
                        && (parent.Some? ==> Here(db, parent.value, s)
                                             && Up(TaskParents(db.tasks), parent.value, 3).None?))
            && (r.Ok? ==>
                  r.value == db.(tasks := db.tasks[id := Task(s.workspace, parent, Strip(draft.title),
                                                              draft.description, draft.priority, draft.deadline,
                                                              Pending, s.actor)],
                                 audit := Logged(db, s, id, TaskCreated, Pending, Pending)))
            && (r.Err? ==> r.error == if !Manages(t, s) then Denial(t, s)
                                      else if parent.Some? && !Here(db, parent.value, s) then NotFound
                                      else Invalid)
  {
    ManagersOnly(t, s);
    if id !in db.tasks && (parent.Some? ==> Here(db, parent.value, s)) {
      NewRowFitsWhen(db.tasks, id, Task(s.workspace, parent, Strip(draft.title), draft.description, draft.priority,
                                        draft.deadline, Pending, s.actor));
    }
  }

  // ----- updating -----

  /** Every member of the patch has the value the row already has. */
  predicate AsksNothing(row: Task, p: Patch) {
    (p.title.Some? ==> Strip(p.title.value) == row.title)
    && (p.description.Some? ==> p.description.value == row.description)
    && (p.priority.Some? ==> p.priority.value == row.priority)
    && (p.deadline.Some? ==> p.deadline.value == row.deadline)
    && (p.parent.Some? ==> p.parent.value == row.parent)
  }

  /** A member that is present is written, one that is absent is left alone. */
  predicate Takes<T(==)>(member: Option<T>, before: T, after: T) {
    after == if member.Some? then member.value else before
  }

  /** Each present member of a patch takes effect, nothing else of any row changes, and only a patch that
      asks for nothing new writes nothing. */
  lemma UpdateTakesEffect(t: Tenant, db: WorkDb, s: Scope, task: TaskId, p: Patch)
    requires UpdateTask(t, db, s, task, p).Ok?
    ensures task in db.tasks
            && var next, row := UpdateTask(t, db, s, task, p).value, db.tasks[task];
               task in next.tasks
               && Takes(p.parent, row.parent, next.tasks[task].parent)
               && (p.title.Some? ==> next.tasks[task].title == Strip(p.title.value))
               && (p.title.None? ==> next.tasks[task].title == row.title)
               && Takes(p.description, row.description, next.tasks[task].description)
               && Takes(p.priority, row.priority, next.tasks[task].priority)
               && Takes(p.deadline, row.deadline, next.tasks[task].deadline)
               && next.tasks[task].workspace == row.workspace && next.tasks[task].status == row.status
               && next.tasks[task].createdBy == row.createdBy
               && next == (if AsksNothing(row, p) then db
                           else db.(tasks := db.tasks[task := next.tasks[task]],
                                    audit := Logged(db, s, task, TaskUpdated, row.status, row.status)))
  {
  }

  /** The title and the parent a patch leaves the row with. */
  function TitleAfter(row: Task, p: Patch): string { if p.title.Some? then Strip(p.title.value) else row.title }

  function ParentAfter(row: Task, p: Patch): Option<TaskId> {
    if p.parent.Some? then p.parent.value else row.parent
  }

  /** The table with one Task under another parent. */
  function Moved(tasks: map<TaskId, Task>, task: TaskId, parent: Option<TaskId>): map<TaskId, Task>
    requires task in tasks
  {
    tasks[task := tasks[task].(parent := parent)]
  }

  lemma UpdateSucceedsWhen(t: Tenant, db: WorkDb, s: Scope, task: TaskId, p: Patch)
    requires UniqueActive(t) && ValidForest(db.tasks)
    ensures var r := UpdateTask(t, db, s, task, p);
            var scoped := p.parent.Some? && p.parent.value.Some? ==> Here(db, p.parent.value.value, s);
            (r.Ok? <==> Manages(t, s) && Here(db, task, s) && scoped
                        && (AsksNothing(db.tasks[task], p)
                            || (Fits(TitleAfter(db.tasks[task], p), 255)
                                && ValidForest(Moved(db.tasks, task, ParentAfter(db.tasks[task], p))))))
            && (r.Err? ==> r.error == if !Manages(t, s) then Denial(t, s)
                                      else if !Here(db, task, s) || !scoped then NotFound else Invalid)
  {
    ManagersOnly(t, s);
    if Here(db, task, s) {
      var row := db.tasks[task];
      ForestDependsOnShape(db.tasks[task := row.(parent := ParentAfter(row, p))], db.tasks[task := Patched(row, p)]);
    }
  }

  ghost predicate TitlesFit(db: WorkDb) { forall id :: id in db.tasks ==> Fits(db.tasks[id].title, 255) }

  /** Every stored title is one: no service writes another. */
  lemma TitlesStay(db: WorkDb, r: Request)
    requires TitlesFit(db)
    ensures TitlesFit(Step(db, r))
  {
    if r.call.Create? || r.call.Update? {
      EditedTitle(db, r);
    } else {
      CallMeans(db, r);
    }
  }

  lemma EditedTitle(db: WorkDb, r: Request)
    requires TitlesFit(db) && (r.call.Create? || r.call.Update?)
    ensures TitlesFit(Step(db, r))
  {
  }

  /** A manager's move inside the Workspace happens exactly when the moved hierarchy is a forest of Tasks
      at most three edges deep. */
  lemma MoveSucceedsWhen(t: Tenant, db: WorkDb, s: Scope, task: TaskId, to: Option<TaskId>)
    requires UniqueActive(t) && ValidForest(db.tasks) && TitlesFit(db)
    requires Manages(t, s) && Here(db, task, s) && (to.Some? ==> Here(db, to.value, s))
    ensures var r := UpdateTask(t, db, s, task, Patch(None, None, None, None, Some(to)));
            var moved := Moved(db.tasks, task, to);
            (r.Ok? <==> ValidForest(moved)) && (r.Ok? ==> r.value.tasks == moved)
  {
    var p := Patch(None, None, None, None, Some(to));
    UpdateSucceedsWhen(t, db, s, task, p);
    if UpdateTask(t, db, s, task, p).Ok? { UpdateTakesEffect(t, db, s, task, p); }
    if to == db.tasks[task].parent { assert db.tasks[task := db.tasks[task].(parent := to)] == db.tasks; }
  }

  // ----- starting -----

  lemma StartIs(t: Tenant, db: WorkDb, s: Scope, task: TaskId)
    requires UniqueActive(t)
    ensures var r := StartTask(t, db, s, task);
            (r.Ok? <==> Edits(t, s) && Here(db, task, s) && Holder(db, task, s.actor)
                        && db.tasks[task].status == Assigned)
            && (r.Ok? ==> r.value == db.(tasks := db.tasks[task := db.tasks[task].(status := Working)],
                                         audit := Logged(db, s, task, TaskStarted, Assigned, Working)))
            && (r.Err? ==> r.error == if !Edits(t, s) then Denial(t, s) else if !Here(db, task, s) then NotFound
                                      else if !Holder(db, task, s.actor) then Forbidden else Conflict)
  {
    EditorsOnly(t, s);
  }

  // ----- notices -----

  /** Old notices stay as they are, and every new one is this notice about the new log entry. */
  ghost predicate NoticesAre(db: WorkDb, next: WorkDb, notice: Notification) {
    (forall k :: k in db.notifications ==> k in next.notifications && next.notifications[k] == db.notifications[k])
    && (forall k :: k in next.notifications && k !in db.notifications ==>
          k.0 == |db.audit| && next.notifications[k] == notice)
  }

  lemma AnnouncedNotices(t: Tenant, db: WorkDb, e: Audit, kind: Kind)
    requires Announce(t, db, e, kind).Ok? && Locked(t, Scope(e.actor, e.profile, e.workspace))
    requires e.task in db.tasks && db.tasks[e.task].workspace == e.workspace
    ensures var next := Announce(t, db, e, kind).value;
            next == db.(audit := db.audit + [e], notifications := next.notifications)
            && NoticesAre(db, next, Notification(e.profile, e.workspace, e.task, kind, false))
  {
  }

  /** The user has a notice about the new log entry. */
  predicate Told(db: WorkDb, next: WorkDb, user: UserId) { (|db.audit|, user) in next.notifications }

  // ----- assigning -----

  predicate MayBeAssigned(t: Tenant, s: Scope, target: MembershipId) {
    target in t.memberships && Holds(t, target, t.memberships[target].user, s.profile, Member)
    && HoldsHere(t, s.workspace, t.memberships[target].user, WsMember)
  }

  lemma AssignSucceedsFor(t: Tenant, db: WorkDb, s: Scope, task: TaskId, target: MembershipId, now: Time)
    requires UniqueActive(t) && WorkInv(db)
    ensures AssignTask(t, db, s, task, target, now).Ok?
            <==> Manages(t, s) && Here(db, task, s) && db.tasks[task].status in {Pending, Assigned, Working}
                 && MayBeAssigned(t, s, target) && !Holder(db, task, t.memberships[target].user)
  {
    ManagersOnly(t, s);
    EligibleMeans(t, s, target);
    AssignSucceedsWhen(t, db, s, task, target, now);
  }

  lemma EligibleMeans(t: Tenant, s: Scope, target: MembershipId)
    ensures EligibleEditor(t, target, s.profile, s.workspace) <==> MayBeAssigned(t, s, target)
  {
  }

  lemma AssignRefuses(t: Tenant, db: WorkDb, s: Scope, task: TaskId, target: MembershipId, now: Time)
    requires UniqueActive(t) && WorkInv(db) && AssignTask(t, db, s, task, target, now).Err?
    ensures AssignTask(t, db, s, task, target, now).error
            == if !Manages(t, s) then Denial(t, s) else if !Here(db, task, s) then NotFound
               else if db.tasks[task].status in {InReview, Completed} then Conflict
               else if !MayBeAssigned(t, s, target) then Invalid else Conflict
  {
    ManagersOnly(t, s);
    EligibleMeans(t, s, target);
    if MayAssign(t, db, s, task, target) { AssignConflicts(t, db, s, task, target, now); }
  }

  /** Everything but the current assignment speaks for the call. */
  ghost predicate MayAssign(t: Tenant, db: WorkDb, s: Scope, task: TaskId, target: MembershipId) {
    Manages(t, s) && Here(db, task, s) && db.tasks[task].status !in {InReview, Completed} && MayBeAssigned(t, s, target)
  }

  lemma AssignConflicts(t: Tenant, db: WorkDb, s: Scope, task: TaskId, target: MembershipId, now: Time)
    requires UniqueActive(t) && WorkInv(db) && MayAssign(t, db, s, task, target)
    requires AssignTask(t, db, s, task, target, now).Err?
    ensures AssignTask(t, db, s, task, target, now).error == Conflict
  {
    ManagersOnly(t, s);
    EligibleMeans(t, s, target);
    LockGivesTenant(t, s);
    AssignmentIsEmitted(t, db, s, task, target, now);
  }

  /** The target holds the Task from now on, whoever held it no longer does, and nobody else is touched. */
  ghost predicate Handed(db: WorkDb, next: WorkDb, task: TaskId, user: UserId, now: Time) {
    next.assignments.Keys == db.assignments.Keys + {(task, user)}
    && next.assignments[(task, user)] == Assignment(true, now)
    && forall k :: k in db.assignments && k != (task, user) ==>
         next.assignments[k] == if k.0 == task then db.assignments[k].(active := false) else db.assignments[k]
  }

  lemma HandedBy(db: WorkDb, next: WorkDb, task: TaskId, previous: Option<UserId>, user: UserId, now: Time)
    requires previous.Some? ==> Holder(db, task, previous.value)
    requires forall u: UserId :: Holder(db, task, u) <==> previous == Some(u)
    requires next.assignments == Reassigned(db.assignments, task, previous, user, now)
    ensures Handed(db, next, task, user, now)
  {
    forall k | k in db.assignments && k != (task, user)
      ensures next.assignments[k] == if k.0 == task then db.assignments[k].(active := false) else db.assignments[k]
    {
      assert k == (k.0, k.1);
      assert k.0 == task && previous != Some(k.1) ==> !Holder(db, task, k.1);
    }
  }

  lemma PreviousHolder(db: WorkDb, task: TaskId) returns (previous: Option<UserId>)
    requires WorkInv(db) && task in db.tasks
    ensures previous == First(ActiveAssignees(db, task))
    ensures forall u: UserId :: Holder(db, task, u) <==> previous == Some(u)
  {
    previous := First(ActiveAssignees(db, task));
    OnlyPrevious(db, task);
    assert forall u: UserId :: Holder(db, task, u) <==> u in ActiveAssignees(db, task);
  }

  /** The status, the log and the notice of an assignment; no other table changes. */
  ghost predicate AssignmentLogged(db: WorkDb, next: WorkDb, s: Scope, task: TaskId, action: Action) {
    task in db.tasks
    && next.tasks == db.tasks[task := db.tasks[task].(status := Assigned)]
    && next.audit == Logged(db, s, task, action, db.tasks[task].status, Assigned)
    && next.deliverables == db.deliverables && next.reviews == db.reviews
    && NoticesAre(db, next, Notification(s.profile, s.workspace, task, AssignedNotice, false))
  }

  /** The new assignee is told, and nobody else. */
  lemma AssignTakesEffect(t: Tenant, db: WorkDb, s: Scope, task: TaskId, target: MembershipId, now: Time, next: WorkDb)
      returns (previous: Option<UserId>)
    requires UniqueActive(t) && WorkInv(db) && NoticesLogged(db) && AssignTask(t, db, s, task, target, now) == Ok(next)
    ensures target in t.memberships && Handed(db, next, task, t.memberships[target].user, now)
    ensures forall u: UserId :: Holder(db, task, u) <==> previous == Some(u)
    ensures AssignmentLogged(db, next, s, task, TaskAssigned(t.memberships[target].user, target, previous))
    ensures forall u: UserId :: Told(db, next, u) <==> u == t.memberships[target].user
  {
    AssignSucceedsWhen(t, db, s, task, target, now);
    previous := PreviousHolder(db, task);
    AssignWritesRows(t, db, s, task, target, now, next);
    HandedBy(db, next, task, previous, t.memberships[target].user, now);
    forall u: UserId ensures Told(db, next, u) <==> u == t.memberships[target].user {
      AssignNotifiesAssignee(t, db, s, task, target, now, u);
    }
  }

  lemma AssignWritesRows(t: Tenant, db: WorkDb, s: Scope, task: TaskId, target: MembershipId, now: Time, next: WorkDb)
    requires UniqueActive(t) && AssignTask(t, db, s, task, target, now) == Ok(next)
    ensures target in t.memberships
    ensures var user, previous := t.memberships[target].user, First(ActiveAssignees(db, task));
            next.assignments == Reassigned(db.assignments, task, previous, user, now)
            && AssignmentLogged(db, next, s, task, TaskAssigned(user, target, previous))
  {
    LockGivesTenant(t, s);
    var user, previous := t.memberships[target].user, First(ActiveAssignees(db, task));
    var e := Audit(s.actor, s.profile, s.workspace, task, TaskAssigned(user, target, previous), db.tasks[task].status,
                   Assigned);
    AnnouncedNotices(t, db.(tasks := SetStatus(db.tasks, task, Assigned),
                            assignments := Reassigned(db.assignments, task, previous, user, now)), e, AssignedNotice);
  }

  // ----- submitting -----

  /** Nothing of the Task awaits a decision. */
  predicate NothingOpen(db: WorkDb, task: TaskId) {
    forall i :: 0 <= i < |db.deliverables| && db.deliverables[i].task == task ==>
      db.deliverables[i].status in {Approved, Rejected}
  }

  lemma SubmitSucceedsFor(t: Tenant, db: WorkDb, s: Scope, task: TaskId, url: string, now: Time, tie: nat)
    requires UniqueActive(t)
    ensures var r := SubmitDeliverable(t, db, s, task, url, now, tie);
            (r.Ok? <==> Edits(t, s) && Here(db, task, s) && Holder(db, task, s.actor)
                        && db.tasks[task].status == Working && NothingOpen(db, task) && Fits(Strip(url), 500))
            && (r.Err? ==> r.error == if !Edits(t, s) then Denial(t, s) else if !Here(db, task, s) then NotFound
                                      else if !Holder(db, task, s.actor) then Forbidden
                                      else if db.tasks[task].status != Working || !NothingOpen(db, task) then Conflict
                                      else Invalid)
  {
    EditorsOnly(t, s);
    SubmitSucceedsWhen(t, db, s, task, url, now, tie);
  }

  /** The new deliverable, the status, the log and the notice; no other table changes. */
  ghost predicate HandedIn(db: WorkDb, next: WorkDb, s: Scope, row: Deliverable) {
    row.task in db.tasks
    && next.deliverables == db.deliverables + [row]
    && next.tasks == db.tasks[row.task := db.tasks[row.task].(status := InReview)]
    && next.audit
       == Logged(db, s, row.task, DeliverableSubmitted(|db.deliverables|, row.revision), Working, InReview)
    && next.assignments == db.assignments && next.reviews == db.reviews
    && NoticesAre(db, next, Notification(s.profile, s.workspace, row.task, SubmittedNotice, false))
  }

  /** The next revision is one more than the deliverables so far, and exactly the managers of the Workspace
      are told. */
  lemma SubmitTakesEffect(t: Tenant, db: WorkDb, s: Scope, task: TaskId, url: string, now: Time, tie: nat, next: WorkDb)
    requires UniqueActive(t) && WorkInv(db) && NoticesLogged(db)
             && SubmitDeliverable(t, db, s, task, url, now, tie) == Ok(next)
    ensures HandedIn(db, next, s, Deliverable(task, s.actor, |History(db.deliverables, task)| + 1, Submitted,
                                              Strip(url), now, tie))
    ensures forall u: UserId :: Told(db, next, u) <==> Manages(t, Scope(u, s.profile, s.workspace))
  {
    SubmitWritesRows(t, db, s, task, url, now, tie, next);
    CountedRevision(db, task);
    forall u: UserId ensures Told(db, next, u) <==> Manages(t, Scope(u, s.profile, s.workspace)) {
      SubmitTells(t, db, s, task, url, now, tie, next, u);
    }
  }

  lemma CountedRevision(db: WorkDb, task: TaskId)
    requires WorkInv(db) && task in db.tasks
    ensures LatestRevision(db.deliverables, task) == |History(db.deliverables, task)|
  {
    assert TaskInv(db, task);
    RevisionCounts(db.deliverables, task);
  }

  lemma SubmitTells(t: Tenant, db: WorkDb, s: Scope, task: TaskId, url: string, now: Time, tie: nat, next: WorkDb,
                    u: UserId)
    requires UniqueActive(t) && NoticesLogged(db) && SubmitDeliverable(t, db, s, task, url, now, tie) == Ok(next)
    ensures Told(db, next, u) <==> Manages(t, Scope(u, s.profile, s.workspace))
  {
    SubmitNotifiesReviewers(t, db, s, task, url, now, tie, u);
    ManagersOnly(t, Scope(u, s.profile, s.workspace));
  }

  lemma SubmitWritesRows(t: Tenant, db: WorkDb, s: Scope, task: TaskId, url: string, now: Time, tie: nat, next: WorkDb)
    requires UniqueActive(t) && SubmitDeliverable(t, db, s, task, url, now, tie) == Ok(next)
    ensures HandedIn(db, next, s, Deliverable(task, s.actor, LatestRevision(db.deliverables, task) + 1, Submitted,
                                             Strip(url), now, tie))
  {
    LockGivesTenant(t, s);
    var revision := LatestRevision(db.deliverables, task) + 1;
    var row := Deliverable(task, s.actor, revision, Submitted, Strip(url), now, tie);
    var e := Audit(s.actor, s.profile, s.workspace, task, DeliverableSubmitted(|db.deliverables|, revision), Working,
                   InReview);
    AnnouncedNotices(t, db.(deliverables := db.deliverables + [row], tasks := SetStatus(db.tasks, task, InReview)), e,
                     SubmittedNotice);
  }

  // ----- reviewing -----

  /** A comment of spaces is no comment. */
  function Comment(text: Option<string>): Option<string> {
    if text.Some? && Strip(text.value) != "" then Some(Strip(text.value)) else None
  }

  lemma ReviewRefuses(t: Tenant, db: WorkDb, s: Scope, task: TaskId, d: DeliverableId, decision: Decision,
                      comment: Option<string>)
    requires UniqueActive(t) && ReviewDeliverable(t, db, s, task, d, decision, comment).Err?
    ensures ReviewDeliverable(t, db, s, task, d, decision, comment).error
            == if decision == RequestChanges && Comment(comment).None? then Invalid
               else if !Manages(t, s) then Denial(t, s)
               else if !Here(db, task, s) || d >= |db.deliverables| || db.deliverables[d].task != task then NotFound
               else if db.tasks[task].status == InReview && LatestDeliverable(db.deliverables, task) == Some(d)
                       && db.deliverables[d].status == Submitted && db.deliverables[d].uploader == s.actor
                    then Forbidden
               else Conflict
  {
    ManagersOnly(t, s);
    ReviewSucceedsWhen(t, db, s, task, d, decision, comment);
  }

  /** The review, both statuses, the log and the notice; no other table changes. */
  ghost predicate Decided(db: WorkDb, next: WorkDb, s: Scope, task: TaskId, d: DeliverableId, review: Review) {
    task in db.tasks && d < |db.deliverables|
    && var row, approved := db.deliverables[d], review.decision == Approve;
       next.reviews == db.reviews[d := review]
       && next.deliverables == db.deliverables[d := row.(status := if approved then Approved else Rejected)]
       && next.tasks == db.tasks[task := db.tasks[task].(status := if approved then Completed else Working)]
       && next.audit == Logged(db, s, task, DeliverableReviewed(d, row.revision, review.decision), InReview,
                               if approved then Completed else Working)
       && next.assignments == db.assignments
       && NoticesAre(db, next, Notification(s.profile, s.workspace, task,
                                            if approved then ApprovedNotice else ChangesNotice, false))
  }

  /** Approval completes the Task and rejection sends it back to work; the uploader is told, if still a
      reader, and nobody else. */
  lemma ReviewTakesEffect(t: Tenant, db: WorkDb, s: Scope, task: TaskId, d: DeliverableId, decision: Decision,
                          comment: Option<string>, next: WorkDb)
    requires UniqueActive(t) && NoticesLogged(db) && ReviewDeliverable(t, db, s, task, d, decision, comment) == Ok(next)
    ensures Decided(db, next, s, task, d, Review(s.actor, decision, Comment(comment)))
    ensures forall u: UserId :: Told(db, next, u)
                        <==> u == db.deliverables[d].uploader && Sees(t, Scope(u, s.profile, s.workspace))
  {
    ReviewWritesRows(t, db, s, task, d, decision, comment, next);
    LockGivesTenant(t, s);
    forall u: UserId
      ensures Told(db, next, u)
              <==> u == db.deliverables[d].uploader && Sees(t, Scope(u, s.profile, s.workspace))
    {
      ReviewNotifiesUploader(t, db, s, task, d, decision, comment, u);
      ResolvedFor(t, Scope(u, s.profile, s.workspace));
      ReadPolicyAgrees(t, u, s.profile, s.workspace);
    }
  }

  lemma ReviewWritesRows(t: Tenant, db: WorkDb, s: Scope, task: TaskId, d: DeliverableId, decision: Decision,
                         comment: Option<string>, next: WorkDb)
    requires UniqueActive(t) && ReviewDeliverable(t, db, s, task, d, decision, comment) == Ok(next)
    ensures Decided(db, next, s, task, d, Review(s.actor, decision, Comment(comment)))
  {
    LockGivesTenant(t, s);
    var after := if decision.Approve? then Completed else Working;
    var e := Audit(s.actor, s.profile, s.workspace, task, DeliverableReviewed(d, db.deliverables[d].revision, decision),
                   InReview, after);
    AnnouncedNotices(t, db.(reviews := db.reviews[d := Review(s.actor, decision, Comment(comment))],
                            deliverables := db.deliverables[d := db.deliverables[d].(status := StatusFor(decision))],
                            tasks := SetStatus(db.tasks, task, after)), e,
                     if decision.Approve? then ApprovedNotice else ChangesNotice);
  }
}
