/** The worklist that turns a parsed plan into Tasks: what it must produce, and the loop. */
module PlanCompiler {
  import opened Prelude
  import opened Ancestry
  import opened Tenancy
  import opened TaskHierarchy
  import opened PlanContract
  import opened TaskWorkflow
  import opened WorkflowInvariants
  import opened TaskStore

  type ByRef = map<string, TaskNode>
  type Created = map<string, TaskId>

  // ----- what compiling means -----

  function ParentTask(node: TaskNode, created: Created): Option<TaskId> {
    if node.parentRef.Some? && node.parentRef.value in created then Some(created[node.parentRef.value]) else None
  }

  function TaskFor(node: TaskNode, s: Scope, parent: Option<TaskId>): Task {
    Task(s.workspace, parent, Strip(node.title), Some(node.description), node.priority, node.deadline, Pending, s.actor)
  }

  /** The nodes in `created` come with their parents. */
  predicate ParentsFirst(byRef: ByRef, created: Created) {
    forall r :: r in created ==> r in byRef && (byRef[r].parentRef.Some? ==> byRef[r].parentRef.value in created)
  }

  predicate Injective(created: Created) {
    forall a, b :: a in created && b in created && created[a] == created[b] ==> a == b
  }

  /** A node's Task is new, is built from the node, and hangs under the Task of its parent. */
  ghost predicate Placed(byRef: ByRef, s: Scope, created: Created, before: map<TaskId, Task>, now: map<TaskId, Task>,
                         r: string)
    requires r in created && r in byRef
  {
    created[r] !in before && created[r] in now && now[created[r]] == TaskFor(byRef[r], s, ParentTask(byRef[r], created))
  }

  /** Rows that are not the Task of a created node are as before. */
  ghost predicate OthersKept(created: Created, before: map<TaskId, Task>, now: map<TaskId, Task>) {
    (forall id :: id in now && id !in before ==> id in created.Values)
    && (forall id :: id in before ==> id in now && now[id] == before[id])
  }

  /** The created nodes have become distinct new Tasks; every other row is as before. */
  ghost predicate Partial(byRef: ByRef, s: Scope, created: Created, before: map<TaskId, Task>, now: map<TaskId, Task>) {
    ParentsFirst(byRef, created) && Injective(created) && OthersKept(created, before, now)
    && forall r :: r in created ==> Placed(byRef, s, created, before, now, r)
  }

  /** The whole plan is compiled: exactly one Task per node. */
  ghost predicate Compiled(nodes: seq<TaskNode>, s: Scope, created: Created, before: map<TaskId, Task>,
                           now: map<TaskId, Task>) {
    Partial(NodesByRef(nodes), s, created, before, now) && created.Keys == NodesByRef(nodes).Keys
        && |created| == |nodes|
  }

  function RefParents(byRef: ByRef): Parents<string> { map r | r in byRef :: byRef[r].parentRef }

  lemma RefParentsArePlanParents(nodes: seq<TaskNode>)
    ensures RefParents(NodesByRef(nodes)) == PlanParents(nodes)
  {
  }

  // ----- the created parent relation is the plan's -----

  ghost predicate Embedded(plan: Parents<string>, tasks: Parents<TaskId>, created: Created, r: string)
    requires r in created
  {
    r in plan && created[r] in tasks && (plan[r].Some? ==> plan[r].value in created)
    && tasks[created[r]] == match plan[r] case None => None case Some(p) => Some(created[p])
  }

  ghost predicate Embeds(plan: Parents<string>, tasks: Parents<TaskId>, created: Created) {
    forall r {:trigger Embedded(plan, tasks, created, r)} :: r in created ==> Embedded(plan, tasks, created, r)
  }

  lemma {:induction false} EmbeddedAncestors(plan: Parents<string>, tasks: Parents<TaskId>, created: Created, r: string,
                                             k: nat)
    requires r in created && Embeds(plan, tasks, created)
    ensures Up(plan, r, k).Some? ==> Up(plan, r, k).value in created
    ensures Up(tasks, created[r], k) == match Up(plan, r, k) case None => None case Some(a) => Some(created[a])
    decreases k
  {
    if k > 0 {
      assert Embedded(plan, tasks, created, r);
      if plan[r].Some? { EmbeddedAncestors(plan, tasks, created, plan[r].value, k - 1); }
    }
  }

  lemma PartialEmbeds(byRef: ByRef, s: Scope, created: Created, before: map<TaskId, Task>, now: map<TaskId, Task>)
    requires Partial(byRef, s, created, before, now)
    ensures Embeds(RefParents(byRef), TaskParents(now), created)
  {
  }

  /** Ancestors of a compiled Task at any height are the Tasks of the node's ancestors. */
  lemma CompiledIsIsomorphic(nodes: seq<TaskNode>, s: Scope, created: Created, before: map<TaskId, Task>,
                             now: map<TaskId, Task>, r: string, k: nat)
    requires Compiled(nodes, s, created, before, now) && r in created
    ensures Up(PlanParents(nodes), r, k).Some? ==> Up(PlanParents(nodes), r, k).value in created
    ensures Up(TaskParents(now), created[r], k)
            == match Up(PlanParents(nodes), r, k) case None => None case Some(a) => Some(created[a])
  {
    RefParentsArePlanParents(nodes);
    PartialEmbeds(NodesByRef(nodes), s, created, before, now);
    EmbeddedAncestors(PlanParents(nodes), TaskParents(now), created, r, k);
  }

  // ----- creating the next node always succeeds -----

  /** A node that may be created next, with the key its Task will get. */
  ghost predicate Ready(byRef: ByRef, created: Created, now: map<TaskId, Task>, r: string, id: TaskId) {
    r in byRef && r !in created && (byRef[r].parentRef.Some? ==> byRef[r].parentRef.value in created) && id !in now
    && byRef[r].parentRef != Some(r)
  }

  lemma StaysInjective(created: Created, r: string, id: TaskId)
    requires Injective(created) && r !in created && forall x :: x in created ==> created[x] != id
    ensures Injective(created[r := id])
  {
  }

  lemma StaysParentsFirst(byRef: ByRef, created: Created, r: string, id: TaskId)
    requires ParentsFirst(byRef, created) && r in byRef
             && (byRef[r].parentRef.Some? ==> byRef[r].parentRef.value in created)
    ensures ParentsFirst(byRef, created[r := id])
  {
  }

  lemma StaysKept(created: Created, before: map<TaskId, Task>, now: map<TaskId, Task>, r: string, id: TaskId, row: Task)
    requires OthersKept(created, before, now) && r !in created && id !in now
    ensures OthersKept(created[r := id], before, now[id := row])
  {
    var more := created[r := id];
    forall y | y in now[id := row] && y !in before ensures y in more.Values {
      if y == id {
        assert more[r] == id;
      } else {
        var x :| x in created && created[x] == y;
        assert more[x] == y;
      }
    }
  }

  lemma AllPlaced(byRef: ByRef, s: Scope, created: Created, before: map<TaskId, Task>, now: map<TaskId, Task>,
                  r: string,
                  id: TaskId, row: Task, more: Created, next: map<TaskId, Task>)
    requires ParentsFirst(byRef, created) && (forall x :: x in created ==> Placed(byRef, s, created, before, now, x))
    requires Ready(byRef, created, now, r, id) && id !in before
             && row == TaskFor(byRef[r], s, ParentTask(byRef[r], created))
    requires more == created[r := id] && next == now[id := row] && ParentsFirst(byRef, more)
    ensures forall x :: x in more ==> Placed(byRef, s, more, before, next, x)
  {
  }

  lemma CreatedStep(byRef: ByRef, s: Scope, created: Created, before: map<TaskId, Task>, now: map<TaskId, Task>,
                    r: string, id: TaskId)
    requires Partial(byRef, s, created, before, now) && Ready(byRef, created, now, r, id)
    ensures Partial(byRef, s, created[r := id], before, now[id := TaskFor(byRef[r], s, ParentTask(byRef[r], created))])
  {
    var row := TaskFor(byRef[r], s, ParentTask(byRef[r], created));
    assert forall x :: x in created ==> created[x] != id by {
      forall x | x in created ensures created[x] != id { assert Placed(byRef, s, created, before, now, x); }
    }
    StaysInjective(created, r, id);
    StaysParentsFirst(byRef, created, r, id);
    StaysKept(created, before, now, r, id, row);
    AllPlaced(byRef, s, created, before, now, r, id, row, created[r := id], now[id := row]);
  }

  /** The new Task sits as deep as its node, so its ancestors are clear. */
  lemma LevelIsClear(plan: Parents<string>, now: map<TaskId, Task>, more: Created, r: string, id: TaskId, row: Task,
                     depth: nat)
      returns (level: nat)
    requires r in more && more[r] == id && id !in now && Embeds(plan, TaskParents(now[id := row]), more)
             && Up(plan, r, depth + 1).None?
    requires row.parent.Some? ==> row.parent.value in now && now[row.parent.value].workspace == row.workspace
    ensures level <= depth && AncestorsClear(now, id, row, level)
  {
    level := LevelExists(plan, r, depth);
    EmbeddedAncestors(plan, TaskParents(now[id := row]), more, r, level);
    EmbeddedAncestors(plan, TaskParents(now[id := row]), more, r, level + 1);
  }

  lemma NextNodeFits(byRef: ByRef, s: Scope, created: Created, before: map<TaskId, Task>, now: map<TaskId, Task>,
                     r: string, id: TaskId, depth: nat)
    requires Partial(byRef, s, created, before, now) && Ready(byRef, created, now, r, id)
    requires ValidForest(now) && Within(RefParents(byRef), depth) && depth <= TaskHierarchy.MAX_HIERARCHY_DEPTH
    ensures ValidForest(now[id := TaskFor(byRef[r], s, ParentTask(byRef[r], created))])
    ensures var p := ParentTask(byRef[r], created); p.Some? ==> p.value in now && now[p.value].workspace == s.workspace
  {
    var row := TaskFor(byRef[r], s, ParentTask(byRef[r], created));
    if row.parent.Some? { assert Placed(byRef, s, created, before, now, byRef[r].parentRef.value); }
    CreatedStep(byRef, s, created, before, now, r, id);
    PartialEmbeds(byRef, s, created[r := id], before, now[id := row]);
    var level := LevelIsClear(RefParents(byRef), now, created[r := id], r, id, row, depth);
    NewRowHasNoSubtree(now, id);
    WriteKeepsForest(now, id, row, level);
  }

  /** A manager inserting a well-formed row into its forest succeeds. */
  method CreateNode(store: Store, t: Tenant, s: Scope, node: TaskNode, parent: Option<TaskId>, id: TaskId,
                    ghost before: WorkDb, ghost count: nat)
    requires ByCreates(before, store.Db(), count)
    requires ValidForest(store.tasks) && LockManager(t, s).Ok? && ValidNode(node)
    requires parent.Some? ==> InWorkspace(store.Db(), parent.value, s.workspace)
    requires id !in store.tasks && ValidForest(store.tasks[id := TaskFor(node, s, parent)])
    modifies store
    ensures ValidForest(store.tasks)
    ensures store.tasks == old(store.tasks)[id := TaskFor(node, s, parent)] && Logged(old(store.Db()), store.Db(), 1)
    ensures ByCreates(before, store.Db(), count + 1)
  {
    ghost var now := store.Db();
    var draft := Draft(node.title, Some(node.description), node.priority, node.deadline);
    var error := store.InsertTask(t, s, draft, parent, id);
    OneMoreCreate(before, now, count, Request(t, s, 0, Create(draft, parent, id)));
  }

  // ----- the worklist -----

  /** The nodes without a Task yet, in plan order. */
  function Remaining(nodes: seq<TaskNode>, done: set<string>): seq<TaskNode> {
    if nodes == [] then []
    else if nodes[0].localRef in done then Remaining(nodes[1..], done)
    else [nodes[0]] + Remaining(nodes[1..], done)
  }

  /** `list.remove`: drop the first equal element. */
  function Remove(list: seq<TaskNode>, x: TaskNode): seq<TaskNode> {
    if list == [] then [] else if list[0] == x then list[1..] else [list[0]] + Remove(list[1..], x)
  }

  lemma {:induction false} RemainingHas(nodes: seq<TaskNode>, done: set<string>, n: TaskNode)
    ensures n in Remaining(nodes, done) <==> n in nodes && n.localRef !in done
  {
    if nodes != [] {
      RemainingHas(nodes[1..], done, n);
      assert n in nodes <==> n == nodes[0] || n in nodes[1..];
    }
  }

  lemma {:induction false} RemainingKeepsUnique(nodes: seq<TaskNode>, done: set<string>)
    requires UniqueRefs(nodes)
    ensures UniqueRefs(Remaining(nodes, done)) && |Remaining(nodes, done)| <= |nodes|
  {
    if nodes != [] {
      RemainingKeepsUnique(nodes[1..], done);
      var rest := Remaining(nodes[1..], done);
      forall j | 0 <= j < |rest| ensures rest[j].localRef != nodes[0].localRef {
        RemainingHas(nodes[1..], done, rest[j]);
        var k :| 0 <= k < |nodes[1..]| && nodes[1..][k] == rest[j];
        assert nodes[k + 1] == rest[j];
      }
    }
  }

  lemma {:induction false} RemainingOfNone(nodes: seq<TaskNode>)
    ensures Remaining(nodes, {}) == nodes
  {
    if nodes != [] { RemainingOfNone(nodes[1..]); }
  }

  lemma {:induction false} RemainingWithout(nodes: seq<TaskNode>, done: set<string>, reference: string)
    requires forall k :: 0 <= k < |nodes| ==> nodes[k].localRef != reference
    ensures Remaining(nodes, done + {reference}) == Remaining(nodes, done)
  {
    if nodes != [] { RemainingWithout(nodes[1..], done, reference); }
  }

  lemma {:induction false} RemoveDone(nodes: seq<TaskNode>, done: set<string>, i: nat)
    requires UniqueRefs(nodes) && i < |nodes| && nodes[i].localRef !in done
    ensures Remaining(nodes, done + {nodes[i].localRef}) == Remove(Remaining(nodes, done), nodes[i])
    ensures |Remaining(nodes, done + {nodes[i].localRef})| + 1 == |Remaining(nodes, done)|
  {
    var node := nodes[i];
    if i == 0 {
      RemainingWithout(nodes[1..], done, node.localRef);
    } else {
      RemoveDone(nodes[1..], done, i - 1);
      assert nodes[0].localRef != node.localRef;
      if nodes[0].localRef !in done {
        assert Remaining(nodes, done)[1..] == Remaining(nodes[1..], done);
      }
    }
  }

  predicate Shallow(parents: Parents<string>, r: string, passes: nat) { r in parents && Up(parents, r, passes).None? }

  /** Every node with fewer than `passes` edges above it has its Task. */
  ghost predicate Settled(parents: Parents<string>, created: Created, passes: nat) {
    forall r :: Shallow(parents, r, passes) ==> r in created
  }

  ghost predicate FreshIds(tasks: map<TaskId, Task>, ids: seq<TaskId>, from: nat) {
    (forall i :: from <= i < |ids| ==> ids[i] !in tasks)
    && forall i, j :: 0 <= i < j < |ids| ==> ids[i] != ids[j]
  }

  /** The worklist holds the nodes without a Task, and enough fresh keys are left. */
  ghost predicate Listed(nodes: seq<TaskNode>, created: Created, pending: seq<TaskNode>, ids: seq<TaskId>,
                         tasks: map<TaskId, Task>) {
    pending == Remaining(nodes, created.Keys) && |created| + |pending| == |nodes| && FreshIds(tasks, ids, |created|)
  }

  /** Only the Task table and `count` new log entries differ. */
  ghost predicate Logged(before: WorkDb, now: WorkDb, count: nat) {
    now == before.(tasks := now.tasks, audit := now.audit)
    && |now.audit| == |before.audit| + count && now.audit[..|before.audit|] == before.audit
  }

  /** The state is what `count` calls of `create_task` lead to. */
  ghost predicate ByCreates(before: WorkDb, now: WorkDb, count: nat) {
    exists calls: seq<Request> :: |calls| == count && AllCreates(calls) && now == Run(before, calls)
  }

  predicate AllCreates(calls: seq<Request>) { forall i :: 0 <= i < |calls| ==> calls[i].call.Create? }

  lemma OneMoreCreate(before: WorkDb, now: WorkDb, count: nat, r: Request)
    requires ByCreates(before, now, count) && r.call.Create?
    ensures ByCreates(before, Step(now, r), count + 1)
  {
    var calls :| |calls| == count && AllCreates(calls) && now == Run(before, calls);
    var more := calls + [r];
    assert more[..|more| - 1] == calls && AllCreates(more) && Run(before, more) == Step(now, r);
  }

  /** The state between two nodes: the worklist and the rows agree on what has been created. */
  ghost predicate Working(nodes: seq<TaskNode>, s: Scope, created: Created, pending: seq<TaskNode>, ids: seq<TaskId>,
                          before: WorkDb, now: WorkDb) {
    Partial(NodesByRef(nodes), s, created, before.tasks, now.tasks)
    && Listed(nodes, created, pending, ids, now.tasks) && Logged(before, now, |created|)
    && ByCreates(before, now, |created|)
  }

  lemma ListedStep(nodes: seq<TaskNode>, created: Created, pending: seq<TaskNode>, ids: seq<TaskId>,
                   tasks: map<TaskId, Task>,
                   i: nat, row: Task)
    requires UniqueRefs(nodes) && Listed(nodes, created, pending, ids, tasks) && i < |nodes| <= |ids|
    requires nodes[i].localRef !in created
    ensures |created| < |ids|
    ensures Listed(nodes, created[nodes[i].localRef := ids[|created|]], Remove(pending, nodes[i]), ids,
                   tasks[ids[|created|] := row])
    ensures |created[nodes[i].localRef := ids[|created|]]| == |created| + 1
    ensures created[nodes[i].localRef := ids[|created|]].Keys == created.Keys + {nodes[i].localRef}
  {
    RemoveDone(nodes, created.Keys, i);
    assert |pending| > 0;
    var more := created[nodes[i].localRef := ids[|created|]];
    assert more.Keys == created.Keys + {nodes[i].localRef};
    assert |more.Keys| == |created.Keys| + 1;
  }

  lemma LoggedMore(before: WorkDb, now: WorkDb, next: WorkDb, count: nat)
    requires Logged(before, now, count) && Logged(now, next, 1)
    ensures Logged(before, next, count + 1)
  {
  }

  lemma WorkingStep(nodes: seq<TaskNode>, s: Scope, created: Created, pending: seq<TaskNode>, ids: seq<TaskId>,
                    before: WorkDb,
                    now: WorkDb, next: WorkDb, i: nat, more: Created)
    requires UniqueRefs(nodes) && Working(nodes, s, created, pending, ids, before, now)
    requires i < |nodes| <= |ids| && |created| < |ids|
    requires Ready(NodesByRef(nodes), created, now.tasks, nodes[i].localRef, ids[|created|])
    requires NodesByRef(nodes)[nodes[i].localRef] == nodes[i]
    requires next.tasks == now.tasks[ids[|created|] := TaskFor(nodes[i], s, ParentTask(nodes[i], created))]
             && Logged(now, next, 1)
    requires ByCreates(before, next, |created| + 1) && more == created[nodes[i].localRef := ids[|created|]]
    ensures Working(nodes, s, more, Remove(pending, nodes[i]), ids, before, next)
    ensures more.Keys == created.Keys + {nodes[i].localRef}
  {
    CreatedStep(NodesByRef(nodes), s, created, before.tasks, now.tasks, nodes[i].localRef, ids[|created|]);
    ListedStep(nodes, created, pending, ids, now.tasks, i, next.tasks[ids[|created|]]);
    LoggedMore(before, now, next, |created|);
  }

  lemma WaitingNode(plan: Plan, created: Created, node: TaskNode) returns (i: nat)
    requires ValidPlan(plan, LIMITS) && node in Remaining(plan.tasks, created.Keys)
    ensures i < |plan.tasks| && plan.tasks[i] == node && node.localRef !in created && ValidNode(node)
  {
    RemainingHas(plan.tasks, created.Keys, node);
    i :| 0 <= i < |plan.tasks| && plan.tasks[i] == node;
  }

  /** A waiting node whose parent has its Task may be created next, under the next fresh key. */
  lemma NodeIsReady(plan: Plan, created: Created, pending: seq<TaskNode>, ids: seq<TaskId>,
                    tasks: map<TaskId, Task>, node: TaskNode) returns (i: nat)
    requires ValidPlan(plan, LIMITS) && Listed(plan.tasks, created, pending, ids, tasks)
    requires |plan.tasks| <= |ids| && node in pending && (node.parentRef.Some? ==> node.parentRef.value in created)
    ensures i < |plan.tasks| && plan.tasks[i] == node && |created| < |ids| && ValidNode(node)
    ensures node.localRef in NodesByRef(plan.tasks) && NodesByRef(plan.tasks)[node.localRef] == node
    ensures Ready(NodesByRef(plan.tasks), created, tasks, node.localRef, ids[|created|])
  {
    i := WaitingNode(plan, created, node);
    NoSelfParent(plan, i);
  }

  /** And then the forest stays valid. */
  lemma NodeFits(plan: Plan, s: Scope, created: Created, before: map<TaskId, Task>, now: map<TaskId, Task>,
                 node: TaskNode, id: TaskId)
    requires ValidPlan(plan, LIMITS) && Partial(NodesByRef(plan.tasks), s, created, before, now) && ValidForest(now)
    requires node.localRef in NodesByRef(plan.tasks) && NodesByRef(plan.tasks)[node.localRef] == node
    requires Ready(NodesByRef(plan.tasks), created, now, node.localRef, id)
    ensures ValidForest(now[id := TaskFor(node, s, ParentTask(node, created))])
    ensures var p := ParentTask(node, created); p.Some? ==> p.value in now && now[p.value].workspace == s.workspace
  {
    RefParentsArePlanParents(plan.tasks);
    NextNodeFits(NodesByRef(plan.tasks), s, created, before, now, node.localRef, id, LIMITS.maxDepth);
  }

  lemma NoSelfParent(plan: Plan, i: nat)
    requires ValidPlan(plan, LIMITS) && i < |plan.tasks|
    ensures plan.tasks[i].parentRef != Some(plan.tasks[i].localRef)
    ensures plan.tasks[i].localRef in NodesByRef(plan.tasks)
            && NodesByRef(plan.tasks)[plan.tasks[i].localRef] == plan.tasks[i]
  {
    NodesByRefKeys(plan.tasks);
    var parents, r := PlanParents(plan.tasks), plan.tasks[i].localRef;
    BoundedIsAcyclic(parents, LIMITS.maxDepth, r, 1);
    OneStepUp(parents, r, 0, r);
  }

  /** Create the Task of a waiting node whose parent has one, and take it off the worklist. */
  method PlaceNode(store: Store, t: Tenant, s: Scope, plan: Plan, ids: seq<TaskId>, ghost before: WorkDb,
                   start: Created, waiting: seq<TaskNode>, node: TaskNode)
      returns (created: Created, pending: seq<TaskNode>)
    requires ValidPlan(plan, LIMITS) && LockManager(t, s).Ok? && |plan.tasks| <= |ids| && ValidForest(store.tasks)
    requires Working(plan.tasks, s, start, waiting, ids, before, store.Db()) && node in waiting
    requires node.parentRef.Some? ==> node.parentRef.value in start
    modifies store
    ensures Working(plan.tasks, s, created, pending, ids, before, store.Db()) && ValidForest(store.tasks)
    ensures created.Keys == start.Keys + {node.localRef}
  {
    ghost var i := NodeIsReady(plan, start, waiting, ids, store.tasks, node);
    var id := ids[|start|];
    NodeFits(plan, s, start, before.tasks, store.tasks, node, id);
    ghost var now := store.Db();
    CreateNode(store, t, s, node, ParentTask(node, start), id, before, |start|);
    created, pending := start[node.localRef := id], Remove(waiting, node);
    WorkingStep(plan.tasks, s, start, waiting, ids, before, now, store.Db(), i, created);
  }

  /** One node of the snapshot: skipped while its parent waits, else created. */
  method VisitNode(store: Store, t: Tenant, s: Scope, plan: Plan, ids: seq<TaskId>, ghost before: WorkDb,
                   start: Created, waiting: seq<TaskNode>, node: TaskNode)
      returns (created: Created, pending: seq<TaskNode>)
    requires ValidPlan(plan, LIMITS) && LockManager(t, s).Ok? && |plan.tasks| <= |ids| && ValidForest(store.tasks)
    requires Working(plan.tasks, s, start, waiting, ids, before, store.Db()) && node in waiting
    modifies store
    ensures Working(plan.tasks, s, created, pending, ids, before, store.Db()) && ValidForest(store.tasks)
    ensures if node.parentRef.Some? && node.parentRef.value !in start then created == start && pending == waiting
            else created.Keys == start.Keys + {node.localRef}
  {
    if node.parentRef.Some? && node.parentRef.value !in start {
      return start, waiting;
    }
    created, pending := PlaceNode(store, t, s, plan, ids, before, start, waiting, node);
  }

  /** Of the snapshot, the first `i` nodes are done unless they are too deep, and no other is. */
  ghost predicate Visited(parents: Parents<string>, waiting: seq<TaskNode>, created: Created, i: nat, passes: nat) {
    (forall j :: i <= j < |waiting| ==> waiting[j].localRef !in created)
    && forall j :: 0 <= j < |waiting| && j < i && Up(parents, waiting[j].localRef, passes + 1).None? ==>
         waiting[j].localRef in created
  }

  lemma VisitedStep(nodes: seq<TaskNode>, start: Created, waiting: seq<TaskNode>, known: Created, created: Created,
                    i: nat, passes: nat)
    requires Closed(PlanParents(nodes)) && Settled(PlanParents(nodes), start, passes) && start.Keys <= known.Keys
    requires UniqueRefs(waiting) && i < |waiting| && Visited(PlanParents(nodes), waiting, known, i, passes)
    requires waiting[i].localRef in NodesByRef(nodes) && NodesByRef(nodes)[waiting[i].localRef] == waiting[i]
    requires if waiting[i].parentRef.Some? && waiting[i].parentRef.value !in known then created == known
             else created.Keys == known.Keys + {waiting[i].localRef}
    ensures Visited(PlanParents(nodes), waiting, created, i + 1, passes)
  {
  }

  lemma SnapshotNode(nodes: seq<TaskNode>, start: Created, created: Created, node: TaskNode)
    requires UniqueRefs(nodes) && node in Remaining(nodes, start.Keys) && node.localRef !in created
    ensures node in Remaining(nodes, created.Keys)
    ensures node.localRef in NodesByRef(nodes) && NodesByRef(nodes)[node.localRef] == node
  {
    RemainingHas(nodes, start.Keys, node);
    RemainingHas(nodes, created.Keys, node);
    NodesByRefKeys(nodes);
  }

  /** One pass over a snapshot of the worklist settles one more level. */
  method OnePass(store: Store, t: Tenant, s: Scope, plan: Plan, ids: seq<TaskId>, ghost before: WorkDb, passes: nat,
                 start: Created, waiting: seq<TaskNode>)
      returns (created: Created, pending: seq<TaskNode>, done: nat)
    requires ValidPlan(plan, LIMITS) && LockManager(t, s).Ok? && |plan.tasks| <= |ids| && ValidForest(store.tasks)
    requires Working(plan.tasks, s, start, waiting, ids, before, store.Db())
             && Settled(PlanParents(plan.tasks), start, passes)
    modifies store
    ensures Working(plan.tasks, s, created, pending, ids, before, store.Db()) && ValidForest(store.tasks)
    ensures done == passes + 1 && Settled(PlanParents(plan.tasks), created, done)
  {
    created, pending, done := start, waiting, passes + 1;
    RemainingKeepsUnique(plan.tasks, start.Keys);
    SnapshotUnvisited(plan.tasks, start, passes);
    for i := 0 to |waiting|
      invariant Working(plan.tasks, s, created, pending, ids, before, store.Db()) && ValidForest(store.tasks)
      invariant start.Keys <= created.Keys && Visited(PlanParents(plan.tasks), waiting, created, i, passes)
    {
      SnapshotNode(plan.tasks, start, created, waiting[i]);
      ghost var known := created;
      created, pending := VisitNode(store, t, s, plan, ids, before, created, pending, waiting[i]);
      VisitedStep(plan.tasks, start, waiting, known, created, i, passes);
    }
    PassSettles(plan, start, waiting, created, passes);
  }

  lemma SnapshotUnvisited(nodes: seq<TaskNode>, start: Created, passes: nat)
    ensures Visited(PlanParents(nodes), Remaining(nodes, start.Keys), start, 0, passes)
  {
  }

  lemma PassSettles(plan: Plan, start: Created, waiting: seq<TaskNode>, created: Created, passes: nat)
    requires ValidPlan(plan, LIMITS) && waiting == Remaining(plan.tasks, start.Keys) && start.Keys <= created.Keys
    requires Visited(PlanParents(plan.tasks), waiting, created, |waiting|, passes)
    ensures Settled(PlanParents(plan.tasks), created, passes + 1)
  {
    NodesByRefKeys(plan.tasks);
    forall r | r in PlanParents(plan.tasks) && Up(PlanParents(plan.tasks), r, passes + 1).None? ensures r in created {
      var node := NodesByRef(plan.tasks)[r];
      RemainingHas(plan.tasks, start.Keys, node);
    }
  }

  /** The plan has become Tasks, by calls of `create_task` alone. */
  ghost predicate Built(before: WorkDb, now: WorkDb, s: Scope, plan: Plan, created: Created) {
    Compiled(plan.tasks, s, created, before.tasks, now.tasks)
    && Logged(before, now, |plan.tasks|) && ByCreates(before, now, |plan.tasks|)
  }

  lemma {:induction false} RunKeeps(db: WorkDb, calls: seq<Request>)
    requires WorkInv(db)
    ensures WorkInv(Run(db, calls))
  {
    if calls != [] {
      RunKeeps(db, calls[..|calls| - 1]);
      StepKeeps(Run(db, calls[..|calls| - 1]), calls[|calls| - 1]);
    }
  }

  lemma CreatesKeep(before: WorkDb, now: WorkDb, count: nat)
    requires WorkInv(before) && ByCreates(before, now, count)
    ensures WorkInv(now)
  {
    var calls :| |calls| == count && AllCreates(calls) && now == Run(before, calls);
    RunKeeps(before, calls);
  }

  /** The worklist loop. */
  method RunWorklist(store: Store, t: Tenant, s: Scope, plan: Plan, ids: seq<TaskId>)
      returns (created: Created, passes: nat)
    requires ValidPlan(plan, LIMITS) && LockManager(t, s).Ok? && ValidForest(store.tasks)
    requires |plan.tasks| <= |ids| && FreshIds(store.tasks, ids, 0)
    modifies store
    ensures Built(old(store.Db()), store.Db(), s, plan, created) && passes <= LIMITS.maxDepth + 1
  {
    created, passes := map[], 0;
    var pending := plan.tasks;
    ghost var before := store.Db();
    NothingCreated(plan, s, ids, before, created);
    while pending != []
      invariant passes <= LIMITS.maxDepth + 1 && ValidForest(store.tasks)
      invariant Working(plan.tasks, s, created, pending, ids, before, store.Db())
      invariant Settled(PlanParents(plan.tasks), created, passes)
      decreases LIMITS.maxDepth + 1 - passes
    {
      StillWaiting(plan, created, pending[0], passes);
      created, pending, passes := OnePass(store, t, s, plan, ids, before, passes, created, pending);
    }
    AllCreated(plan, s, created, ids, before, store.Db());
  }

  /** `while pending`: at most one pass more than the depth limit, whatever order the plan lists its
      nodes in, and every Task is created. `ids` are the fresh keys of the inserts. */
  method CompilePlan(store: Store, t: Tenant, s: Scope, plan: Plan, ids: seq<TaskId>)
      returns (created: Created, passes: nat)
    requires ValidPlan(plan, LIMITS) && LockManager(t, s).Ok? && store.Valid()
    requires |plan.tasks| <= |ids| && FreshIds(store.tasks, ids, 0)
    modifies store
    ensures Built(old(store.Db()), store.Db(), s, plan, created) && passes <= LIMITS.maxDepth + 1
    ensures store.Valid()
  {
    ghost var before := store.Db();
    created, passes := RunWorklist(store, t, s, plan, ids);
    CreatesKeep(before, store.Db(), |plan.tasks|);
  }

  /** A later row of the transaction is rejected: the Tasks that were created are undone. */
  method CompileAndUndo(store: Store, t: Tenant, s: Scope, plan: Plan, ids: seq<TaskId>)
    requires ValidPlan(plan, LIMITS) && LockManager(t, s).Ok? && store.Valid()
    requires |plan.tasks| <= |ids| && FreshIds(store.tasks, ids, 0)
    modifies store
    ensures store.Db() == old(store.Db())
  {
    var saved := store.Db();
    var _, _ := CompilePlan(store, t, s, plan, ids);
    store.Rollback(saved);
  }

  lemma StillWaiting(plan: Plan, created: Created, node: TaskNode, passes: nat)
    requires ValidPlan(plan, LIMITS) && node in Remaining(plan.tasks, created.Keys)
    requires Settled(PlanParents(plan.tasks), created, passes)
    ensures passes < LIMITS.maxDepth + 1
  {
    RemainingHas(plan.tasks, created.Keys, node);
    NodesByRefKeys(plan.tasks);
    assert node.localRef in PlanParents(plan.tasks);
    if passes >= LIMITS.maxDepth + 1 { UpEnds(PlanParents(plan.tasks), node.localRef, LIMITS.maxDepth + 1, passes); }
  }

  lemma AllKeysCreated(plan: Plan, created: Created)
    requires ParentsFirst(NodesByRef(plan.tasks), created) && Remaining(plan.tasks, created.Keys) == []
    ensures created.Keys == NodesByRef(plan.tasks).Keys
  {
    NodesByRefKeys(plan.tasks);
    forall r | r in NodesByRef(plan.tasks) ensures r in created {
      RemainingHas(plan.tasks, created.Keys, NodesByRef(plan.tasks)[r]);
    }
  }

  lemma AllCreated(plan: Plan, s: Scope, created: Created, ids: seq<TaskId>, before: WorkDb, now: WorkDb)
    requires Working(plan.tasks, s, created, [], ids, before, now)
    ensures Built(before, now, s, plan, created)
  {
    AllKeysCreated(plan, created);
  }

  lemma NothingCreated(plan: Plan, s: Scope, ids: seq<TaskId>, db: WorkDb, created: Created)
    requires created == map[] && |plan.tasks| <= |ids| && FreshIds(db.tasks, ids, 0)
    ensures Working(plan.tasks, s, created, plan.tasks, ids, db, db) && Settled(PlanParents(plan.tasks), created, 0)
  {
    RemainingOfNone(plan.tasks);
    assert created.Keys == {};
    assert AllCreates([]) && Run(db, []) == db;
  }
}
