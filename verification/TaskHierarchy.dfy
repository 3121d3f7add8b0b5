/** The Task table and the hierarchy half of `Task.clean`. */
module TaskHierarchy {
  import opened Prelude
  import opened Calendar
  import opened Ancestry
  import opened Tenancy
  import PlanContract

  type TaskId = nat

  const MAX_HIERARCHY_DEPTH: nat := PlanContract.MAX_HIERARCHY_DEPTH

  datatype TaskStatus = Pending | Assigned | Working | InReview | Completed

  datatype Task = Task(
    workspace: WorkspaceId, parent: Option<TaskId>, title: string, description: Option<string>,
    priority: PlanContract.Priority, deadline: Option<UtcTime>, status: TaskStatus, createdBy: UserId)

  function TaskParents(tasks: map<TaskId, Task>): Parents<TaskId> {
    map id | id in tasks :: tasks[id].parent
  }

  /** No parent edge leaves its Workspace. */
  predicate OneWorkspace(tasks: map<TaskId, Task>) {
    forall id :: id in tasks && tasks[id].parent.Some? && tasks[id].parent.value in tasks ==>
                   tasks[tasks[id].parent.value].workspace == tasks[id].workspace
  }

  predicate ValidForest(tasks: map<TaskId, Task>) {
    Closed(TaskParents(tasks)) && Within(TaskParents(tasks), MAX_HIERARCHY_DEPTH) && OneWorkspace(tasks)
  }

  lemma ForestIsAcyclic(tasks: map<TaskId, Task>, id: TaskId, k: nat)
    requires ValidForest(tasks) && id in tasks && k > 0
    ensures Up(TaskParents(tasks), id, k) != Some(id)
  {
    BoundedIsAcyclic(TaskParents(tasks), MAX_HIERARCHY_DEPTH, id, k);
  }

  /** Only the shape of the table matters. */
  lemma ForestDependsOnShape(before: map<TaskId, Task>, after: map<TaskId, Task>)
    requires before.Keys == after.Keys
    requires forall id :: id in before ==>
               before[id].parent == after[id].parent && before[id].workspace == after[id].workspace
    ensures ValidForest(before) <==> ValidForest(after)
  {
    assert TaskParents(before) == TaskParents(after);
  }

  datatype Verdict = Accepted | CycleFound | OutOfScope | TooDeep | SubtreeTooDeep | SubtreeOutOfScope

  function ChildrenOf(tasks: map<TaskId, Task>, frontier: set<TaskId>): set<TaskId> {
    set id | id in tasks && tasks[id].parent.Some? && tasks[id].parent.value in frontier
  }

  /** The rows exactly `distance` parent edges below `pk`. */
  ghost function Below(tasks: map<TaskId, Task>, pk: TaskId, distance: nat): set<TaskId> {
    set id | id in tasks && Up(TaskParents(tasks), id, distance) == Some(pk)
  }

  /** What each refusal has found in the table that the write would leave behind. */
  ghost predicate Justified(tasks: map<TaskId, Task>, pk: TaskId, row: Task, verdict: Verdict) {
    var parents := TaskParents(tasks[pk := row]);
    match verdict
    case Accepted => true
    case CycleFound => exists j: nat, k: nat ::
           j < k && Up(parents, pk, k).Some? && Up(parents, pk, j) == Up(parents, pk, k)
    case OutOfScope => exists k: nat :: k > 0 && Up(parents, pk, k).Some?
                                        && (Up(parents, pk, k).value !in tasks
                                            || tasks[Up(parents, pk, k).value].workspace != row.workspace)
    case TooDeep => Up(parents, pk, MAX_HIERARCHY_DEPTH + 1).Some?
    case SubtreeTooDeep => exists id :: id in tasks && id != pk && Up(parents, id, MAX_HIERARCHY_DEPTH + 1).Some?
    case SubtreeOutOfScope => exists id, n: nat :: id in Below(tasks, pk, n) && tasks[id].workspace != row.workspace
  }

  /** `Task.clean`: a bounded walk to the root, then, when an existing row changes parent or
      Workspace, a bounded breadth-first scan of its subtree. */
  method CleanHierarchy(tasks: map<TaskId, Task>, pk: TaskId, row: Task, adding: bool) returns (verdict: Verdict)
    requires adding ==> pk !in tasks
    ensures ValidForest(tasks) ==> (verdict.Accepted? <==> ValidForest(tasks[pk := row]))
    ensures ValidForest(tasks) ==> Justified(tasks, pk, row, verdict)
  {
    var depth: nat;
    verdict, depth := WalkAncestors(tasks, pk, row);
    if !verdict.Accepted? {
      return;
    }
    if !adding && pk in tasks && (tasks[pk].parent != row.parent || tasks[pk].workspace != row.workspace) {
      verdict := ScanSubtree(tasks, pk, row, depth);
    } else if ValidForest(tasks) {
      if pk in tasks {
        ForestDependsOnShape(tasks, tasks[pk := row]);
      } else {
        NewRowHasNoSubtree(tasks, pk);
        WriteKeepsForest(tasks, pk, row, depth);
      }
    }
  }

  method WalkAncestors(tasks: map<TaskId, Task>, pk: TaskId, row: Task) returns (verdict: Verdict, depth: nat)
    ensures verdict.Accepted? ==> depth <= MAX_HIERARCHY_DEPTH && AncestorsClear(tasks, pk, row, depth)
    ensures verdict in {Accepted, CycleFound, OutOfScope, TooDeep}
    ensures !verdict.Accepted? ==> Justified(tasks, pk, row, verdict)
    ensures !verdict.Accepted? ==> !ValidForest(tasks[pk := row])
  {
    ghost var after := tasks[pk := row];
    ghost var parents := TaskParents(after);
    var seen := {pk};
    var parentId := row.parent;
    depth := 0;
    assert row.parent.Some? ==> Up(parents, row.parent.value, 0) == row.parent;
    while parentId.Some?
      invariant depth <= MAX_HIERARCHY_DEPTH
      invariant Up(parents, pk, depth).Some? && Up(parents, pk, depth + 1) == parentId
      invariant pk in seen && forall x :: x in seen ==> exists k: nat :: k <= depth && Up(parents, pk, k) == Some(x)
      invariant depth > 0 ==> row.parent.Some? && row.parent.value in tasks && row.parent.value != pk
                              && tasks[row.parent.value].workspace == row.workspace
      invariant depth > 0 ==> exists a :: a != pk && a in tasks && tasks[a].workspace == row.workspace
                                          && Up(parents, pk, depth) == Some(a)
      decreases MAX_HIERARCHY_DEPTH - depth
    {
      ghost var current := Up(parents, pk, depth).value;
      assert current in after && after[current].workspace == row.workspace by {
        UpSplit(parents, pk, depth, 1);
      }
      OneStepUp(parents, pk, depth, current);
      if parentId.value in seen {
        ghost var k: nat :| k <= depth && Up(parents, pk, k) == parentId;
        RepeatedAncestor(after, pk, k, depth + 1);
        return CycleFound, depth;
      }
      seen := seen + {parentId.value};
      if parentId.value !in tasks || tasks[parentId.value].workspace != row.workspace {
        assert after[current].parent == parentId && parents[current] == parentId;
        return OutOfScope, depth;
      }
      OneStepUp(parents, pk, depth + 1, parentId.value);
      depth := depth + 1;
      if depth > MAX_HIERARCHY_DEPTH {
        assert pk in parents;
        return TooDeep, depth;
      }
      parentId := tasks[parentId.value].parent;
    }
    verdict := Accepted;
  }

  /** A chain that meets itself never ends. */
  lemma RepeatedAncestor(tasks: map<TaskId, Task>, id: TaskId, k: nat, n: nat)
    requires id in tasks && k < n && Up(TaskParents(tasks), id, k).Some?
    requires Up(TaskParents(tasks), id, n) == Up(TaskParents(tasks), id, k)
    ensures !ValidForest(tasks)
  {
    var parents := TaskParents(tasks);
    var a := Up(parents, id, k).value;
    UpSplit(parents, id, k, n - k);
    UpSplit(parents, id, k, MAX_HIERARCHY_DEPTH + 1);
    CycleNeverEnds(parents, a, n - k, MAX_HIERARCHY_DEPTH + 1);
    UpEnds(parents, id, MAX_HIERARCHY_DEPTH + 1, k + MAX_HIERARCHY_DEPTH + 1);
  }

  /** The walk ended after `depth` edges inside the row's Workspace. */
  ghost predicate AncestorsClear(tasks: map<TaskId, Task>, pk: TaskId, row: Task, depth: nat) {
    var parents := TaskParents(tasks[pk := row]);
    Up(parents, pk, depth).Some? && Up(parents, pk, depth + 1).None?
    && (row.parent.Some? ==> row.parent.value in tasks && row.parent.value != pk
                             && tasks[row.parent.value].workspace == row.workspace)
  }

  /** Generations 1 to `distance - 1` below the row stay in its Workspace; `seen` holds only them and the row. */
  ghost predicate ScannedTo(tasks: map<TaskId, Task>, pk: TaskId, row: Task, distance: nat, seen: set<TaskId>) {
    (forall x :: x in seen ==> exists k: nat :: k < distance && x in Below(tasks, pk, k))
    && forall n: nat, id :: 1 <= n < distance && id in Below(tasks, pk, n) ==> tasks[id].workspace == row.workspace
  }

  method ScanSubtree(tasks: map<TaskId, Task>, pk: TaskId, row: Task, depth: nat) returns (verdict: Verdict)
    requires pk in tasks && depth <= MAX_HIERARCHY_DEPTH && AncestorsClear(tasks, pk, row, depth)
    ensures ValidForest(tasks) ==> (verdict.Accepted? <==> ValidForest(tasks[pk := row]))
    ensures ValidForest(tasks) ==> Justified(tasks, pk, row, verdict)
  {
    var frontier := {pk};
    var descendantsSeen := {pk};
    var distance := 1;
    assert pk in Below(tasks, pk, 0);
    while distance < MAX_HIERARCHY_DEPTH + 2
      invariant 1 <= distance <= MAX_HIERARCHY_DEPTH + 2 && depth + distance <= MAX_HIERARCHY_DEPTH + 1
      invariant frontier == Below(tasks, pk, distance - 1)
      invariant ScannedTo(tasks, pk, row, distance, descendantsSeen)
    {
      var descendants := ChildrenOf(tasks, frontier);
      NextGeneration(tasks, pk, distance - 1);
      if descendants == {} {
        break;
      }
      if depth + distance > MAX_HIERARCHY_DEPTH {
        DeepSubtreeRefused(tasks, pk, row, depth, distance);
        return SubtreeTooDeep;
      }
      if exists id :: id in descendants && (tasks[id].workspace != row.workspace || id in descendantsSeen) {
        ghost var id :| id in descendants && (tasks[id].workspace != row.workspace || id in descendantsSeen);
        ForeignSubtreeRefused(tasks, pk, row, distance, descendantsSeen, id);
        return SubtreeOutOfScope;
      }
      ScanStep(tasks, pk, row, distance, descendantsSeen);
      frontier := descendants;
      descendantsSeen := descendantsSeen + descendants;
      distance := distance + 1;
    }
    SubtreeFits(tasks, pk, row, depth, distance, descendantsSeen);
    verdict := Accepted;
  }

  lemma DeepSubtreeRefused(tasks: map<TaskId, Task>, pk: TaskId, row: Task, depth: nat, distance: nat)
    requires pk in tasks && distance > 0 && Below(tasks, pk, distance) != {}
    requires AncestorsClear(tasks, pk, row, depth) && depth + distance > MAX_HIERARCHY_DEPTH
    ensures ValidForest(tasks) ==> !ValidForest(tasks[pk := row]) && Justified(tasks, pk, row, SubtreeTooDeep)
  {
    if ValidForest(tasks) {
      var id :| id in Below(tasks, pk, distance);
      DeepSubtreeBreaksForest(tasks, pk, row, depth, id, distance);
    }
  }

  lemma ForeignSubtreeRefused(tasks: map<TaskId, Task>, pk: TaskId, row: Task, distance: nat, seen: set<TaskId>,
                              id: TaskId)
    requires pk in tasks && distance > 0 && id in Below(tasks, pk, distance)
    requires ScannedTo(tasks, pk, row, distance, seen) && (tasks[id].workspace != row.workspace || id in seen)
    ensures ValidForest(tasks) ==> !ValidForest(tasks[pk := row]) && Justified(tasks, pk, row, SubtreeOutOfScope)
  {
    if ValidForest(tasks) {
      if id in seen {
        var k: nat :| k < distance && id in Below(tasks, pk, k);
        UpSplit(TaskParents(tasks), id, k, distance - k);
        ForestIsAcyclic(tasks, pk, distance - k);
      }
      ForeignSubtreeBreaksForest(tasks, pk, row, id, distance);
    }
  }

  lemma SubtreeFits(tasks: map<TaskId, Task>, pk: TaskId, row: Task, depth: nat, distance: nat, seen: set<TaskId>)
    requires pk in tasks && distance > 0 && depth + distance <= MAX_HIERARCHY_DEPTH + 1
             && AncestorsClear(tasks, pk, row, depth)
    requires Below(tasks, pk, distance) == {} && ScannedTo(tasks, pk, row, distance, seen)
    ensures ValidForest(tasks) ==> ValidForest(tasks[pk := row])
  {
    if ValidForest(tasks) {
      forall n: nat, id | 1 <= n && id in Below(tasks, pk, n)
        ensures depth + n <= MAX_HIERARCHY_DEPTH && tasks[id].workspace == row.workspace
      {
        if distance <= n {
          NothingFurtherBelow(tasks, pk, distance, n, id);
        }
      }
      WriteKeepsForest(tasks, pk, row, depth);
    }
  }

  lemma NextGeneration(tasks: map<TaskId, Task>, pk: TaskId, distance: nat)
    requires pk in tasks
    ensures ChildrenOf(tasks, Below(tasks, pk, distance)) == Below(tasks, pk, distance + 1)
  {
    forall id | id in Below(tasks, pk, distance + 1) ensures tasks[id].parent.value in Below(tasks, pk, distance) {
      assert Up(TaskParents(tasks), tasks[id].parent.value, distance) == Some(pk);
      assert distance == 0 || tasks[id].parent.value in TaskParents(tasks);
    }
  }

  lemma ScanStep(tasks: map<TaskId, Task>, pk: TaskId, row: Task, distance: nat, seen: set<TaskId>)
    requires ScannedTo(tasks, pk, row, distance, seen)
    requires forall id :: id in Below(tasks, pk, distance) ==> tasks[id].workspace == row.workspace
    ensures ScannedTo(tasks, pk, row, distance + 1, seen + Below(tasks, pk, distance))
  {
  }

  lemma NothingFurtherBelow(tasks: map<TaskId, Task>, pk: TaskId, distance: nat, n: nat, id: TaskId)
    requires Closed(TaskParents(tasks)) && distance <= n && id in Below(tasks, pk, n)
    ensures Below(tasks, pk, distance) != {}
    decreases n
  {
    if distance < n {
      NothingFurtherBelow(tasks, pk, distance, n - 1, tasks[id].parent.value);
    }
  }

  /** Rewriting one row redirects exactly the chains that pass through it. */
  lemma {:induction false} Redirect(tasks: map<TaskId, Task>, pk: TaskId, row: Task, id: TaskId, k: nat)
      returns (n: nat)
    ensures n <= k
    ensures (Up(TaskParents(tasks), id, n) == Some(pk) && Up(TaskParents(tasks[pk := row]), id, n) == Some(pk))
            || Up(TaskParents(tasks), id, k) == Up(TaskParents(tasks[pk := row]), id, k)
    decreases k
  {
    if id == pk || k == 0 || id !in tasks || tasks[id].parent.None? {
      n := 0;
    } else {
      var m := Redirect(tasks, pk, row, tasks[id].parent.value, k - 1);
      n := m + 1;
    }
  }

  /** A chain that reaches the row before the write still reaches it afterwards. */
  lemma {:induction false} StillBelow(tasks: map<TaskId, Task>, pk: TaskId, row: Task, id: TaskId, n: nat)
    requires ValidForest(tasks) && pk in tasks && id in Below(tasks, pk, n)
    ensures Up(TaskParents(tasks[pk := row]), id, n) == Some(pk)
    decreases n
  {
    if n > 0 {
      ForestIsAcyclic(tasks, pk, n);
      StillBelow(tasks, pk, row, tasks[id].parent.value, n - 1);
    }
  }

  lemma DeepSubtreeBreaksForest(tasks: map<TaskId, Task>, pk: TaskId, row: Task, depth: nat, id: TaskId, n: nat)
    requires ValidForest(tasks) && pk in tasks && n > 0 && id in Below(tasks, pk, n)
    requires AncestorsClear(tasks, pk, row, depth) && depth + n > MAX_HIERARCHY_DEPTH
    ensures id != pk && Up(TaskParents(tasks[pk := row]), id, MAX_HIERARCHY_DEPTH + 1).Some?
    ensures !ValidForest(tasks[pk := row])
  {
    var parents := TaskParents(tasks[pk := row]);
    StillBelow(tasks, pk, row, id, n);
    ForestIsAcyclic(tasks, pk, n);
    UpSplit(parents, id, n, depth);
    UpEnds(parents, id, MAX_HIERARCHY_DEPTH + 1, n + depth);
    assert id in parents;
  }

  lemma {:induction false} ForeignSubtreeBreaksForest(tasks: map<TaskId, Task>, pk: TaskId, row: Task, id: TaskId,
                                                      n: nat)
    requires ValidForest(tasks) && pk in tasks && n > 0 && id in Below(tasks, pk, n)
    requires tasks[id].workspace != row.workspace
    ensures !ValidForest(tasks[pk := row])
    decreases n
  {
    var after := tasks[pk := row];
    var p := tasks[id].parent.value;
    ForestIsAcyclic(tasks, pk, n);
    assert after[id] == tasks[id];
    if n == 1 {
      assert p == pk && after[p].workspace == row.workspace;
    } else {
      assert p in Below(tasks, pk, n - 1);
      ForestIsAcyclic(tasks, pk, n - 1);
      assert p != pk;
      ForeignSubtreeBreaksForest(tasks, pk, row, p, n - 1);
    }
  }

  lemma NewRowHasNoSubtree(tasks: map<TaskId, Task>, pk: TaskId)
    requires Closed(TaskParents(tasks)) && pk !in tasks
    ensures forall n: nat, id :: 1 <= n ==> id !in Below(tasks, pk, n)
  {
    forall n: nat, id | 1 <= n && id in Below(tasks, pk, n) ensures false {
      NothingFurtherBelow(tasks, pk, 1, n, id);
    }
  }

  /** Clear ancestors above, and a subtree that fits below, keep the forest. */
  lemma WriteKeepsForest(tasks: map<TaskId, Task>, pk: TaskId, row: Task, depth: nat)
    requires ValidForest(tasks) && depth <= MAX_HIERARCHY_DEPTH && AncestorsClear(tasks, pk, row, depth)
    requires forall n: nat, id :: 1 <= n && id in Below(tasks, pk, n) ==>
                                    depth + n <= MAX_HIERARCHY_DEPTH && tasks[id].workspace == row.workspace
    ensures ValidForest(tasks[pk := row])
  {
    var after := tasks[pk := row];
    var parents := TaskParents(after);
    forall id | id in after && after[id].parent.Some?
      ensures after[id].parent.value in after && after[after[id].parent.value].workspace == after[id].workspace
    {
      if id != pk {
        assert TaskParents(tasks)[id].value in TaskParents(tasks);
        if after[id].parent.value == pk {
          assert Up(TaskParents(tasks), pk, 0) == Some(pk);
          assert id in Below(tasks, pk, 1);
        }
      }
    }
    forall id | id in parents ensures Up(parents, id, MAX_HIERARCHY_DEPTH + 1).None? {
      if id == pk {
        UpEnds(parents, pk, depth + 1, MAX_HIERARCHY_DEPTH + 1);
      } else {
        var n := Redirect(tasks, pk, row, id, MAX_HIERARCHY_DEPTH + 1);
        if Up(TaskParents(tasks), id, n) == Some(pk) && Up(parents, id, n) == Some(pk) {
          assert n > 0 && id in Below(tasks, pk, n);
          UpSplit(parents, id, n, MAX_HIERARCHY_DEPTH + 1 - n);
          UpEnds(parents, pk, depth + 1, MAX_HIERARCHY_DEPTH + 1 - n);
        }
      }
    }
  }
}
