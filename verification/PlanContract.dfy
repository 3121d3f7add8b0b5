/** The task-plan contract: strict parsing of a JSON value tree into a plan, and the
    normalised JSON form of a plan. */
module PlanContract {
  import opened Prelude
  import opened Calendar
  import opened DeadlineText
  import opened DeadlineSpellings
  import opened Ancestry

  /** Member names. The ones the contract knows stand for their spelling; `OtherName` is any other. */
  datatype Name =
    | ContractVersion | Tasks | Assumptions | Warnings
    | LocalRef | ParentRef | Title | Description | PriorityKey | ProposedDeadline | Notes
    | OtherName(spelling: string)

  datatype Json =
    | JNull
    | JBool(b: bool)
    | JNumber(n: int)
    | JString(s: string)
    | JArray(items: seq<Json>)
    | JObject(fields: map<Name, Json>)

  datatype Priority = Low | Medium | High | Urgent

  datatype TaskNode = TaskNode(
    localRef: string, parentRef: Option<string>, title: string, description: string,
    priority: Priority, deadline: Option<UtcTime>, notes: string)

  datatype Plan = Plan(tasks: seq<TaskNode>, assumptions: seq<string>, warnings: seq<string>)

  datatype Limits = Limits(maxTasks: nat, maxDepth: nat, maxRequestBytes: nat, maxResponseBytes: nat)

  const MAX_HIERARCHY_DEPTH: nat := 3
  const LIMITS := Limits(20, MAX_HIERARCHY_DEPTH, 32768, 65536)
  const TASK_PLAN_VERSION := "ai.task-plan.v1"

  datatype PlanError = InvalidResponse | InvalidPayload

  // ----- field checks -----

  /** What Python's `str.strip()` removes. */
  predicate IsSpace(c: char) {
    '\t' <= c <= '\r' || '\U{1c}' <= c <= ' ' || c == '\U{85}' || c == '\U{a0}' || c == '\U{1680}'
    || '\U{2000}' <= c <= '\U{200a}' || c == '\U{2028}' || c == '\U{2029}' || c == '\U{202f}'
    || c == '\U{205f}' || c == '\U{3000}'
  }

  predicate NotBlank(s: string) { exists i :: 0 <= i < |s| && !IsSpace(s[i]) }

  predicate IsText(s: string, maximum: nat, required: bool) {
    |s| <= maximum && '\0' !in s && (required ==> NotBlank(s))
  }

  function Text(v: Json, maximum: nat, required: bool): Option<string> {
    if v.JString? && IsText(v.s, maximum, required) then Some(v.s) else None
  }

  predicate IsLocalRef(s: string) {
    6 <= |s| <= 8 && s[..5] == "item_" && '1' <= s[5] <= '9' && AllDigits(s[6..])
  }

  function ParentRefOf(v: Json): Option<Option<string>> {
    if v.JNull? then Some(None)
    else if v.JString? && IsLocalRef(v.s) then Some(Some(v.s))
    else None
  }

  function PriorityText(p: Priority): string {
    match p
    case Low => "LOW"
    case Medium => "MEDIUM"
    case High => "HIGH"
    case Urgent => "URGENT"
  }

  function PriorityOf(v: Json): Option<Priority> {
    if v == JString("LOW") then Some(Low)
    else if v == JString("MEDIUM") then Some(Medium)
    else if v == JString("HIGH") then Some(High)
    else if v == JString("URGENT") then Some(Urgent)
    else None
  }

  function DeadlineOf(v: Json): Option<Option<UtcTime>> {
    match v
    case JNull => Some(None)
    case JString(s) => (match ParseDeadline(s) case None => None case Some(t) => Some(Some(t)))
    case _ => None
  }

  /** An object with exactly these members. */
  predicate HasFields(v: Json, names: set<Name>) { v.JObject? && v.fields.Keys == names }

  const NODE_FIELDS := {Name.LocalRef, Name.ParentRef, Title, Description, Name.PriorityKey, ProposedDeadline, Notes}
  const PLAN_FIELDS := {ContractVersion, Tasks, Assumptions, Warnings}

  /** A node from its members, with the references, priority and deadline already checked. */
  function BuildNode(reference: Json, parent: Option<Option<string>>, title: Json, description: Json,
                     priority: Option<Priority>, deadline: Option<Option<UtcTime>>, notes: Json): Option<TaskNode> {
    if reference.JString? && IsLocalRef(reference.s) && parent.Some?
       && Text(title, 255, true).Some? && Text(description, 2000, false).Some?
       && priority.Some? && deadline.Some? && Text(notes, 500, false).Some?
    then Some(TaskNode(reference.s, parent.value, title.s, description.s, priority.value, deadline.value, notes.s))
    else None
  }

  function DecodeNode(v: Json): Option<TaskNode> {
    if HasFields(v, NODE_FIELDS)
    then BuildNode(v.fields[Name.LocalRef], ParentRefOf(v.fields[Name.ParentRef]), v.fields[Title],
                   v.fields[Description], PriorityOf(v.fields[PriorityKey]),
                   DeadlineOf(v.fields[ProposedDeadline]), v.fields[Notes])
    else None
  }

  function DecodeNodes(items: seq<Json>): (r: Option<seq<TaskNode>>)
    ensures r.Some? ==> |r.value| == |items|
                        && forall i :: 0 <= i < |items| ==> DecodeNode(items[i]) == Some(r.value[i])
  {
    if forall i :: 0 <= i < |items| ==> DecodeNode(items[i]).Some?
    then Some(seq(|items|, i requires 0 <= i < |items| && DecodeNode(items[i]).Some? => DecodeNode(items[i]).value))
    else None
  }

  predicate IsStrings(v: Json) {
    v.JArray? && |v.items| <= 10 && forall i :: 0 <= i < |v.items| ==> Text(v.items[i], 300, false).Some?
  }

  function Strings(v: Json): seq<string>
    requires IsStrings(v)
  {
    seq(|v.items|, i requires 0 <= i < |v.items| => v.items[i].s)
  }

  // ----- references between nodes -----

  predicate UniqueRefs(nodes: seq<TaskNode>) {
    forall i, j :: 0 <= i < j < |nodes| ==> nodes[i].localRef != nodes[j].localRef
  }

  /** The `refs` dictionary after these nodes. */
  function NodesByRef(nodes: seq<TaskNode>): map<string, TaskNode> {
    if nodes == [] then map[]
    else NodesByRef(nodes[..|nodes| - 1])[nodes[|nodes| - 1].localRef := nodes[|nodes| - 1]]
  }

  function PlanParents(nodes: seq<TaskNode>): Parents<string> {
    map r | r in NodesByRef(nodes) :: NodesByRef(nodes)[r].parentRef
  }

  lemma {:induction false} NodesByRefKeys(nodes: seq<TaskNode>)
    ensures forall r :: r in NodesByRef(nodes) <==> exists i :: 0 <= i < |nodes| && nodes[i].localRef == r
    ensures forall r :: r in NodesByRef(nodes) ==> NodesByRef(nodes)[r] in nodes && NodesByRef(nodes)[r].localRef == r
    ensures UniqueRefs(nodes) ==> forall i :: 0 <= i < |nodes| ==>
                                    nodes[i].localRef in NodesByRef(nodes)
                                        && NodesByRef(nodes)[nodes[i].localRef] == nodes[i]
  {
    forall r
      ensures r in NodesByRef(nodes) <==> exists i :: 0 <= i < |nodes| && nodes[i].localRef == r
      ensures r in NodesByRef(nodes) ==> NodesByRef(nodes)[r] in nodes && NodesByRef(nodes)[r].localRef == r
    {
      KeyOfSome(nodes, r);
      if i :| 0 <= i < |nodes| && nodes[i].localRef == r { KeyOfNode(nodes, i); }
    }
    forall i | 0 <= i < |nodes| && UniqueRefs(nodes)
      ensures nodes[i].localRef in NodesByRef(nodes) && NodesByRef(nodes)[nodes[i].localRef] == nodes[i]
    {
      KeyOfNode(nodes, i);
      KeyOfSome(nodes, nodes[i].localRef);
    }
  }

  lemma {:induction false} KeyOfSome(nodes: seq<TaskNode>, r: string)
    ensures r in NodesByRef(nodes) ==>
              exists i :: 0 <= i < |nodes| && nodes[i].localRef == r && NodesByRef(nodes)[r] == nodes[i]
  {
    if nodes != [] && r in NodesByRef(nodes) {
      var front := nodes[..|nodes| - 1];
      KeyOfSome(front, r);
      if nodes[|nodes| - 1].localRef != r {
        var i :| 0 <= i < |front| && front[i].localRef == r && NodesByRef(front)[r] == front[i];
        assert nodes[i] == front[i];
      }
    }
  }

  lemma {:induction false} KeyOfNode(nodes: seq<TaskNode>, i: nat)
    requires i < |nodes|
    ensures nodes[i].localRef in NodesByRef(nodes)
  {
    if i < |nodes| - 1 { KeyOfNode(nodes[..|nodes| - 1], i); }
  }

  /** Parents come from the plan and no node has more than `depth` edges above it. */
  predicate IsForest(nodes: seq<TaskNode>, depth: nat) {
    Closed(PlanParents(nodes)) && Within(PlanParents(nodes), depth)
  }

  // ----- parsing -----

  /** The checks before the items are looked at. */
  predicate HasPlanShape(data: Json, limits: Limits) {
    HasFields(data, PLAN_FIELDS) && data.fields[ContractVersion] == JString(TASK_PLAN_VERSION)
    && data.fields[Tasks].JArray? && 1 <= |data.fields[Tasks].items| <= limits.maxTasks
  }

  /** The plan a response stands for: every member well formed and the nodes a bounded forest. */
  function ParsePlan(data: Json, limits: Limits): Result<Plan, PlanError> {
    if !HasPlanShape(data, limits) then Err(InvalidResponse)
    else
      match DecodeNodes(data.fields[Tasks].items)
      case None => Err(InvalidResponse)
      case Some(nodes) =>
        if UniqueRefs(nodes) && IsForest(nodes, limits.maxDepth)
           && IsStrings(data.fields[Assumptions]) && IsStrings(data.fields[Warnings])
        then Ok(Plan(nodes, Strings(data.fields[Assumptions]), Strings(data.fields[Warnings])))
        else Err(InvalidResponse)
  }

  /** The first pass: decode each item and refuse a repeated reference. */
  method CollectNodes(items: seq<Json>) returns (nodes: seq<TaskNode>, refs: map<string, TaskNode>, ok: bool)
    ensures ok <==> DecodeNodes(items).Some? && UniqueRefs(DecodeNodes(items).value)
    ensures ok ==> nodes == DecodeNodes(items).value && refs == NodesByRef(nodes)
  {
    nodes, refs, ok := [], map[], true;
    for i := 0 to |items|
      invariant ok && DecodeNodes(items[..i]) == Some(nodes)
      invariant refs == NodesByRef(nodes) && UniqueRefs(nodes)
    {
      DecodeStep(items, i, nodes);
      match DecodeNode(items[i]) {
        case None =>
          ok := false;
          return;
        case Some(node) =>
          RefStep(nodes, node);
          if node.localRef in refs {
            if DecodeNodes(items).Some? { RepeatedRef(items, nodes, node, i); }
            ok := false;
            return;
          }
          nodes := nodes + [node];
          refs := refs[node.localRef := node];
      }
    }
    assert items[..|items|] == items;
  }

  /** One walk from a node to its root, refusing a repeated, missing or too deep ancestor. A walk
      that ends proves its chain; one that is refused proves the nodes are no bounded forest. */
  method WalkToRoot(nodes: seq<TaskNode>, refs: map<string, TaskNode>, start: nat, maxDepth: nat) returns (ok: bool)
    requires start < |nodes| && UniqueRefs(nodes) && refs == NodesByRef(nodes)
    ensures ok ==> ChainEnds(nodes, start, maxDepth)
    ensures !ok ==> !IsForest(nodes, maxDepth)
  {
    ghost var parents := PlanParents(nodes);
    NodesByRefKeys(nodes);
    var visited: set<string> := {};
    var current := nodes[start];
    var depth := 0;
    ghost var root := current.localRef;
    while current.parentRef.Some?
      invariant depth <= maxDepth
      invariant current.localRef in refs && refs[current.localRef] == current
      invariant Up(parents, root, depth) == Some(current.localRef)
      invariant forall r :: r in visited ==> exists k: nat :: k < depth && Up(parents, root, k) == Some(r)
      invariant depth > 0 ==> nodes[start].parentRef.Some? && nodes[start].parentRef.value in refs
      decreases maxDepth - depth
    {
      OneStepUp(parents, root, depth, current.localRef);
      if current.localRef in visited {
        ghost var k: nat :| k < depth && Up(parents, root, k) == Some(current.localRef);
        UpSplit(parents, root, k, depth - k);
        CycleNeverEnds(parents, current.localRef, depth - k, maxDepth + 1);
        return false;
      }
      if current.parentRef.value !in refs {
        assert current.localRef in parents && parents[current.localRef].value !in parents;
        return false;
      }
      visited := visited + {current.localRef};
      current := refs[current.parentRef.value];
      depth := depth + 1;
      if depth > maxDepth {
        assert root in parents && Up(parents, root, maxDepth + 1).Some?;
        return false;
      }
    }
    OneStepUp(parents, root, depth, current.localRef);
    UpEnds(parents, root, depth + 1, maxDepth + 1);
    return true;
  }

  /** The second pass: every node's walk ends, which is the same as a bounded forest. */
  method WalkAll(nodes: seq<TaskNode>, refs: map<string, TaskNode>, maxDepth: nat) returns (ok: bool)
    requires UniqueRefs(nodes) && refs == NodesByRef(nodes)
    ensures ok <==> IsForest(nodes, maxDepth)
  {
    for i := 0 to |nodes|
      invariant forall j :: 0 <= j < i ==> ChainEnds(nodes, j, maxDepth)
    {
      ok := WalkToRoot(nodes, refs, i, maxDepth);
      if !ok {
        return;
      }
    }
    ChainsMakeForest(nodes, maxDepth);
    ok := true;
  }

  /** The parser as written: one pass that fills `nodes` and `refs`, then one walk per node. */
  method ParseTaskPlan(data: Json, limits: Limits) returns (r: Result<Plan, PlanError>)
    ensures r == ParsePlan(data, limits)
  {
    if !HasPlanShape(data, limits) {
      return Err(InvalidResponse);
    }
    var nodes, refs, ok := CollectNodes(data.fields[Tasks].items);
    if !ok {
      return Err(InvalidResponse);
    }
    ok := WalkAll(nodes, refs, limits.maxDepth);
    if !ok {
      return Err(InvalidResponse);
    }
    if !IsStrings(data.fields[Assumptions]) || !IsStrings(data.fields[Warnings]) {
      return Err(InvalidResponse);
    }
    return Ok(Plan(nodes, Strings(data.fields[Assumptions]), Strings(data.fields[Warnings])));
  }

  lemma DecodeStep(items: seq<Json>, i: nat, nodes: seq<TaskNode>)
    requires i < |items| && DecodeNodes(items[..i]) == Some(nodes)
    ensures DecodeNode(items[i]).None? ==> DecodeNodes(items).None?
    ensures DecodeNode(items[i]).Some? ==> DecodeNodes(items[..i + 1]) == Some(nodes + [DecodeNode(items[i]).value])
  {
    forall j | 0 <= j < i ensures items[..i][j] == items[j] && DecodeNode(items[j]) == Some(nodes[j]) {}
    if DecodeNode(items[i]).Some? {
      assert DecodeNodes(items[..i + 1]).value == nodes + [DecodeNode(items[i]).value];
    }
  }

  lemma RefStep(nodes: seq<TaskNode>, node: TaskNode)
    requires UniqueRefs(nodes)
    ensures node.localRef in NodesByRef(nodes) <==> exists j :: 0 <= j < |nodes| && nodes[j].localRef == node.localRef
    ensures node.localRef !in NodesByRef(nodes) ==> UniqueRefs(nodes + [node])
    ensures NodesByRef(nodes + [node]) == NodesByRef(nodes)[node.localRef := node]
  {
    NodesByRefKeys(nodes);
    assert (nodes + [node])[..|nodes|] == nodes;
  }

  lemma RepeatedRef(items: seq<Json>, nodes: seq<TaskNode>, node: TaskNode, i: nat)
    requires i < |items| && DecodeNodes(items[..i]) == Some(nodes) && DecodeNode(items[i]) == Some(node)
    requires DecodeNodes(items).Some?
    requires exists j :: 0 <= j < |nodes| && nodes[j].localRef == node.localRef
    ensures !UniqueRefs(DecodeNodes(items).value)
  {
  }

  predicate ChainEnds(nodes: seq<TaskNode>, i: nat, depth: nat)
    requires i < |nodes|
  {
    Up(PlanParents(nodes), nodes[i].localRef, depth + 1).None?
    && (nodes[i].parentRef.Some? ==> nodes[i].parentRef.value in NodesByRef(nodes))
  }

  lemma ChainsMakeForest(nodes: seq<TaskNode>, depth: nat)
    requires UniqueRefs(nodes) && forall j :: 0 <= j < |nodes| ==> ChainEnds(nodes, j, depth)
    ensures IsForest(nodes, depth)
  {
    NodesByRefKeys(nodes);
    forall r | r in PlanParents(nodes)
      ensures Up(PlanParents(nodes), r, depth + 1).None?
      ensures PlanParents(nodes)[r].Some? ==> PlanParents(nodes)[r].value in PlanParents(nodes)
    {
      var j :| 0 <= j < |nodes| && nodes[j].localRef == r;
      assert ChainEnds(nodes, j, depth);
    }
  }

  // ----- the normalised form -----

  function DeadlineJson(deadline: Option<UtcTime>): Json {
    match deadline
    case None => JNull
    case Some(t) => JString(PrintDeadline(t))
  }

  function ParentJson(parent: Option<string>): Json {
    match parent
    case None => JNull
    case Some(p) => JString(p)
  }

  function NodeJson(n: TaskNode): Json {
    JObject(map[
      Name.LocalRef := JString(n.localRef),
      Name.ParentRef := ParentJson(n.parentRef),
      Title := JString(n.title),
      Description := JString(n.description),
      Name.PriorityKey := JString(PriorityText(n.priority)),
      ProposedDeadline := DeadlineJson(n.deadline),
      Notes := JString(n.notes)])
  }

  function NodesJson(nodes: seq<TaskNode>): (items: seq<Json>)
    ensures |items| == |nodes| && forall i :: 0 <= i < |nodes| ==> items[i] == NodeJson(nodes[i])
  {
    seq(|nodes|, i requires 0 <= i < |nodes| => NodeJson(nodes[i]))
  }

  function StringsJson(strings: seq<string>): Json {
    JArray(seq(|strings|, i requires 0 <= i < |strings| => JString(strings[i])))
  }

  function PlanJson(plan: Plan): Json {
    JObject(map[
      ContractVersion := JString(TASK_PLAN_VERSION),
      Tasks := JArray(NodesJson(plan.tasks)),
      Assumptions := StringsJson(plan.assumptions),
      Warnings := StringsJson(plan.warnings)])
  }

  /** What the parser guarantees of a plan, said without the JSON it came from. */
  predicate ValidNode(n: TaskNode) {
    IsLocalRef(n.localRef) && (n.parentRef.Some? ==> IsLocalRef(n.parentRef.value))
    && IsText(n.title, 255, true) && IsText(n.description, 2000, false) && IsText(n.notes, 500, false)
  }

  predicate ValidStrings(strings: seq<string>) {
    |strings| <= 10 && forall i :: 0 <= i < |strings| ==> IsText(strings[i], 300, false)
  }

  predicate ValidPlan(plan: Plan, limits: Limits) {
    1 <= |plan.tasks| <= limits.maxTasks && (forall i :: 0 <= i < |plan.tasks| ==> ValidNode(plan.tasks[i]))
    && ValidStrings(plan.assumptions) && ValidStrings(plan.warnings)
    && UniqueRefs(plan.tasks) && IsForest(plan.tasks, limits.maxDepth)
  }

  lemma PriorityRoundTrip(p: Priority)
    ensures PriorityOf(JString(PriorityText(p))) == Some(p)
  {
  }

  lemma DeadlineMemberRoundTrip(deadline: Option<UtcTime>)
    ensures DeadlineOf(DeadlineJson(deadline)) == Some(deadline)
  {
    if deadline.Some? { DeadlineRoundTrip(deadline.value); }
  }

  lemma NodeRoundTrip(n: TaskNode)
    requires ValidNode(n)
    ensures DecodeNode(NodeJson(n)) == Some(n)
  {
    DeadlineMemberRoundTrip(n.deadline);
    PriorityRoundTrip(n.priority);
    NodeMembers(n);
    ParentRoundTrip(n.parentRef);
    BuildRoundTrip(n);
  }

  lemma ParentRoundTrip(parent: Option<string>)
    requires parent.Some? ==> IsLocalRef(parent.value)
    ensures ParentRefOf(ParentJson(parent)) == Some(parent)
  {
  }

  lemma BuildRoundTrip(n: TaskNode)
    requires ValidNode(n)
    ensures BuildNode(JString(n.localRef), Some(n.parentRef), JString(n.title), JString(n.description),
                      Some(n.priority), Some(n.deadline), JString(n.notes)) == Some(n)
  {
  }

  lemma NodeMembers(n: TaskNode)
    ensures HasFields(NodeJson(n), NODE_FIELDS)
    ensures var f := NodeJson(n).fields;
            f[Name.LocalRef] == JString(n.localRef) && f[Name.ParentRef] == ParentJson(n.parentRef)
            && f[Title] == JString(n.title) && f[Description] == JString(n.description)
            && f[PriorityKey] == JString(PriorityText(n.priority)) && f[ProposedDeadline] == DeadlineJson(n.deadline)
            && f[Notes] == JString(n.notes)
  {
  }

  /** The parser's range is exactly the valid plans, and printing is its right inverse. */
  lemma PlanRoundTrip(plan: Plan, limits: Limits)
    ensures ParsePlan(PlanJson(plan), limits) == Ok(plan) <==> ValidPlan(plan, limits)
  {
    var data := PlanJson(plan);
    assert HasFields(data, PLAN_FIELDS);
    if ValidPlan(plan, limits) {
      forall i | 0 <= i < |plan.tasks| ensures DecodeNode(NodesJson(plan.tasks)[i]) == Some(plan.tasks[i]) {
        NodeRoundTrip(plan.tasks[i]);
      }
      assert DecodeNodes(NodesJson(plan.tasks)).value == plan.tasks;
      assert Strings(StringsJson(plan.assumptions)) == plan.assumptions;
      assert Strings(StringsJson(plan.warnings)) == plan.warnings;
    }
    if ParsePlan(data, limits) == Ok(plan) {
      ParsedIsValid(data, limits);
    }
  }

  lemma ParsedIsValid(data: Json, limits: Limits)
    requires ParsePlan(data, limits).Ok?
    ensures ValidPlan(ParsePlan(data, limits).value, limits)
  {
  }

  // ----- a submitted payload -----

  /** `size` measures the canonical text in bytes; nothing else about it is used. */
  function EditedPlan(payload: Json, size: Json -> nat): Result<(Plan, Json), PlanError> {
    if !payload.JObject? || size(payload) > LIMITS.maxRequestBytes || size(payload) > LIMITS.maxResponseBytes
    then Err(InvalidPayload)
    else
      match ParsePlan(payload, LIMITS)
      case Err(_) => Err(InvalidPayload)
      case Ok(plan) => Ok((plan, PlanJson(plan)))
  }

  /** Normalising is idempotent: submitting a normal form that fits gives it back, with its plan. */
  lemma NormalFormIsFixed(payload: Json, size: Json -> nat)
    requires EditedPlan(payload, size).Ok?
    ensures var (plan, normal) := EditedPlan(payload, size).value;
            EditedPlan(normal, size) == (if size(normal) <= LIMITS.maxRequestBytes then Ok((plan, normal))
                                         else Err(InvalidPayload))
  {
    ParsedIsValid(payload, LIMITS);
    PlanRoundTrip(EditedPlan(payload, size).value.0, LIMITS);
  }

  /** Different plans have different normal forms. */
  lemma NormalFormIdentifiesPlan(a: Plan, b: Plan)
    requires ValidPlan(a, LIMITS) && ValidPlan(b, LIMITS)
    ensures PlanJson(a) == PlanJson(b) <==> a == b
  {
    PlanRoundTrip(a, LIMITS);
    PlanRoundTrip(b, LIMITS);
  }

  /** Two node objects that agree except that their deadlines may spell one instant differently. */
  ghost predicate RespelledNode(a: Json, b: Json) {
    a == b
    || (a.JObject? && b.JObject? && ProposedDeadline in a.fields && ProposedDeadline in b.fields
        && a.fields - {ProposedDeadline} == b.fields - {ProposedDeadline}
        && a.fields[ProposedDeadline].JString? && b.fields[ProposedDeadline].JString?
        && SameMeaning(a.fields[ProposedDeadline].s, b.fields[ProposedDeadline].s))
  }

  ghost predicate Respelled(a: Json, b: Json) {
    a.JObject? && b.JObject? && Tasks in a.fields && Tasks in b.fields
    && a.fields - {Tasks} == b.fields - {Tasks}
    && a.fields[Tasks].JArray? && b.fields[Tasks].JArray?
    && |a.fields[Tasks].items| == |b.fields[Tasks].items|
    && forall i :: 0 <= i < |a.fields[Tasks].items| ==>
         RespelledNode(a.fields[Tasks].items[i], b.fields[Tasks].items[i])
  }

  lemma SameOtherFields(a: map<Name, Json>, b: map<Name, Json>, name: Name, other: Name)
    requires name in a && name in b && a - {name} == b - {name} && other != name
    ensures a.Keys == b.Keys && (other in a ==> a[other] == b[other])
  {
    assert a.Keys == (a - {name}).Keys + {name} && b.Keys == (b - {name}).Keys + {name};
    assert other in a ==> other in a - {name} && (a - {name})[other] == a[other];
    assert other in b ==> other in b - {name} && (b - {name})[other] == b[other];
  }

  lemma RespelledDeadlines(a: Json, b: Json)
    requires a.JString? && b.JString? && SameMeaning(a.s, b.s)
    ensures DeadlineOf(a) == DeadlineOf(b)
  {
    ParseKeepsMeaning(a.s, b.s);
  }

  lemma RespelledNodesDecodeAlike(a: Json, b: Json)
    requires RespelledNode(a, b)
    ensures DecodeNode(a) == DecodeNode(b)
  {
    if a != b {
      forall other | other in NODE_FIELDS && other != ProposedDeadline
        ensures a.fields.Keys == b.fields.Keys && (other in a.fields ==> a.fields[other] == b.fields[other])
      {
        SameOtherFields(a.fields, b.fields, ProposedDeadline, other);
      }
      SameOtherFields(a.fields, b.fields, ProposedDeadline, Title);
      RespelledDeadlines(a.fields[ProposedDeadline], b.fields[ProposedDeadline]);
      if HasFields(a, NODE_FIELDS) {
        assert Name.LocalRef in NODE_FIELDS && Name.ParentRef in NODE_FIELDS && Title in NODE_FIELDS;
        assert Description in NODE_FIELDS && Name.PriorityKey in NODE_FIELDS && Notes in NODE_FIELDS;
      }
    }
  }

  /** Payloads that differ only in how deadlines spell an instant parse alike, so where both fit
      they normalise to the same JSON. */
  lemma RespelledPayloadsNormaliseAlike(a: Json, b: Json, size: Json -> nat)
    requires Respelled(a, b)
    ensures ParsePlan(a, LIMITS) == ParsePlan(b, LIMITS)
    ensures size(a) <= LIMITS.maxRequestBytes && size(b) <= LIMITS.maxRequestBytes ==>
              EditedPlan(a, size) == EditedPlan(b, size)
  {
    var x, y := a.fields[Tasks].items, b.fields[Tasks].items;
    forall i | 0 <= i < |x| ensures DecodeNode(x[i]) == DecodeNode(y[i]) {
      RespelledNodesDecodeAlike(x[i], y[i]);
    }
    if DecodeNodes(x).Some? { assert DecodeNodes(x).value == DecodeNodes(y).value; }
    SameOtherFields(a.fields, b.fields, Tasks, ContractVersion);
    SameOtherFields(a.fields, b.fields, Tasks, Assumptions);
    SameOtherFields(a.fields, b.fields, Tasks, Warnings);
  }
}
