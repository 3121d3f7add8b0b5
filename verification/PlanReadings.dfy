/** Which JSON values stand for which plan, as a relation that follows the documents and not the parser,
    and the proof that the parser decides exactly this relation. */
module PlanReadings {
  import opened Prelude
  import opened Ancestry
  import opened Calendar
  import opened DeadlineText
  import opened DeadlineSpellings
  import opened PlanContract

  /** `item_` and a number from 1 to 999. */
  ghost predicate NamesItem(s: string) {
    exists width: nat, k: nat :: InWidth(k, width) && 1 <= width <= 3 && s == "item_" + Pad(k, width)
  }

  predicate InWidth(k: nat, width: nat) { width > 0 && Pow10(width - 1) <= k < Pow10(width) }

  /** Text without a NUL character. */
  predicate Plain(s: string, maximum: nat) { |s| <= maximum && forall i :: 0 <= i < |s| ==> s[i] != '\0' }

  predicate Says(v: Json, s: string) { v == JString(s) }

  predicate SaysPriority(v: Json, p: Priority) {
    match p
    case Low => Says(v, "LOW")
    case Medium => Says(v, "MEDIUM")
    case High => Says(v, "HIGH")
    case Urgent => Says(v, "URGENT")
  }

  ghost predicate SaysDeadline(v: Json, deadline: Option<UtcTime>) {
    match deadline
    case None => v == JNull
    case Some(t) => v.JString? && Spells(v.s, t)
  }

  ghost predicate SaysParent(v: Json, parent: Option<string>) {
    match parent
    case None => v == JNull
    case Some(r) => Says(v, r) && NamesItem(r)
  }

  ghost predicate RendersNode(v: Json, n: TaskNode) {
    v.JObject?
    && v.fields.Keys
       == {Name.LocalRef, Name.ParentRef, Title, Description, Name.PriorityKey, ProposedDeadline, Notes}
    && Says(v.fields[Name.LocalRef], n.localRef) && NamesItem(n.localRef)
    && SaysParent(v.fields[Name.ParentRef], n.parentRef)
    && Says(v.fields[Title], n.title) && Plain(n.title, 255) && NotBlank(n.title)
    && Says(v.fields[Description], n.description) && Plain(n.description, 2000)
    && SaysPriority(v.fields[PriorityKey], n.priority)
    && SaysDeadline(v.fields[ProposedDeadline], n.deadline)
    && Says(v.fields[Notes], n.notes) && Plain(n.notes, 500)
  }

  predicate RendersLines(v: Json, lines: seq<string>) {
    v.JArray? && |v.items| == |lines| <= 10
    && forall i :: 0 <= i < |lines| ==> Says(v.items[i], lines[i]) && Plain(lines[i], 300)
  }

  /** References are unique, every parent is in the plan, and no node has more than three edges above it. */
  predicate WellNested(nodes: seq<TaskNode>) {
    (forall i, j :: 0 <= i < |nodes| && 0 <= j < |nodes| && nodes[i].localRef == nodes[j].localRef ==> i == j)
    && (forall i :: 0 <= i < |nodes| && nodes[i].parentRef.Some? ==> IsReference(nodes, nodes[i].parentRef.value))
    && forall i :: 0 <= i < |nodes| ==> Up(PlanParents(nodes), nodes[i].localRef, 4).None?
  }

  predicate IsReference(nodes: seq<TaskNode>, r: string) { exists j :: 0 <= j < |nodes| && nodes[j].localRef == r }

  ghost predicate RendersPlan(data: Json, plan: Plan) {
    data.JObject? && data.fields.Keys == {ContractVersion, Tasks, Assumptions, Warnings}
    && Says(data.fields[ContractVersion], "ai.task-plan.v1")
    && data.fields[Tasks].JArray? && |data.fields[Tasks].items| == |plan.tasks| && 1 <= |plan.tasks| <= 20
    && (forall i :: 0 <= i < |plan.tasks| ==> RendersNode(data.fields[Tasks].items[i], plan.tasks[i]))
    && RendersLines(data.fields[Assumptions], plan.assumptions) && RendersLines(data.fields[Warnings], plan.warnings)
    && WellNested(plan.tasks)
  }

  // ----- references -----

  lemma RefIsItem(s: string)
    ensures IsLocalRef(s) <==> NamesItem(s)
  {
    if IsLocalRef(s) {
      var digits := s[5..];
      PadOfToNat(digits);
      LeadingDigit(digits);
      assert s == "item_" + digits;
      assert InWidth(ToNat(digits), |digits|);
    }
    if NamesItem(s) {
      var width: nat, k: nat :| InWidth(k, width) && 1 <= width <= 3 && s == "item_" + Pad(k, width);
      PadRoundTrip(k, width);
      LeadingDigit(Pad(k, width));
      assert s[5..] == Pad(k, width) && s[..5] == "item_";
      assert s[6..] == Pad(k, width)[1..];
    }
  }

  /** The first digit is zero exactly when the number has fewer digits. */
  lemma LeadingDigit(s: string)
    requires 1 <= |s| <= 3 && AllDigits(s)
    ensures s[0] != '0' <==> ToNat(s) >= Pow10(|s| - 1)
  {
  }

  // ----- nodes -----

  lemma PriorityIs(v: Json, p: Priority)
    ensures PriorityOf(v) == Some(p) <==> SaysPriority(v, p)
  {
  }

  lemma DeadlineIs(v: Json, deadline: Option<UtcTime>)
    ensures DeadlineOf(v) == Some(deadline) <==> SaysDeadline(v, deadline)
  {
    if v.JString? && deadline.Some? { ParsedExactlyWhenSpelled(v.s, deadline.value); }
  }

  lemma ParentIs(v: Json, parent: Option<string>)
    ensures ParentRefOf(v) == Some(parent) <==> SaysParent(v, parent)
  {
    if v.JString? { RefIsItem(v.s); }
  }

  /** An item is decoded to a node exactly when it renders that node. */
  lemma DecodesExactly(v: Json, n: TaskNode)
    ensures DecodeNode(v) == Some(n) <==> RendersNode(v, n)
  {
    RefIsItem(n.localRef);
    if HasFields(v, NODE_FIELDS) {
      assert Name.LocalRef in NODE_FIELDS && Name.ParentRef in NODE_FIELDS && Title in NODE_FIELDS;
      assert Description in NODE_FIELDS && Name.PriorityKey in NODE_FIELDS && Notes in NODE_FIELDS;
      assert ProposedDeadline in NODE_FIELDS;
      ParentIs(v.fields[Name.ParentRef], n.parentRef);
      PriorityIs(v.fields[PriorityKey], n.priority);
      DeadlineIs(v.fields[ProposedDeadline], n.deadline);
      BuiltExactly(v.fields[Name.LocalRef], ParentRefOf(v.fields[Name.ParentRef]), v.fields[Title],
                   v.fields[Description], PriorityOf(v.fields[PriorityKey]), DeadlineOf(v.fields[ProposedDeadline]),
                   v.fields[Notes], n);
    }
  }

  lemma BuiltExactly(reference: Json, parent: Option<Option<string>>, title: Json, description: Json,
                     priority: Option<Priority>, deadline: Option<Option<UtcTime>>, notes: Json, n: TaskNode)
    ensures BuildNode(reference, parent, title, description, priority, deadline, notes) == Some(n)
            <==> Says(reference, n.localRef) && IsLocalRef(n.localRef) && parent == Some(n.parentRef)
                 && Says(title, n.title) && Plain(n.title, 255) && NotBlank(n.title)
                 && Says(description, n.description) && Plain(n.description, 2000)
                 && priority == Some(n.priority) && deadline == Some(n.deadline)
                 && Says(notes, n.notes) && Plain(n.notes, 500)
  {
  }

  // ----- plans -----

  lemma LinesExactly(v: Json, lines: seq<string>)
    ensures IsStrings(v) && Strings(v) == lines <==> RendersLines(v, lines)
  {
  }

  lemma NestedExactly(nodes: seq<TaskNode>)
    ensures UniqueRefs(nodes) && IsForest(nodes, 3) <==> WellNested(nodes)
  {
    NodesByRefKeys(nodes);
    if WellNested(nodes) {
      forall r | r in PlanParents(nodes)
        ensures Up(PlanParents(nodes), r, 4).None?
        ensures PlanParents(nodes)[r].Some? ==> PlanParents(nodes)[r].value in PlanParents(nodes)
      {
        var j :| 0 <= j < |nodes| && nodes[j].localRef == r;
        assert NodesByRef(nodes)[r] == nodes[j];
      }
    }
    if UniqueRefs(nodes) && IsForest(nodes, 3) {
      forall i | 0 <= i < |nodes|
        ensures Up(PlanParents(nodes), nodes[i].localRef, 4).None?
        ensures nodes[i].parentRef.Some? ==> IsReference(nodes, nodes[i].parentRef.value)
      {
        assert nodes[i].localRef in PlanParents(nodes) && PlanParents(nodes)[nodes[i].localRef] == nodes[i].parentRef;
      }
    }
  }

  lemma ItemsExactly(items: seq<Json>, nodes: seq<TaskNode>)
    ensures DecodeNodes(items) == Some(nodes)
            <==> |items| == |nodes| && forall i :: 0 <= i < |nodes| ==> RendersNode(items[i], nodes[i])
  {
    forall i | 0 <= i < |nodes| && i < |items|
      ensures DecodeNode(items[i]) == Some(nodes[i]) <==> RendersNode(items[i], nodes[i])
    {
      DecodesExactly(items[i], nodes[i]);
    }
    if |items| == |nodes| && forall i :: 0 <= i < |nodes| ==> RendersNode(items[i], nodes[i]) {
      assert DecodeNodes(items).Some? && DecodeNodes(items).value == nodes;
    }
  }

  /** A response is parsed to a plan if and only if it renders that plan. */
  lemma ParsesExactly(data: Json, plan: Plan)
    ensures ParsePlan(data, LIMITS) == Ok(plan) <==> RendersPlan(data, plan)
  {
    NestedExactly(plan.tasks);
    if HasPlanShape(data, LIMITS) {
      assert Tasks in PLAN_FIELDS && Assumptions in PLAN_FIELDS && Warnings in PLAN_FIELDS;
      ItemsExactly(data.fields[Tasks].items, plan.tasks);
      LinesExactly(data.fields[Assumptions], plan.assumptions);
      LinesExactly(data.fields[Warnings], plan.warnings);
    }
  }

  /** A submitted payload becomes its plan and the normal form of it, if it fits. */
  lemma EditedExactly(payload: Json, size: Json -> nat, plan: Plan, normal: Json)
    ensures EditedPlan(payload, size) == Ok((plan, normal))
            <==> size(payload) <= 32768 && RendersPlan(payload, plan) && normal == PlanJson(plan)
  {
    ParsesExactly(payload, plan);
  }

  /** The normal form renders its plan, and spells each deadline in UTC, with six fraction digits or none. */
  lemma NormalFormRenders(plan: Plan)
    requires ValidPlan(plan, LIMITS)
    ensures RendersPlan(PlanJson(plan), plan)
    ensures forall i :: 0 <= i < |plan.tasks| && plan.tasks[i].deadline.Some? ==>
              var t := plan.tasks[i].deadline.value;
              PlanJson(plan).fields[Tasks].items[i].fields[ProposedDeadline]
              == JString(Spelling(t, if t.micro == 0 then "" else Pad(t.micro, 6), Zulu))
  {
    PlanRoundTrip(plan, LIMITS);
    ParsesExactly(PlanJson(plan), plan);
    forall i | 0 <= i < |plan.tasks| && plan.tasks[i].deadline.Some?
      ensures PlanJson(plan).fields[Tasks].items[i].fields[ProposedDeadline]
              == JString(PrintDeadline(plan.tasks[i].deadline.value))
    {
      NodeMembers(plan.tasks[i]);
    }
  }
}
