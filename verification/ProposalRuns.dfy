/** What every interleaving of generate, confirm and the other Task services keeps: each key names
    one operation, each proposal is generated once and confirmed at most once, and its Tasks are
    created exactly then. */
module ProposalRuns {
  import opened Prelude
  import opened Tenancy
  import opened TaskHierarchy
  import opened PlanContract
  import opened TaskWorkflow
  import opened WorkflowInvariants
  import opened PlanCompiler
  import opened AiProposals

  // ----- runs -----

  /** One committed transaction. The first transaction of a generation only reads, so any `Keep`
      may follow it at any distance; tenant rows and clock reads are whatever the call finds. */
  datatype Event =
    | KeepEvent(tenant: Tenant, g: GenerateCall, answer: Json, id: ProposalId, check: Time, show: Time, at: Time)
    | ConfirmEvent(tenant: Tenant, c: ConfirmCall, at: Time)
    | TaskEvent(request: Request)

  ghost predicate Next(m: Measure, ai: Ai, e: Event, next: Ai) {
    match e
    case KeepEvent(t, g, answer, id, check, show, at) =>
      (match Keep(ai, t, g, answer, m, id, check, show, at)
       case Ok((_, _, kept)) => next == kept
       case Err(_) => next == ai)
    case ConfirmEvent(t, c, at) => Confirms(ai, t, c, m, at, next)
    case TaskEvent(r) => next == ai.(work := Step(ai.work, r))
  }

  ghost predicate Reaches(m: Measure, from: Ai, events: seq<Event>, to: Ai)
    decreases |events|
  {
    if events == [] then from == to
    else exists mid :: Next(m, from, events[0], mid) && Reaches(m, mid, events[1..], to)
  }

  const NOTHING := Ai(map[], [], EMPTY)

  // ----- the invariant -----

  predicate SameKey(a: Operation, b: Operation) { a.scope == b.scope && a.kind == b.kind && a.key == b.key }

  predicate SameTarget(a: Operation, b: Operation) { a.proposal == b.proposal && a.kind == b.kind }

  ghost predicate OncePerKey(ops: seq<Operation>) {
    forall i, j :: 0 <= i < |ops| && 0 <= j < |ops| && SameKey(ops[i], ops[j]) ==> i == j
  }

  ghost predicate OncePerProposal(ops: seq<Operation>) {
    forall i, j :: 0 <= i < |ops| && 0 <= j < |ops| && SameTarget(ops[i], ops[j]) ==> i == j
  }

  predicate Recorded(ops: seq<Operation>, id: ProposalId, kind: OpKind) {
    exists i :: 0 <= i < |ops| && ops[i].proposal == id && ops[i].kind == kind
  }

  /** A confirm operation stands for the plan in its body: one Task per node of it. */
  predicate Fulfilled(p: Proposal, op: Operation) {
    p.status.Confirmed? && p.created.Some? && op.body.ConfirmBody? && op.body.proposal == op.proposal
    && op.body.revision == p.revision && op.body.confirmedScenario == p.scenario
    && ParsePlan(op.body.payload, LIMITS).Ok?
    && p.created.value.Keys == NodesByRef(ParsePlan(op.body.payload, LIMITS).value.tasks).Keys
  }

  predicate Belongs(proposals: map<ProposalId, Proposal>, op: Operation) {
    op.proposal in proposals && op.scope == proposals[op.proposal].scope
    && if op.kind.ConfirmOp? then Fulfilled(proposals[op.proposal], op)
       else op.body == GenerateBody(proposals[op.proposal].scenario)
  }

  ghost predicate OpsInv(proposals: map<ProposalId, Proposal>, ops: seq<Operation>) {
    OncePerKey(ops) && OncePerProposal(ops)
    && (forall i :: 0 <= i < |ops| ==> Belongs(proposals, ops[i]))
    && (forall id :: id in proposals ==> Recorded(ops, id, GenerateOp))
    && (forall id :: id in proposals && proposals[id].status.Confirmed? ==> Recorded(ops, id, ConfirmOp))
  }

  predicate Holds(proposals: map<ProposalId, Proposal>, id: ProposalId, task: TaskId) {
    id in proposals && proposals[id].created.Some? && task in proposals[id].created.value.Values
  }

  /** Every Task of a confirmed proposal exists, comes from one node, and belongs to no other proposal. */
  ghost predicate TasksInv(proposals: map<ProposalId, Proposal>, tasks: map<TaskId, Task>) {
    (forall id, x :: Holds(proposals, id, x) ==> x in tasks)
    && (forall a, b, x :: Holds(proposals, a, x) && Holds(proposals, b, x) ==> a == b)
    && (forall id :: id in proposals && proposals[id].created.Some? ==> Injective(proposals[id].created.value))
  }

  /** An open proposal shows the normal form of a valid plan. */
  predicate Offered(p: Proposal) {
    p.status.Available? ==>
      p.contract == TASK_PLAN_VERSION && p.payload.Some? && ParsePlan(p.payload.value, LIMITS).Ok?
      && PlanJson(ParsePlan(p.payload.value, LIMITS).value) == p.payload.value
  }

  ghost predicate RowsShaped(proposals: map<ProposalId, Proposal>) {
    forall id :: id in proposals ==>
      RowConstraints(proposals[id]) && Offered(proposals[id])
          && (proposals[id].status.Confirmed? ==> proposals[id].created.Some?)
  }

  ghost predicate AiInv(ai: Ai) {
    OpsInv(ai.proposals, ai.operations) && TasksInv(ai.proposals, ai.work.tasks) && RowsShaped(ai.proposals)
        && WorkInv(ai.work)
  }

  // ----- generating -----

  lemma OnceMore(ops: seq<Operation>, op: Operation, more: seq<Operation>)
    requires OncePerKey(ops) && OncePerProposal(ops) && more == ops + [op]
    requires forall i :: 0 <= i < |ops| ==> !SameKey(ops[i], op) && !SameTarget(ops[i], op)
    ensures OncePerKey(more) && OncePerProposal(more)
  {
  }

  lemma RecordedMore(ops: seq<Operation>, op: Operation, more: seq<Operation>, id: ProposalId, kind: OpKind)
    requires more == ops + [op]
    ensures Recorded(ops, id, kind) ==> Recorded(more, id, kind)
    ensures Recorded(more, op.proposal, op.kind)
  {
    if Recorded(ops, id, kind) {
      var i :| 0 <= i < |ops| && ops[i].proposal == id && ops[i].kind == kind;
      assert more[i] == ops[i];
    }
    assert more[|ops|] == op;
  }

  lemma OpsAppend(proposals: map<ProposalId, Proposal>, ops: seq<Operation>, op: Operation, row: Proposal,
                  now: map<ProposalId, Proposal>, more: seq<Operation>)
    requires OpsInv(proposals, ops) && more == ops + [op] && now == proposals[op.proposal := row] && Belongs(now, op)
    requires forall i :: 0 <= i < |ops| ==> Belongs(now, ops[i]) && !SameKey(ops[i], op) && !SameTarget(ops[i], op)
    requires if op.kind.GenerateOp? then row.status.Available? else op.proposal in proposals
    ensures OpsInv(now, more)
  {
    OnceMore(ops, op, more);
    forall id | id in now
      ensures Recorded(more, id, GenerateOp) && (now[id].status.Confirmed? ==> Recorded(more, id, ConfirmOp))
    {
      RecordedMore(ops, op, more, id, GenerateOp);
      RecordedMore(ops, op, more, id, ConfirmOp);
    }
  }

  lemma KeptOps(proposals: map<ProposalId, Proposal>, ops: seq<Operation>, op: Operation, row: Proposal,
                now: map<ProposalId, Proposal>)
    requires OpsInv(proposals, ops) && op.proposal !in proposals && now == proposals[op.proposal := row]
    requires op.kind.GenerateOp? && op.scope == row.scope && op.body == GenerateBody(row.scenario)
             && row.status.Available?
    requires FindOp(ops, op.scope, op.kind, op.key).None?
    ensures OpsInv(now, ops + [op])
  {
    forall i | 0 <= i < |ops| ensures Belongs(now, ops[i]) && !SameKey(ops[i], op) && !SameTarget(ops[i], op) {
      assert Belongs(proposals, ops[i]) && !Names(ops[i], op.scope, op.kind, op.key);
    }
    OpsAppend(proposals, ops, op, row, now, ops + [op]);
  }

  lemma KeptTasks(proposals: map<ProposalId, Proposal>, tasks: map<TaskId, Task>, id: ProposalId, row: Proposal,
                  now: map<ProposalId, Proposal>)
    requires TasksInv(proposals, tasks) && id !in proposals && now == proposals[id := row] && row.created.None?
    ensures TasksInv(now, tasks)
  {
    forall a, x | Holds(now, a, x) ensures Holds(proposals, a, x) {}
  }

  /** What a stored generation writes: one new row and one new operation, or nothing. */
  lemma KeepMeans(ai: Ai, t: Tenant, g: GenerateCall, answer: Json, m: Measure, id: ProposalId, check: Time, show: Time,
                  now: Time)
      returns (plan: Plan)
    requires Keep(ai, t, g, answer, m, id, check, show, now).Ok?
    ensures var next := Keep(ai, t, g, answer, m, id, check, show, now).value.2;
            next == ai
            || (id !in ai.proposals && g.key.Some? && ValidPlan(plan, LIMITS)
                && FindOp(ai.operations, g.scope, GenerateOp, g.key.value).None?
                && next == ai.(proposals := ai.proposals[id := Offer(g, plan, now)],
                               operations :=
                                   ai.operations + [Operation(g.scope, GenerateOp, g.key.value,
                                                              GenerateBody(g.scenario), id)]))
  {
    plan := ParsePlan(answer, LIMITS).value;
    ParsedIsValid(answer, LIMITS);
  }

  lemma KeepKeeps(ai: Ai, t: Tenant, g: GenerateCall, answer: Json, m: Measure, id: ProposalId, check: Time, show: Time,
                  now: Time)
    requires AiInv(ai) && Keep(ai, t, g, answer, m, id, check, show, now).Ok?
    ensures AiInv(Keep(ai, t, g, answer, m, id, check, show, now).value.2)
  {
    var plan := KeepMeans(ai, t, g, answer, m, id, check, show, now);
    var next := Keep(ai, t, g, answer, m, id, check, show, now).value.2;
    if next != ai {
      var row := Offer(g, plan, now);
      PlanRoundTrip(plan, LIMITS);
      KeptOps(ai.proposals, ai.operations, Operation(g.scope, GenerateOp, g.key.value, GenerateBody(g.scenario), id),
              row, next.proposals);
      KeptTasks(ai.proposals, ai.work.tasks, id, row, next.proposals);
      KeptRows(ai.proposals, id, row, next.proposals);
    }
  }

  lemma KeptRows(proposals: map<ProposalId, Proposal>, id: ProposalId, row: Proposal, now: map<ProposalId, Proposal>)
    requires RowsShaped(proposals) && now == proposals[id := row]
    requires RowConstraints(row) && Offered(row) && (row.status.Confirmed? ==> row.created.Some?)
    ensures RowsShaped(now)
  {
  }

  // ----- confirming -----

  lemma NewTasks(nodes: seq<TaskNode>, s: Scope, created: Created, before: map<TaskId, Task>, now: map<TaskId, Task>,
                 x: TaskId)
    requires Compiled(nodes, s, created, before, now)
    ensures x in created.Values ==> x !in before && x in now
    ensures x in before ==> x in now
  {
  }

  lemma SettledTasks(proposals: map<ProposalId, Proposal>, before: map<TaskId, Task>, id: ProposalId, created: Created,
                     row: Proposal, now: map<ProposalId, Proposal>, tasks: map<TaskId, Task>)
    requires TasksInv(proposals, before) && id in proposals && proposals[id].created.None?
    requires row.created == Some(created) && Injective(created) && now == proposals[id := row]
    requires forall x :: x in before ==> x in tasks
    requires forall x :: x in created.Values ==> x in tasks && x !in before
    ensures TasksInv(now, tasks)
  {
    forall a, x | Holds(now, a, x) ensures if a == id then x in created.Values else Holds(proposals, a, x) {}
  }

  /** An open proposal has no confirm operation, and its other operations do not mind the change. */
  lemma BelongsStays(proposals: map<ProposalId, Proposal>, op: Operation, id: ProposalId, row: Proposal,
                     now: map<ProposalId, Proposal>)
    requires Belongs(proposals, op) && id in proposals && proposals[id].status.Available?
    requires row.scope == proposals[id].scope && row.scenario == proposals[id].scenario && now == proposals[id := row]
    ensures Belongs(now, op) && !(op.proposal == id && op.kind.ConfirmOp?)
  {
  }

  lemma SettledOps(proposals: map<ProposalId, Proposal>, ops: seq<Operation>, op: Operation, row: Proposal,
                   now: map<ProposalId, Proposal>)
    requires OpsInv(proposals, ops) && op.proposal in proposals && proposals[op.proposal].status.Available?
    requires row.scope == proposals[op.proposal].scope && row.scenario == proposals[op.proposal].scenario
    requires op.kind.ConfirmOp? && op.scope == row.scope && now == proposals[op.proposal := row] && Fulfilled(row, op)
    requires FindOp(ops, op.scope, op.kind, op.key).None?
    ensures OpsInv(now, ops + [op])
  {
    forall i | 0 <= i < |ops| ensures Belongs(now, ops[i]) && !SameKey(ops[i], op) && !SameTarget(ops[i], op) {
      BelongsStays(proposals, ops[i], op.proposal, row, now);
      assert !Names(ops[i], op.scope, op.kind, op.key);
    }
    OpsAppend(proposals, ops, op, row, now, ops + [op]);
  }

  /** What a go-ahead rests on: the plan is the one submitted. */
  lemma ProceedMeans(ai: Ai, t: Tenant, c: ConfirmCall, m: Measure, now: Time)
    requires Judge(ai, t, c, m, now).Proceed?
    ensures c.key.Some? && c.proposal.Some? && Held(ai, c.scope, c.proposal.value)
    ensures var p := ai.proposals[c.proposal.value];
            p.status.Available? && p.createdAt <= now && p.revision == c.revision
            && FindOp(ai.operations, c.scope, ConfirmOp, c.key.value).None?
    ensures var v := Judge(ai, t, c, m, now);
            ValidPlan(v.plan, LIMITS) && ParsePlan(c.payload, LIMITS) == Ok(v.plan)
            && v.body
               == ConfirmBody(c.proposal.value, c.revision, PlanJson(v.plan), ai.proposals[c.proposal.value].scenario)
  {
    ParsedIsValid(c.payload, LIMITS);
  }

  lemma ConfirmedInv(ai: Ai, next: Ai, id: ProposalId, key: Key, plan: Plan, body: Body, now: Time)
    requires AiInv(ai) && ConfirmWrites(ai, next, id, key, plan, body, now) && ValidPlan(plan, LIMITS)
    requires ai.proposals[id].status.Available? && ai.proposals[id].createdAt <= now
    requires FindOp(ai.operations, ai.proposals[id].scope, ConfirmOp, key).None?
    requires body == ConfirmBody(id, ai.proposals[id].revision, PlanJson(plan), ai.proposals[id].scenario)
    ensures AiInv(next)
  {
    var created := next.proposals[id].created.value;
    var row := Settle(ai.proposals[id], created, now);
    PlanRoundTrip(plan, LIMITS);
    SettledOps(ai.proposals, ai.operations, Operation(ai.proposals[id].scope, ConfirmOp, key, body, id), row,
               next.proposals);
    forall x ensures (x in ai.work.tasks ==> x in next.work.tasks)
                     && (x in created.Values ==> x in next.work.tasks && x !in ai.work.tasks) {
      NewTasks(plan.tasks, ai.proposals[id].scope, created, ai.work.tasks, next.work.tasks, x);
    }
    SettledTasks(ai.proposals, ai.work.tasks, id, created, row, next.proposals, next.work.tasks);
    KeptRows(ai.proposals, id, row, next.proposals);
    CreatesKeep(ai.work, next.work, |plan.tasks|);
  }

  lemma ConfirmKeeps(ai: Ai, t: Tenant, c: ConfirmCall, m: Measure, now: Time, next: Ai)
    requires AiInv(ai) && Confirms(ai, t, c, m, now, next)
    ensures AiInv(next)
  {
    var v := Judge(ai, t, c, m, now);
    if v.Proceed? {
      ProceedMeans(ai, t, c, m, now);
      ConfirmedInv(ai, next, c.proposal.value, c.key.value, v.plan, v.body, now);
    }
  }

  lemma {:induction false} TasksStay(db: WorkDb, r: Request, task: TaskId)
    requires task in db.tasks
    ensures task in Step(db, r).tasks
  {
    CallMeans(db, r);
  }

  lemma NextKeeps(m: Measure, ai: Ai, e: Event, next: Ai)
    requires AiInv(ai) && Next(m, ai, e, next)
    ensures AiInv(next)
  {
    match e
    case KeepEvent(t, g, answer, id, check, show, at) =>
      if Keep(ai, t, g, answer, m, id, check, show, at).Ok? { KeepKeeps(ai, t, g, answer, m, id, check, show, at); }
    case ConfirmEvent(t, c, at) => ConfirmKeeps(ai, t, c, m, at, next);
    case TaskEvent(r) =>
      StepKeeps(ai.work, r);
      forall x | x in ai.work.tasks ensures x in next.work.tasks { TasksStay(ai.work, r, x); }
  }

  /** Every run keeps the invariant, from any state that satisfies it. */
  lemma {:induction false} EveryRunKeepsProposals(m: Measure, from: Ai, events: seq<Event>, to: Ai)
    requires AiInv(from) && Reaches(m, from, events, to)
    ensures AiInv(to)
    decreases |events|
  {
    if events != [] {
      var mid :| Next(m, from, events[0], mid) && Reaches(m, mid, events[1..], to);
      NextKeeps(m, from, events[0], mid);
      EveryRunKeepsProposals(m, mid, events[1..], to);
    }
  }

  lemma NothingIsFine()
    ensures AiInv(NOTHING)
  {
  }

  // ----- what stays -----

  /** A proposal keeps its scope, scenario and offer; a confirmed one never changes again. */
  ghost predicate RowsStay(proposals: map<ProposalId, Proposal>, now: map<ProposalId, Proposal>) {
    forall id :: id in proposals ==>
      id in now && now[id].scope == proposals[id].scope && now[id].scenario == proposals[id].scenario
      && now[id].expiresAt == proposals[id].expiresAt
      && (proposals[id].status.Confirmed? ==> now[id] == proposals[id])
  }

  /** Operations are only appended, Tasks stay, and so do proposals. */
  ghost predicate Later(ai: Ai, next: Ai) {
    ai.operations <= next.operations && RowsStay(ai.proposals, next.proposals)
    && (forall x :: x in ai.work.tasks ==> x in next.work.tasks)
  }

  lemma LaterTwice(a: Ai, b: Ai, c: Ai)
    requires Later(a, b) && Later(b, c)
    ensures Later(a, c)
  {
  }

  lemma SettledStays(proposals: map<ProposalId, Proposal>, id: ProposalId, created: Created, at: Time,
                     now: map<ProposalId, Proposal>)
    requires id in proposals && proposals[id].status.Available?
             && now == proposals[id := Settle(proposals[id], created, at)]
    ensures RowsStay(proposals, now)
  {
  }

  lemma ConfirmIsLater(ai: Ai, next: Ai, id: ProposalId, key: Key, plan: Plan, body: Body, now: Time)
    requires ConfirmWrites(ai, next, id, key, plan, body, now) && ai.proposals[id].status.Available?
    ensures Later(ai, next)
  {
    var created := next.proposals[id].created.value;
    forall x | x in ai.work.tasks ensures x in next.work.tasks {
      NewTasks(plan.tasks, ai.proposals[id].scope, created, ai.work.tasks, next.work.tasks, x);
    }
    SettledStays(ai.proposals, id, created, now, next.proposals);
  }

  lemma NextIsLater(m: Measure, ai: Ai, e: Event, next: Ai)
    requires Next(m, ai, e, next)
    ensures Later(ai, next)
  {
    match e
    case KeepEvent(t, g, answer, id, check, show, at) =>
      if next != ai { var _ := KeepMeans(ai, t, g, answer, m, id, check, show, at); }
    case ConfirmEvent(t, c, at) =>
      var v := Judge(ai, t, c, m, at);
      if v.Proceed? {
        ProceedMeans(ai, t, c, m, at);
        ConfirmIsLater(ai, next, c.proposal.value, c.key.value, v.plan, v.body, at);
      }
    case TaskEvent(r) =>
      forall x | x in ai.work.tasks ensures x in next.work.tasks { TasksStay(ai.work, r, x); }
  }

  lemma {:induction false} RunsGoForward(m: Measure, from: Ai, events: seq<Event>, to: Ai)
    requires Reaches(m, from, events, to)
    ensures Later(from, to)
    decreases |events|
  {
    if events != [] {
      var mid :| Next(m, from, events[0], mid) && Reaches(m, mid, events[1..], to);
      NextIsLater(m, from, events[0], mid);
      RunsGoForward(m, mid, events[1..], to);
      LaterTwice(from, mid, to);
    }
  }

  // ----- replays -----

  lemma RowRepeats(ai: Ai, i: nat, c: ConfirmCall, m: Measure, now: Time, plan: Plan, body: Body)
    requires OncePerKey(ai.operations) && i < |ai.operations| && ai.operations[i].kind.ConfirmOp?
    requires c.key == Some(ai.operations[i].key) && c.scope == ai.operations[i].scope && c.proposal.Some?
    requires c.proposal.value in ai.proposals && m.body(body) <= LIMITS.maxRequestBytes
    requires var p := ai.proposals[c.proposal.value];
             c.proposal.value == ai.operations[i].proposal ==>
               p.status.Confirmed? && p.created.Some? && p.recoveryExpiresAt.Some? && p.payload.None?
    ensures var p := ai.proposals[c.proposal.value];
            JudgeRow(ai, c, m, now, plan, body)
            == (if c.proposal.value != ai.operations[i].proposal || body != ai.operations[i].body
                then Refuse(KeyConflict)
                else if now >= p.recoveryExpiresAt.value then Refuse(RecoveryOver)
                else Replay(p))
  {
  }

  lemma JudgedByRow(ai: Ai, t: Tenant, c: ConfirmCall, m: Measure, now: Time)
    requires c.confirmed && c.revision >= 1 && c.key.Some? && LockManager(t, c.scope).Ok?
             && EditedPlan(c.payload, m.json).Ok?
    requires c.proposal.Some? && Held(ai, c.scope, c.proposal.value)
    ensures var (plan, normal) := EditedPlan(c.payload, m.json).value;
            var body := ConfirmBody(c.proposal.value, c.revision, normal, ai.proposals[c.proposal.value].scenario);
            Judge(ai, t, c, m, now) == JudgeRow(ai, c, m, now, plan, body)
  {
  }

  /** What a confirm operation says about its proposal now, it says for ever. */
  lemma OpStays(m: Measure, ai: Ai, i: nat, events: seq<Event>, later: Ai)
    requires AiInv(ai) && i < |ai.operations| && Reaches(m, ai, events, later)
    ensures i < |later.operations| && later.operations[i] == ai.operations[i] && OncePerKey(later.operations)
    ensures var op := ai.operations[i];
            op.proposal in ai.proposals && op.proposal in later.proposals
            && later.proposals[op.proposal].scenario == ai.proposals[op.proposal].scenario
            && op.scope == later.proposals[op.proposal].scope
            && (op.kind.GenerateOp? ==> op.body == GenerateBody(ai.proposals[op.proposal].scenario))
            && (op.kind.ConfirmOp? ==>
                  later.proposals[op.proposal] == ai.proposals[op.proposal] && Fulfilled(ai.proposals[op.proposal], op)
                  && ai.proposals[op.proposal].recoveryExpiresAt.Some? && ai.proposals[op.proposal].payload.None?)
  {
    EveryRunKeepsProposals(m, ai, events, later);
    RunsGoForward(m, ai, events, later);
    assert Belongs(ai.proposals, ai.operations[i]);
    assert RowConstraints(ai.proposals[ai.operations[i].proposal]);
  }

  /** Once a proposal was confirmed under a key, asking again with that key answers, in every later
      state: with the same Task map while the recovery window lasts, and never after it; and if
      anything in the request differs, with a conflict. None of them writes. */
  lemma ConfirmReplays(m: Measure, ai: Ai, i: nat, events: seq<Event>, later: Ai, t: Tenant, c: ConfirmCall, now: Time)
    requires AiInv(ai) && i < |ai.operations| && ai.operations[i].kind.ConfirmOp? && Reaches(m, ai, events, later)
    requires c.confirmed && c.revision >= 1 && c.key == Some(ai.operations[i].key) && c.scope == ai.operations[i].scope
    requires LockManager(t, c.scope).Ok? && EditedPlan(c.payload, m.json).Ok?
    requires c.proposal.Some? && Held(later, c.scope, c.proposal.value)
    requires m.body(ConfirmBody(c.proposal.value, c.revision, EditedPlan(c.payload, m.json).value.1,
                                later.proposals[c.proposal.value].scenario)) <= LIMITS.maxRequestBytes
    ensures var op := ai.operations[i];
            op.body.ConfirmBody? && op.proposal in ai.proposals && ai.proposals[op.proposal].created.Some?
            && ai.proposals[op.proposal].recoveryExpiresAt.Some?
            && Judge(later, t, c, m, now)
               == (if c.proposal.value != op.proposal || c.revision != op.body.revision
                      || EditedPlan(c.payload, m.json).value.1 != op.body.payload then Refuse(KeyConflict)
                   else if now >= ai.proposals[op.proposal].recoveryExpiresAt.value then Refuse(RecoveryOver)
                   else Replay(ai.proposals[op.proposal]))
  {
    OpStays(m, ai, i, events, later);
    JudgedByRow(later, t, c, m, now);
    var (plan, normal) := EditedPlan(c.payload, m.json).value;
    var body := ConfirmBody(c.proposal.value, c.revision, normal, later.proposals[c.proposal.value].scenario);
    RowRepeats(later, i, c, m, now, plan, body);
  }

  /** A payload that respells its deadlines is the same request. */
  lemma RespelledConfirmIsTheSame(ai: Ai, t: Tenant, c: ConfirmCall, payload: Json, m: Measure, now: Time)
    requires Respelled(c.payload, payload)
    requires m.json(c.payload) <= LIMITS.maxRequestBytes && m.json(payload) <= LIMITS.maxRequestBytes
    ensures Judge(ai, t, c.(payload := payload), m, now) == Judge(ai, t, c, m, now)
  {
    RespelledPayloadsNormaliseAlike(c.payload, payload, m.json);
  }

  /** A confirmed proposal is never compiled again, by any key, in any later state. */
  lemma NeverConfirmedTwice(m: Measure, ai: Ai, events: seq<Event>, later: Ai, t: Tenant, c: ConfirmCall, now: Time)
    requires AiInv(ai) && Reaches(m, ai, events, later)
    requires c.proposal.Some? && c.proposal.value in ai.proposals && ai.proposals[c.proposal.value].status.Confirmed?
    ensures !Judge(later, t, c, m, now).Proceed?
  {
    RunsGoForward(m, ai, events, later);
    if Judge(later, t, c, m, now).Proceed? { ProceedMeans(later, t, c, m, now); }
  }

  lemma ReplayedShows(ai: Ai, i: nat, g: GenerateCall, key: Key, check: Time, show: Time)
    requires OncePerKey(ai.operations) && i < |ai.operations| && ai.operations[i].kind.GenerateOp?
    requires key == ai.operations[i].key && g.scope == ai.operations[i].scope
             && Held(ai, g.scope, ai.operations[i].proposal)
    ensures var r := Replayed(ai, g, key, check, show);
            var p := ai.proposals[ai.operations[i].proposal];
            r.Some? && (r.value.Ok? ==> (ai.operations[i].body == GenerateBody(g.scenario)
                                         && r.value.value.(payload := None) == p.(payload := None)))
  {
  }

  /** Once a generation key has a proposal, no first transaction lets the adapter be asked again. */
  lemma GenerateNeverAsksAgain(m: Measure, ai: Ai, i: nat, events: seq<Event>, later: Ai, t: Tenant, g: GenerateCall,
                               check: Time, show: Time)
    requires AiInv(ai) && i < |ai.operations| && ai.operations[i].kind.GenerateOp? && Reaches(m, ai, events, later)
    requires g.key == Some(ai.operations[i].key) && g.scope == ai.operations[i].scope
    ensures Ask(later, t, g, check, show) != Ok(None)
  {
    OpStays(m, ai, i, events, later);
    ReplayedShows(later, i, g, g.key.value, check, show);
  }

  /** A stored answer to a key that has one is that answer, and nothing is written. */
  lemma KeepRepeats(ai: Ai, t: Tenant, g: GenerateCall, answer: Json, m: Measure, id: ProposalId, check: Time,
                    show: Time, now: Time)
    requires g.key.Some? && Replayed(ai, g, g.key.value, check, show).Some?
    requires Keep(ai, t, g, answer, m, id, check, show, now).Ok?
    ensures Replayed(ai, g, g.key.value, check, show).value.Ok?
    ensures Keep(ai, t, g, answer, m, id, check, show, now).value
            == (Replayed(ai, g, g.key.value, check, show).value.value, true, ai)
  {
  }

  /** And a second transaction writes nothing and returns that proposal, but for a payload it may hide. */
  lemma GenerateReplays(m: Measure, ai: Ai, i: nat, events: seq<Event>, later: Ai, t: Tenant, g: GenerateCall,
                        answer: Json, id: ProposalId, check: Time, show: Time, now: Time)
    requires AiInv(ai) && i < |ai.operations| && ai.operations[i].kind.GenerateOp? && Reaches(m, ai, events, later)
    requires g.key == Some(ai.operations[i].key) && g.scope == ai.operations[i].scope
    requires Keep(later, t, g, answer, m, id, check, show, now).Ok?
    ensures var (shown, again, next) := Keep(later, t, g, answer, m, id, check, show, now).value;
            again && next == later && ai.operations[i].body == GenerateBody(g.scenario)
                && ai.operations[i].proposal in later.proposals
            && shown.(payload := None) == later.proposals[ai.operations[i].proposal].(payload := None)
  {
    OpStays(m, ai, i, events, later);
    ReplayedShows(later, i, g, g.key.value, check, show);
    KeepRepeats(later, t, g, answer, m, id, check, show, now);
  }

  // ----- confirming an offer as shown -----

  lemma ShownPlan(payload: Json, plan: Plan, m: Measure)
    requires ParsePlan(payload, LIMITS) == Ok(plan) && PlanJson(plan) == payload
    ensures EditedPlan(payload, m.json) == if m.json(payload) <= LIMITS.maxRequestBytes then Ok((plan, payload))
            else Err(InvalidPayload)
  {
  }

  lemma OpenRowProceeds(ai: Ai, c: ConfirmCall, m: Measure, now: Time, plan: Plan, body: Body)
    requires c.key.Some? && c.proposal.Some? && c.proposal.value in ai.proposals
    requires FindOp(ai.operations, c.scope, ConfirmOp, c.key.value).None?
    requires var p := ai.proposals[c.proposal.value];
             p.status.Available? && p.contract == TASK_PLAN_VERSION && p.payload.Some? && c.revision == p.revision
             && p.createdAt <= now < p.expiresAt <= p.payloadExpiresAt
    ensures JudgeRow(ai, c, m, now, plan, body).Proceed? <==> m.body(body) <= LIMITS.maxRequestBytes
  {
  }

  /** An offer that stands can be confirmed as it is shown, under a fresh key, exactly when its payload
      and the request built from it fit the request limit. */
  lemma OfferConfirmsAsShown(ai: Ai, t: Tenant, c: ConfirmCall, m: Measure, now: Time)
    requires AiInv(ai) && c.proposal.Some? && Held(ai, c.scope, c.proposal.value) && LockManager(t, c.scope).Ok?
    requires c.confirmed && c.key.Some? && FindOp(ai.operations, c.scope, ConfirmOp, c.key.value).None?
    requires var p := ai.proposals[c.proposal.value];
             p.status.Available? && p.payload == Some(c.payload) && p.revision == c.revision
                 && p.createdAt <= now < p.expiresAt
    ensures Judge(ai, t, c, m, now).Proceed? <==>
            m.json(c.payload) <= LIMITS.maxRequestBytes
            && m.body(ConfirmBody(c.proposal.value, c.revision, c.payload, ai.proposals[c.proposal.value].scenario))
               <= LIMITS.maxRequestBytes
  {
    var p := ai.proposals[c.proposal.value];
    assert Offered(p) && RowConstraints(p);
    var plan := ParsePlan(c.payload, LIMITS).value;
    ShownPlan(c.payload, plan, m);
    if m.json(c.payload) <= LIMITS.maxRequestBytes {
      JudgedByRow(ai, t, c, m, now);
      OpenRowProceeds(ai, c, m, now, plan, ConfirmBody(c.proposal.value, c.revision, c.payload, p.scenario));
    }
  }

  /** Generated answers may be twice as long as requests, so an offer is stored that nobody can ever
      confirm as it is shown. */
  lemma OversizedOfferIsStored(ai: Ai, t: Tenant, g: GenerateCall, answer: Json, m: Measure, id: ProposalId,
                               check: Time, show: Time, now: Time)
    requires !g.scenario.OtherScenario? && g.key.Some? && LockManager(t, g.scope).Ok? && id !in ai.proposals
    requires FindOp(ai.operations, g.scope, GenerateOp, g.key.value).None?
    requires m.json(answer) <= LIMITS.maxResponseBytes && ParsePlan(answer, LIMITS).Ok?
    requires m.json(PlanJson(ParsePlan(answer, LIMITS).value)) > LIMITS.maxRequestBytes
    ensures var r := Keep(ai, t, g, answer, m, id, check, show, now);
            r.Ok? && r.value.2.proposals[id].payload.Some?
            && forall later: Ai, tenant: Tenant, c: ConfirmCall, at: Time ::
                 c.payload == r.value.2.proposals[id].payload.value ==> !Judge(later, tenant, c, m, at).Proceed?
  {
    var payload := PlanJson(ParsePlan(answer, LIMITS).value);
    forall later: Ai, tenant: Tenant, c: ConfirmCall, at: Time | c.payload == payload
      ensures !Judge(later, tenant, c, m, at).Proceed? {
      assert EditedPlan(c.payload, m.json).Err?;
    }
  }
}
