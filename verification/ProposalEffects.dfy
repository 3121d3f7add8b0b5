/** When generating and confirming succeed, what they store and what they answer otherwise: the Tasks are
    those of the submitted payload, column by column, and the same request again answers with them. */
module ProposalEffects {
  import opened Prelude
  import opened Ancestry
  import opened Tenancy
  import opened Authority
  import opened TaskHierarchy
  import opened PlanContract
  import opened PlanReadings
  import opened TaskWorkflow
  import opened PlanCompiler
  import opened AiProposals
  import opened ProposalRuns

  const HALF_AN_HOUR: nat := 30 * 60 * 1_000_000
  const ONE_DAY: nat := 24 * 3600 * 1_000_000

  // ----- what a plan has become -----

  /** The Task of a node: its own title, description, priority and deadline, under the Task of its parent. */
  predicate IsTaskOf(row: Task, node: TaskNode, s: Scope, created: Created) {
    row.workspace == s.workspace && row.createdBy == s.actor && row.status == Pending
    && row.title == Strip(node.title) && row.description == Some(node.description)
    && row.priority == node.priority && row.deadline == node.deadline
    && match node.parentRef
       case None => row.parent == None
       case Some(p) => p in created && row.parent == Some(created[p])
  }

  /** Each node has its own new Task, and no other row is new or different. */
  ghost predicate TasksOf(nodes: seq<TaskNode>, s: Scope, created: Created, before: WorkDb, now: WorkDb) {
    (forall r :: r in created <==> IsReference(nodes, r))
    && (forall i :: 0 <= i < |nodes| ==>
          nodes[i].localRef in created && created[nodes[i].localRef] in now.tasks
          && created[nodes[i].localRef] !in before.tasks
          && IsTaskOf(now.tasks[created[nodes[i].localRef]], nodes[i], s, created))
    && (forall i, j :: 0 <= i < j < |nodes| && nodes[i].localRef in created && nodes[j].localRef in created ==>
          created[nodes[i].localRef] != created[nodes[j].localRef])
    && (forall x :: x in before.tasks ==> x in now.tasks && now.tasks[x] == before.tasks[x])
    && (forall x :: x in now.tasks && x !in before.tasks ==> x in created.Values)
    && now == before.(tasks := now.tasks, audit := now.audit)
    && before.audit <= now.audit && |now.audit| == |before.audit| + |nodes|
  }

  lemma BuiltMeans(before: WorkDb, now: WorkDb, s: Scope, plan: Plan, created: Created)
    requires Built(before, now, s, plan, created) && ValidPlan(plan, LIMITS)
    ensures TasksOf(plan.tasks, s, created, before, now)
  {
    NodesByRefKeys(plan.tasks);
    forall i | 0 <= i < |plan.tasks|
      ensures plan.tasks[i].localRef in created && created[plan.tasks[i].localRef] in now.tasks
              && created[plan.tasks[i].localRef] !in before.tasks
              && IsTaskOf(now.tasks[created[plan.tasks[i].localRef]], plan.tasks[i], s, created)
    {
      assert Placed(NodesByRef(plan.tasks), s, created, before.tasks, now.tasks, plan.tasks[i].localRef);
    }
  }

  // ----- confirming -----

  /** No confirmation used the key yet. */
  predicate FreshKey(ai: Ai, scope: Scope, kind: OpKind, key: Key) {
    forall i :: 0 <= i < |ai.operations| ==>
      !(ai.operations[i].scope == scope && ai.operations[i].kind == kind && ai.operations[i].key == key)
  }

  lemma FreshMeans(ai: Ai, scope: Scope, kind: OpKind, key: Key)
    ensures FreshKey(ai, scope, kind, key) <==> FindOp(ai.operations, scope, kind, key).None?
  {
  }

  function BodyOf(ai: Ai, c: ConfirmCall, plan: Plan): Body
    requires c.proposal.Some? && c.proposal.value in ai.proposals
  {
    ConfirmBody(c.proposal.value, c.revision, PlanJson(plan), ai.proposals[c.proposal.value].scenario)
  }

  /** The request is complete, within its limits, and reads as this plan. */
  ghost predicate Asks(c: ConfirmCall, m: Measure, plan: Plan) {
    c.confirmed && c.revision >= 1 && c.key.Some? && m.json(c.payload) <= 32768 && RendersPlan(c.payload, plan)
  }

  predicate Named(ai: Ai, c: ConfirmCall) {
    c.proposal.Some? && c.proposal.value in ai.proposals && ai.proposals[c.proposal.value].scope == c.scope
  }

  /** The proposal is open, is the revision asked about, and its offer stands. */
  predicate Stands(p: Proposal, revision: int, now: Time) {
    p.status == Available && p.revision == revision && p.createdAt <= now < p.expiresAt
  }

  /** What any row decides about a fresh key, reachable or not. */
  lemma AnyRow(ai: Ai, c: ConfirmCall, m: Measure, now: Time, plan: Plan, body: Body)
    requires c.key.Some? && c.proposal.Some? && c.proposal.value in ai.proposals
    requires FreshKey(ai, c.scope, ConfirmOp, c.key.value) && m.body(body) <= 32768
    ensures var p := ai.proposals[c.proposal.value];
            JudgeRow(ai, c, m, now, plan, body)
            == if p.status == Confirmed then Refuse(AlreadyConfirmed)
               else if p.revision != c.revision || p.contract != "ai.task-plan.v1" then Refuse(Stale)
               else if now >= p.expiresAt || now >= p.payloadExpiresAt || p.payload == None then Refuse(Expired)
               else if now < p.createdAt then Refuse(RejectedRow)
               else Proceed(plan, body)
  {
    FreshMeans(ai, c.scope, ConfirmOp, c.key.value);
  }

  /** In reachable rows the contract and the payload of an open offer decide nothing. */
  lemma FreshRow(ai: Ai, c: ConfirmCall, m: Measure, now: Time, plan: Plan, body: Body)
    requires RowsShaped(ai.proposals) && c.key.Some? && c.proposal.Some? && c.proposal.value in ai.proposals
    requires FreshKey(ai, c.scope, ConfirmOp, c.key.value) && m.body(body) <= 32768
    ensures var p := ai.proposals[c.proposal.value];
            JudgeRow(ai, c, m, now, plan, body) == if p.status == Confirmed then Refuse(AlreadyConfirmed)
                                                   else if p.revision != c.revision then Refuse(Stale)
                                                   else if now >= p.expiresAt then Refuse(Expired)
                                                   else if now < p.createdAt then Refuse(RejectedRow)
                                                   else Proceed(plan, body)
  {
  }

  lemma AskedRow(ai: Ai, t: Tenant, c: ConfirmCall, m: Measure, now: Time, plan: Plan)
    requires UniqueActive(t) && Asks(c, m, plan) && Manages(t, c.scope) && Named(ai, c)
    ensures Judge(ai, t, c, m, now) == JudgeRow(ai, c, m, now, plan, BodyOf(ai, c, plan))
  {
    ManagersOnly(t, c.scope);
    EditedExactly(c.payload, m.json, plan, PlanJson(plan));
    JudgedByRow(ai, t, c, m, now);
  }

  lemma ProceedAsks(ai: Ai, t: Tenant, c: ConfirmCall, m: Measure, now: Time)
    requires UniqueActive(t) && Judge(ai, t, c, m, now).Proceed?
    ensures Asks(c, m, Judge(ai, t, c, m, now).plan) && Manages(t, c.scope) && Named(ai, c)
    ensures m.body(BodyOf(ai, c, Judge(ai, t, c, m, now).plan)) <= 32768
            && FreshKey(ai, c.scope, ConfirmOp, c.key.value)
  {
    ProceedMeans(ai, t, c, m, now);
    BodyFits(ai, t, c, m, now);
    var plan := Judge(ai, t, c, m, now).plan;
    EditedExactly(c.payload, m.json, plan, PlanJson(plan));
    FreshMeans(ai, c.scope, ConfirmOp, c.key.value);
    ManagersOnly(t, c.scope);
  }

  /** A confirmation goes ahead with a plan exactly when the submitted payload reads as that plan, a manager
      asks, the key is fresh and the offer stands. */
  lemma ProceedsExactly(ai: Ai, t: Tenant, c: ConfirmCall, m: Measure, now: Time, plan: Plan, body: Body)
    requires AiInv(ai) && UniqueActive(t)
    ensures Judge(ai, t, c, m, now) == Proceed(plan, body)
            <==> Asks(c, m, plan) && Manages(t, c.scope) && Named(ai, c) && body == BodyOf(ai, c, plan)
                 && m.body(body) <= 32768 && FreshKey(ai, c.scope, ConfirmOp, c.key.value)
                 && Stands(ai.proposals[c.proposal.value], c.revision, now)
  {
    var v := Judge(ai, t, c, m, now);
    if v.Proceed? {
      ProceedAsks(ai, t, c, m, now);
      AskedRow(ai, t, c, m, now, v.plan);
      FreshRow(ai, c, m, now, v.plan, BodyOf(ai, c, v.plan));
    }
    if Asks(c, m, plan) && Manages(t, c.scope) && Named(ai, c) && m.body(BodyOf(ai, c, plan)) <= 32768
       && FreshKey(ai, c.scope, ConfirmOp, c.key.value) {
      AskedRow(ai, t, c, m, now, plan);
      FreshRow(ai, c, m, now, plan, BodyOf(ai, c, plan));
    }
  }

  /** Which refusal a manager's request under a fresh key gets: too long, answered already, another
      revision, too late, or a clock that ran backwards. */
  lemma RefusesExactly(ai: Ai, t: Tenant, c: ConfirmCall, m: Measure, now: Time, plan: Plan)
    requires AiInv(ai) && UniqueActive(t) && Asks(c, m, plan) && Manages(t, c.scope) && Named(ai, c)
    ensures m.body(BodyOf(ai, c, plan)) > 32768 ==> Judge(ai, t, c, m, now) == Refuse(InvalidRequest)
    ensures m.body(BodyOf(ai, c, plan)) <= 32768 && FreshKey(ai, c.scope, ConfirmOp, c.key.value)
            && !Stands(ai.proposals[c.proposal.value], c.revision, now) ==>
              var p := ai.proposals[c.proposal.value];
              Judge(ai, t, c, m, now) == Refuse(if p.status == Confirmed then AlreadyConfirmed
                                                else if p.revision != c.revision then Stale
                                                else if now >= p.expiresAt then Expired else RejectedRow)
  {
    AskedRow(ai, t, c, m, now, plan);
    if m.body(BodyOf(ai, c, plan)) <= 32768 && FreshKey(ai, c.scope, ConfirmOp, c.key.value) {
      FreshRow(ai, c, m, now, plan, BodyOf(ai, c, plan));
    }
  }

  /** Requests that never get as far as the rows. */
  lemma RefusesEarly(ai: Ai, t: Tenant, c: ConfirmCall, m: Measure, now: Time)
    requires UniqueActive(t)
    ensures (forall plan :: !Asks(c, m, plan)) ==> Judge(ai, t, c, m, now) == Refuse(InvalidRequest)
    ensures (exists plan :: Asks(c, m, plan)) && !Manages(t, c.scope) ==>
              Judge(ai, t, c, m, now) == Refuse(Refused(Denial(t, c.scope)))
    ensures (exists plan :: Asks(c, m, plan)) && Manages(t, c.scope) && !Named(ai, c) ==>
              Judge(ai, t, c, m, now) == Refuse(Refused(NotFound))
  {
    ManagersOnly(t, c.scope);
    if plan :| Asks(c, m, plan) {
      EditedExactly(c.payload, m.json, plan, PlanJson(plan));
    }
    if EditedPlan(c.payload, m.json).Ok? {
      var (plan, normal) := EditedPlan(c.payload, m.json).value;
      EditedExactly(c.payload, m.json, plan, normal);
      assert c.confirmed && c.revision >= 1 && c.key.Some? ==> Asks(c, m, plan);
    }
  }

  /** The proposal as a confirmation leaves it. */
  function Closed(p: Proposal, created: Created, now: Time): Proposal {
    Proposal(p.scope, p.scenario, Confirmed, p.contract, p.revision, None, Some(created), p.createdAt, p.expiresAt,
             p.payloadExpiresAt, Some(now), Some(now + 30 * ONE_DAY))
  }

  /** A confirmation that goes ahead turns the submitted plan, edits and all, into Tasks, records the
      request as it was submitted, and closes the proposal; nothing else changes. */
  lemma ConfirmTakesEffect(ai: Ai, t: Tenant, c: ConfirmCall, m: Measure, now: Time, next: Ai, plan: Plan)
      returns (created: Created)
    requires Confirms(ai, t, c, m, now, next) && Judge(ai, t, c, m, now).Proceed? && RendersPlan(c.payload, plan)
    ensures Named(ai, c) && c.key.Some?
    ensures TasksOf(plan.tasks, c.scope, created, ai.work, next.work)
    ensures next.proposals == ai.proposals[c.proposal.value := Closed(ai.proposals[c.proposal.value], created, now)]
    ensures next.operations == ai.operations
                               + [Operation(c.scope, ConfirmOp, c.key.value, BodyOf(ai, c, plan), c.proposal.value)]
  {
    ProceedMeans(ai, t, c, m, now);
    ParsesExactly(c.payload, plan);
    created := next.proposals[c.proposal.value].created.value;
    BuiltMeans(ai.work, next.work, c.scope, plan, created);
  }

  /** The caller gets the closed proposal after a go-ahead, the proposal as it was after a replay, and is told
      which of the two it is; a refusal is an error. */
  lemma AnswersExactly(ai: Ai, t: Tenant, c: ConfirmCall, m: Measure, now: Time, next: Ai)
    requires Confirms(ai, t, c, m, now, next)
    ensures var v, r := Judge(ai, t, c, m, now), Answer(Judge(ai, t, c, m, now), next, c);
            (v.Proceed? ==> c.proposal.Some? && c.proposal.value in next.proposals
                            && r == Ok((next.proposals[c.proposal.value], false)))
            && (v.Replay? ==> r == Ok((v.shown, true)) && next == ai)
            && (v.Refuse? ==> r == Err(v.error) && next == ai)
  {
  }

  /** The same request again, after any later run and by any manager of the Workspace, is answered with the
      Tasks that were created, for thirty days and no longer. */
  lemma RepeatReplays(ai: Ai, t: Tenant, c: ConfirmCall, m: Measure, now: Time, next: Ai, events: seq<Event>, later: Ai,
                      again: Tenant, at: Time)
    requires AiInv(ai) && Confirms(ai, t, c, m, now, next) && Judge(ai, t, c, m, now).Proceed?
    requires Reaches(m, next, events, later) && UniqueActive(again) && Manages(again, c.scope)
    ensures c.proposal.Some? && c.proposal.value in next.proposals
    ensures Judge(later, again, c, m, at) == if at < now + 30 * ONE_DAY then Replay(next.proposals[c.proposal.value])
                                             else Refuse(RecoveryOver)
  {
    ProceedMeans(ai, t, c, m, now);
    ManagersOnly(again, c.scope);
    var id, i := c.proposal.value, |ai.operations|;
    ConfirmKeeps(ai, t, c, m, now, next);
    RunsGoForward(m, next, events, later);
    BodyFits(ai, t, c, m, now);
    assert next.operations[i].body == Judge(ai, t, c, m, now).body && next.proposals[id].scope == c.scope;
    ConfirmReplays(m, next, i, events, later, again, c, at);
  }

  lemma BodyFits(ai: Ai, t: Tenant, c: ConfirmCall, m: Measure, now: Time)
    requires Judge(ai, t, c, m, now).Proceed?
    ensures m.body(Judge(ai, t, c, m, now).body) <= LIMITS.maxRequestBytes
    ensures c.confirmed && c.revision >= 1 && EditedPlan(c.payload, m.json).Ok?
            && EditedPlan(c.payload, m.json).value.0 == Judge(ai, t, c, m, now).plan
            && EditedPlan(c.payload, m.json).value.1 == PlanJson(Judge(ai, t, c, m, now).plan)
  {
  }

  // ----- generating -----

  predicate Known(g: GenerateCall) { g.scenario in {SubtitleCheck, TaskTree} && g.key.Some? }

  /** The proposal as it is shown: its payload only while the offer stands. */
  function Shown(p: Proposal, now: Time): Proposal {
    if p.status == Available && now < p.expiresAt then p else p.(payload := None)
  }

  /** What asking again under a used key answers: a conflict for another scenario, nothing once the offer
      has lapsed or its recovery is over, and otherwise the stored proposal. */
  lemma ReplayedExactly(ai: Ai, g: GenerateCall, i: nat, check: Time, show: Time)
    requires AiInv(ai) && i < |ai.operations| && ai.operations[i].kind == GenerateOp && Known(g)
    requires g.scope == ai.operations[i].scope && g.key == Some(ai.operations[i].key)
    ensures var op := ai.operations[i];
            op.proposal in ai.proposals
            && var p := ai.proposals[op.proposal];
               (p.status == Confirmed ==> p.recoveryExpiresAt.Some?)
               && Replayed(ai, g, g.key.value, check, show)
                  == Some(if p.scenario != g.scenario then Err(KeyConflict)
                          else if p.status == Available && check >= p.expiresAt then Err(Expired)
                          else if p.status == Confirmed && show >= p.recoveryExpiresAt.value then Err(RecoveryOver)
                          else Ok(Shown(p, show)))
  {
    var op := ai.operations[i];
    assert Belongs(ai.proposals, op) && RowConstraints(ai.proposals[op.proposal]);
    FoundIs(ai, i);
    ReplayedRow(ai, g, i, check, show);
  }

  lemma FoundIs(ai: Ai, i: nat)
    requires OncePerKey(ai.operations) && i < |ai.operations|
    ensures var op := ai.operations[i]; FindOp(ai.operations, op.scope, op.kind, op.key) == Some(i)
  {
  }

  lemma ReplayedRow(ai: Ai, g: GenerateCall, i: nat, check: Time, show: Time)
    requires i < |ai.operations| && FindOp(ai.operations, g.scope, GenerateOp, ai.operations[i].key) == Some(i)
    requires var op := ai.operations[i];
             Held(ai, g.scope, op.proposal) && op.body == GenerateBody(ai.proposals[op.proposal].scenario)
             && RowConstraints(ai.proposals[op.proposal])
             && (ai.proposals[op.proposal].status.Confirmed? ==> ai.proposals[op.proposal].created.Some?)
    ensures var p := ai.proposals[ai.operations[i].proposal];
            Replayed(ai, g, ai.operations[i].key, check, show)
            == Some(if p.scenario != g.scenario then Err(KeyConflict)
                    else if p.status == Available && check >= p.expiresAt then Err(Expired)
                    else if p.status == Confirmed && show >= p.recoveryExpiresAt.value then Err(RecoveryOver)
                    else Ok(Shown(p, show)))
  {
  }

  /** The adapter is asked exactly for a manager's request under a fresh key. */
  lemma AsksAdapterExactly(ai: Ai, t: Tenant, g: GenerateCall, check: Time, show: Time)
    requires UniqueActive(t)
    ensures Ask(ai, t, g, check, show) == Ok(None)
            <==> Known(g) && Manages(t, g.scope) && FreshKey(ai, g.scope, GenerateOp, g.key.value)
    ensures !Known(g) ==> Ask(ai, t, g, check, show) == Err(InvalidRequest)
    ensures Known(g) && !Manages(t, g.scope) ==> Ask(ai, t, g, check, show) == Err(Refused(Denial(t, g.scope)))
    ensures Known(g) && Manages(t, g.scope) && Replayed(ai, g, g.key.value, check, show).Some? ==>
              Ask(ai, t, g, check, show) == match Replayed(ai, g, g.key.value, check, show).value
                                            case Ok(p) => Ok(Some(p))
                                            case Err(e) => Err(e)
  {
    ManagersOnly(t, g.scope);
    if g.key.Some? { FreshMeans(ai, g.scope, GenerateOp, g.key.value); }
  }

  /** An answer that reads as a plan is stored in normal form, open for half an hour and kept for a week,
      together with the operation that names it. */
  lemma KeepsExactly(ai: Ai, t: Tenant, g: GenerateCall, answer: Json, m: Measure, id: ProposalId, check: Time,
                     show: Time, now: Time, plan: Plan)
    requires UniqueActive(t) && Known(g) && RendersPlan(answer, plan) && m.json(answer) <= 65536 && Manages(t, g.scope)
    requires FreshKey(ai, g.scope, GenerateOp, g.key.value)
    ensures Keep(ai, t, g, answer, m, id, check, show, now)
            == if id in ai.proposals then Err(RejectedRow)
               else
                 var row := Proposal(g.scope, g.scenario, Available, "ai.task-plan.v1", 1, Some(PlanJson(plan)), None,
                                     now, now + HALF_AN_HOUR, now + 7 * ONE_DAY, None, None);
                 Ok((row, false,
                     Ai(ai.proposals[id := row],
                        ai.operations + [Operation(g.scope, GenerateOp, g.key.value, GenerateBody(g.scenario), id)],
                        ai.work)))
  {
    ManagersOnly(t, g.scope);
    ParsesExactly(answer, plan);
    FreshMeans(ai, g.scope, GenerateOp, g.key.value);
  }

  lemma KeepRefuses(ai: Ai, t: Tenant, g: GenerateCall, answer: Json, m: Measure, id: ProposalId, check: Time,
                    show: Time, now: Time)
    requires UniqueActive(t)
    ensures !Known(g) ==> Keep(ai, t, g, answer, m, id, check, show, now) == Err(InvalidRequest)
    ensures Known(g) && !(m.json(answer) <= 65536 && exists plan :: RendersPlan(answer, plan)) ==>
              Keep(ai, t, g, answer, m, id, check, show, now) == Err(InvalidAnswer)
    ensures Known(g) && m.json(answer) <= 65536 && (exists plan :: RendersPlan(answer, plan))
            && !Manages(t, g.scope) ==>
              Keep(ai, t, g, answer, m, id, check, show, now) == Err(Refused(Denial(t, g.scope)))
    ensures Known(g) && m.json(answer) <= 65536 && (exists plan :: RendersPlan(answer, plan)) && Manages(t, g.scope)
            && Replayed(ai, g, g.key.value, check, show).Some? ==>
              Keep(ai, t, g, answer, m, id, check, show, now)
              == match Replayed(ai, g, g.key.value, check, show).value
                 case Ok(p) => Ok((p, true, ai))
                 case Err(e) => Err(e)
  {
    ManagersOnly(t, g.scope);
    if plan :| RendersPlan(answer, plan) { ParsesExactly(answer, plan); }
    if ParsePlan(answer, LIMITS).Ok? { ParsesExactly(answer, ParsePlan(answer, LIMITS).value); }
  }
}
