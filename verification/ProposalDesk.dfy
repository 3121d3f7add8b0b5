/** The generation and confirmation services as they run. Each leaves exactly the state its function in
    AiProposals says, and keeps the invariant of ProposalRuns. */
module ProposalDesk {
  import opened Prelude
  import opened Tenancy
  import TaskHierarchy
  import opened PlanContract
  import opened TaskWorkflow
  import opened TaskStore
  import opened PlanCompiler
  import opened AiProposals
  import opened ProposalRuns

  lemma SavedWrites(ai: Ai, built: WorkDb, next: Ai, id: ProposalId, key: Key, plan: Plan, body: Body, now: Time,
                    created: Created)
    requires id in ai.proposals
    requires Built(ai.work, built, ai.proposals[id].scope, plan, created)
    requires next == Ai(ai.proposals[id := Settle(ai.proposals[id], created, now)],
                        ai.operations + [Operation(ai.proposals[id].scope, ConfirmOp, key, body, id)], built)
    ensures ConfirmWrites(ai, next, id, key, plan, body, now)
  {
  }

  // ----- the services -----

  class Desk {
    const store: Store
    var proposals: map<ProposalId, Proposal>
    var operations: seq<Operation>

    function State(): Ai reads this, store { Ai(proposals, operations, store.Db()) }

    /** Kept by both services that write; the other methods read or are steps inside a transaction. */
    ghost predicate Valid() reads this, store { AiInv(State()) }

    constructor (store: Store)
      requires store.Valid()
      ensures this.store == store && State() == Ai(map[], [], store.Db()) && Valid()
    {
      this.store, proposals, operations := store, map[], [];
    }

    method GenerateFirst(t: Tenant, g: GenerateCall, check: Time, show: Time)
        returns (r: Result<Option<Proposal>, ProposalError>)
      ensures r == Ask(State(), t, g, check, show)
    {
      if g.scenario.OtherScenario? || g.key.None? { return Err(InvalidRequest); }
      var locked := LockManager(t, g.scope);
      if locked.Err? { return Err(Refused(locked.error)); }
      var seen := Replay(g, g.key.value, check, show);
      if seen.None? { return Ok(None); }
      if seen.value.Err? { return Err(seen.value.error); }
      return Ok(Some(seen.value.value));
    }

    method Replay(g: GenerateCall, key: Key, check: Time, show: Time)
        returns (r: Option<Result<Proposal, ProposalError>>)
      ensures r == Replayed(State(), g, key, check, show)
    {
      var existing := FindOp(operations, g.scope, GenerateOp, key);
      if existing.None? { return None; }
      var op := operations[existing.value];
      if op.proposal !in proposals || proposals[op.proposal].scope != g.scope { return Some(Err(Refused(NotFound))); }
      var p := proposals[op.proposal];
      if op.body != GenerateBody(g.scenario) { return Some(Err(KeyConflict)); }
      if p.status.Available? && check >= p.expiresAt { return Some(Err(Expired)); }
      return Some(View(p, show));
    }

    method GenerateSecond(t: Tenant, g: GenerateCall, answer: Json, m: Measure, id: ProposalId, check: Time, show: Time,
                          now: Time)
        returns (r: Result<(Proposal, bool), ProposalError>)
      requires Valid()
      modifies this`proposals, this`operations
      ensures match Keep(old(State()), t, g, answer, m, id, check, show, now)
              case Ok((p, again, next)) => r == Ok((p, again)) && State() == next
              case Err(e) => r == Err(e) && State() == old(State())
      ensures Valid()
      ensures Next(m, old(State()), KeepEvent(t, g, answer, id, check, show, now), State())
    {
      if Keep(State(), t, g, answer, m, id, check, show, now).Ok? {
        KeepKeeps(State(), t, g, answer, m, id, check, show, now);
      }
      r := KeepAnswer(t, g, answer, m, id, check, show, now);
    }

    /** The transaction that stores an answer. */
    method KeepAnswer(t: Tenant, g: GenerateCall, answer: Json, m: Measure, id: ProposalId, check: Time, show: Time,
                      now: Time)
        returns (r: Result<(Proposal, bool), ProposalError>)
      modifies this`proposals, this`operations
      ensures match Keep(old(State()), t, g, answer, m, id, check, show, now)
              case Ok((p, again, next)) => r == Ok((p, again)) && State() == next
              case Err(e) => r == Err(e) && State() == old(State())
    {
      if g.scenario.OtherScenario? || g.key.None? { return Err(InvalidRequest); }
      if m.json(answer) > LIMITS.maxResponseBytes { return Err(InvalidAnswer); }
      var parsed := ParseTaskPlan(answer, LIMITS);
      if parsed.Err? { return Err(InvalidAnswer); }
      var locked := LockManager(t, g.scope);
      if locked.Err? { return Err(Refused(locked.error)); }
      var seen := Replay(g, g.key.value, check, show);
      if seen.Some? {
        if seen.value.Err? { return Err(seen.value.error); }
        return Ok((seen.value.value, true));
      }
      if id in proposals { return Err(RejectedRow); }
      var p := Offer(g, parsed.value, now);
      proposals := proposals[id := p];
      operations := operations + [Operation(g.scope, GenerateOp, g.key.value, GenerateBody(g.scenario), id)];
      return Ok((p, false));
    }

    method ReadPayload(payload: Json, m: Measure) returns (r: Result<(Plan, Json), PlanError>)
      ensures r == EditedPlan(payload, m.json)
    {
      if !payload.JObject? || m.json(payload) > LIMITS.maxRequestBytes { return Err(InvalidPayload); }
      if m.json(payload) > LIMITS.maxResponseBytes { return Err(InvalidPayload); }
      var parsed := ParseTaskPlan(payload, LIMITS);
      if parsed.Err? { return Err(InvalidPayload); }
      return Ok((parsed.value, PlanJson(parsed.value)));
    }

    /** Everything after the locks is one transaction: Tasks, proposal and operation, or nothing. */
    method Confirm(t: Tenant, c: ConfirmCall, m: Measure, now: Time, ids: seq<TaskHierarchy.TaskId>)
        returns (r: Result<(Proposal, bool), ProposalError>)
      requires Valid() && |ids| == LIMITS.maxTasks && FreshIds(store.tasks, ids, 0)
      modifies this`proposals, this`operations, store
      ensures Confirms(old(State()), t, c, m, now, State())
      ensures r == Answer(Judge(old(State()), t, c, m, now), State(), c)
      ensures Valid()
      ensures Next(m, old(State()), ConfirmEvent(t, c, now), State())
    {
      ghost var before := State();
      r := ConfirmLocked(t, c, m, now, ids);
      ConfirmKeeps(before, t, c, m, now, State());
    }

    method ConfirmLocked(t: Tenant, c: ConfirmCall, m: Measure, now: Time, ids: seq<TaskHierarchy.TaskId>)
        returns (r: Result<(Proposal, bool), ProposalError>)
      requires store.Valid() && |ids| == LIMITS.maxTasks && FreshIds(store.tasks, ids, 0)
      modifies this`proposals, this`operations, store
      ensures Confirms(old(State()), t, c, m, now, State())
      ensures r == Answer(Judge(old(State()), t, c, m, now), State(), c)
    {
      if !c.confirmed || c.revision < 1 || c.key.None? { return Err(InvalidRequest); }
      var edited := ReadPayload(c.payload, m);
      if edited.Err? { return Err(InvalidRequest); }
      var (plan, normal) := edited.value;
      var locked := LockManager(t, c.scope);
      if locked.Err? { return Err(Refused(locked.error)); }
      if c.proposal.None? || !Held(State(), c.scope, c.proposal.value) { return Err(Refused(NotFound)); }
      var id := c.proposal.value;
      var body := ConfirmBody(id, c.revision, normal, proposals[id].scenario);
      assert Judge(State(), t, c, m, now) == JudgeRow(State(), c, m, now, plan, body);
      ParsedIsValid(c.payload, LIMITS);
      r := ConfirmRow(t, c, m, now, ids, plan, body);
    }

    method CheckConfirm(c: ConfirmCall, m: Measure, now: Time, plan: Plan, body: Body) returns (v: Verdict)
      requires c.key.Some? && c.proposal.Some? && c.proposal.value in proposals
      ensures v == CheckRow(State(), c, m, now, plan, body)
    {
      var p := proposals[c.proposal.value];
      if m.body(body) > LIMITS.maxRequestBytes { return Refuse(InvalidRequest); }
      var previous := FindOp(operations, c.scope, ConfirmOp, c.key.value);
      if previous.Some? {
        var op := operations[previous.value];
        if op.proposal != c.proposal.value || op.body != body { return Refuse(KeyConflict); }
        if !Recoverable(p, now) { return Refuse(RecoveryOver); }
        if !p.status.Confirmed? { return Refuse(Stale); }
        return Verdict.Replay(p.(payload := None));
      }
      if p.status.Confirmed? { return Refuse(AlreadyConfirmed); }
      if c.revision != p.revision || p.contract != TASK_PLAN_VERSION { return Refuse(Stale); }
      if now >= p.expiresAt || now >= p.payloadExpiresAt || p.payload.None? { return Refuse(Expired); }
      return Proceed(plan, body);
    }

    method ConfirmRow(t: Tenant, c: ConfirmCall, m: Measure, now: Time, ids: seq<TaskHierarchy.TaskId>, plan: Plan,
                      body: Body)
        returns (r: Result<(Proposal, bool), ProposalError>)
      requires c.key.Some? && c.proposal.Some? && Held(State(), c.scope, c.proposal.value)
      requires ValidPlan(plan, LIMITS) && LockManager(t, c.scope).Ok?
      requires store.Valid() && |ids| == LIMITS.maxTasks && FreshIds(store.tasks, ids, 0)
      modifies this`proposals, this`operations, store
      ensures var v := JudgeRow(old(State()), c, m, now, plan, body);
              r == Answer(v, State(), c) && Outcome(v, old(State()), c, now, State())
    {
      var v := CheckConfirm(c, m, now, plan, body);
      if v.Refuse? { return Err(v.error); }
      if v.Replay? { return Ok((v.shown, true)); }
      assert v == Proceed(plan, body);
      if now < proposals[c.proposal.value].createdAt {
        CompileAndUndo(store, t, c.scope, plan, ids);
        return Err(RejectedRow);
      }
      Commit(t, c, now, ids, plan, body);
      return Ok((proposals[c.proposal.value], false));
    }

    /** Compile the plan and save the rows, in one transaction. */
    method Commit(t: Tenant, c: ConfirmCall, now: Time, ids: seq<TaskHierarchy.TaskId>, plan: Plan, body: Body)
      requires c.key.Some? && c.proposal.Some? && Held(State(), c.scope, c.proposal.value)
      requires ValidPlan(plan, LIMITS) && LockManager(t, c.scope).Ok?
      requires store.Valid() && |ids| == LIMITS.maxTasks && FreshIds(store.tasks, ids, 0)
      modifies this`proposals, this`operations, store
      ensures ConfirmWrites(old(State()), State(), c.proposal.value, c.key.value, plan, body, now)
    {
      ghost var before := State();
      var id := c.proposal.value;
      var p := proposals[id];
      var created, _ := CompilePlan(store, t, c.scope, plan, ids);
      ghost var built := store.Db();
      SaveConfirmed(id, Settle(p, created, now), Operation(c.scope, ConfirmOp, c.key.value, body, id));
      SavedWrites(before, built, State(), id, c.key.value, plan, body, now, created);
    }

    method SaveConfirmed(id: ProposalId, row: Proposal, op: Operation)
      modifies this`proposals, this`operations
      ensures proposals == old(proposals)[id := row] && operations == old(operations) + [op]
    {
      proposals := proposals[id := row];
      operations := operations + [op];
    }
  }
}
