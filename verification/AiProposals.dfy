/** Generated plans: a proposal is stored once per key, and confirming it compiles its plan into
    Tasks once. The adapter runs between two transactions; replays are told by key and body. */
module AiProposals {
  import opened Prelude
  import opened Tenancy
  import opened TaskHierarchy
  import opened PlanContract
  import opened TaskWorkflow
  import opened PlanCompiler

  type ProposalId = nat
  type Key = nat

  /** The two known fixtures, or any other spelling. */
  datatype Scenario = SubtitleCheck | TaskTree | OtherScenario(spelling: string)

  /** What a digest identifies; digests are taken to be injective. */
  datatype Body =
    | GenerateBody(scenario: Scenario)
    | ConfirmBody(proposal: ProposalId, revision: int, payload: Json, confirmedScenario: Scenario)

  datatype OpKind = GenerateOp | ConfirmOp
  datatype Operation = Operation(scope: Scope, kind: OpKind, key: Key, body: Body, proposal: ProposalId)

  datatype ProposalStatus = Available | Confirmed

  datatype Proposal = Proposal(
    scope: Scope, scenario: Scenario, status: ProposalStatus, contract: string, revision: nat,
    payload: Option<Json>, created: Option<Created>, createdAt: Time, expiresAt: Time, payloadExpiresAt: Time,
    confirmedAt: Option<Time>, recoveryExpiresAt: Option<Time>)

  datatype ProposalError =
    | Refused(cause: ServiceError)
    | InvalidRequest | InvalidAnswer | KeyConflict | RecoveryOver | Stale | AlreadyConfirmed | Expired | RejectedRow

  /** Operations are listed in insertion order. */
  datatype Ai = Ai(proposals: map<ProposalId, Proposal>, operations: seq<Operation>, work: WorkDb)

  /** Sizes of canonical texts in bytes. */
  datatype Measure = Measure(json: Json -> nat, body: Body -> nat)

  const MINUTE: nat := 60_000_000
  const DAY: nat := 1440 * MINUTE
  const OFFER: nat := 30 * MINUTE
  const RETENTION: nat := 7 * DAY
  const RECOVERY: nat := 30 * DAY

  // ----- rows -----

  predicate Names(op: Operation, scope: Scope, kind: OpKind, key: Key) {
    op.scope == scope && op.kind == kind && op.key == key
  }

  function FindOp(ops: seq<Operation>, scope: Scope, kind: OpKind, key: Key): (r: Option<nat>)
    ensures r.Some? ==> r.value < |ops| && Names(ops[r.value], scope, kind, key)
    ensures r.None? ==> forall i :: 0 <= i < |ops| ==> !Names(ops[i], scope, kind, key)
  {
    if ops == [] then None
    else
      match FindOp(ops[..|ops| - 1], scope, kind, key)
      case Some(i) => Some(i)
      case None => if Names(ops[|ops| - 1], scope, kind, key) then Some(|ops| - 1) else None
  }

  predicate Held(ai: Ai, scope: Scope, id: ProposalId) { id in ai.proposals && ai.proposals[id].scope == scope }

  predicate Recoverable(p: Proposal, now: Time) {
    p.status.Confirmed? ==> p.recoveryExpiresAt.Some? && now < p.recoveryExpiresAt.value && p.created.Some?
  }

  /** What a caller is shown: the payload only while the offer stands. */
  function View(p: Proposal, now: Time): Result<Proposal, ProposalError> {
    if !Recoverable(p, now) then Err(RecoveryOver)
    else if p.status.Available? && now < p.expiresAt && now < p.payloadExpiresAt then Ok(p)
    else Ok(p.(payload := None))
  }

  /** The constraints every stored row satisfies. */
  predicate RowConstraints(p: Proposal) {
    p.revision >= 1 && p.createdAt < p.expiresAt <= p.payloadExpiresAt
    && (if p.status.Available? then p.confirmedAt.None? && p.recoveryExpiresAt.None? && p.created.None?
        else p.confirmedAt.Some? && p.recoveryExpiresAt.Some? && p.payload.None?
             && p.createdAt <= p.confirmedAt.value < p.recoveryExpiresAt.value)
  }

  // ----- generating -----

  /** `key` is `None` where the text is not a UUID. */
  datatype GenerateCall = GenerateCall(scope: Scope, scenario: Scenario, key: Option<Key>)

  /** A key that was used already answers with its proposal; `check` and `show` are two clock reads. */
  function Replayed(ai: Ai, g: GenerateCall, key: Key, check: Time,
                    show: Time): Option<Result<Proposal, ProposalError>> {
    match FindOp(ai.operations, g.scope, GenerateOp, key)
    case None => None
    case Some(i) =>
      var op := ai.operations[i];
      if !Held(ai, g.scope, op.proposal) then Some(Err(Refused(NotFound)))
      else
        var p := ai.proposals[op.proposal];
        if op.body != GenerateBody(g.scenario) then Some(Err(KeyConflict))
        else if p.status.Available? && check >= p.expiresAt then Some(Err(Expired))
        else Some(View(p, show))
  }

  /** The first transaction only reads: refuse, replay, or (`None`) go and ask the adapter. */
  function Ask(ai: Ai, t: Tenant, g: GenerateCall, check: Time, show: Time): Result<Option<Proposal>, ProposalError> {
    if g.scenario.OtherScenario? || g.key.None? then Err(InvalidRequest)
    else
      match LockManager(t, g.scope)
      case Err(e) => Err(Refused(e))
      case Ok(_) =>
        match Replayed(ai, g, g.key.value, check, show)
        case None => Ok(None)
        case Some(Err(e)) => Err(e)
        case Some(Ok(p)) => Ok(Some(p))
  }

  function Offer(g: GenerateCall, plan: Plan, now: Time): Proposal {
    Proposal(g.scope, g.scenario, Available, TASK_PLAN_VERSION, 1, Some(PlanJson(plan)), None,
             now, now + OFFER, now + RETENTION, None, None)
  }

  /** The second transaction looks again under the locks and inserts only where the key is still free. */
  function Keep(ai: Ai, t: Tenant, g: GenerateCall, answer: Json, m: Measure, id: ProposalId, check: Time, show: Time,
                now: Time):
      Result<(Proposal, bool, Ai), ProposalError> {
    if g.scenario.OtherScenario? || g.key.None? then Err(InvalidRequest)
    else if m.json(answer) > LIMITS.maxResponseBytes || ParsePlan(answer, LIMITS).Err? then Err(InvalidAnswer)
    else
      match LockManager(t, g.scope)
      case Err(e) => Err(Refused(e))
      case Ok(_) =>
        match Replayed(ai, g, g.key.value, check, show)
        case Some(Err(e)) => Err(e)
        case Some(Ok(p)) => Ok((p, true, ai))
        case None =>
          if id in ai.proposals then Err(RejectedRow)
          else
            var p := Offer(g, ParsePlan(answer, LIMITS).value, now);
            Ok((p, false, ai.(proposals := ai.proposals[id := p],
                              operations :=
                                  ai.operations + [Operation(g.scope, GenerateOp, g.key.value, GenerateBody(g.scenario),
                                                             id)])))
  }

  // ----- confirming -----

  /** `proposal` is `None` where the text is not a UUID. */
  datatype ConfirmCall = ConfirmCall(scope: Scope, proposal: Option<ProposalId>, key: Option<Key>, revision: int,
                                     payload: Json, confirmed: bool)

  datatype Verdict = Refuse(error: ProposalError) | Replay(shown: Proposal) | Proceed(plan: Plan, body: Body)

  /** What `confirm_proposal` decides on the rows it finds under its locks, in the order it looks. */
  function Judge(ai: Ai, t: Tenant, c: ConfirmCall, m: Measure, now: Time): Verdict {
    if !c.confirmed || c.revision < 1 || c.key.None? then Refuse(InvalidRequest)
    else
      match EditedPlan(c.payload, m.json)
      case Err(_) => Refuse(InvalidRequest)
      case Ok((plan, normal)) =>
        match LockManager(t, c.scope)
        case Err(e) => Refuse(Refused(e))
        case Ok(_) =>
          if c.proposal.None? || !Held(ai, c.scope, c.proposal.value) then Refuse(Refused(NotFound))
          else
            JudgeRow(ai, c, m, now, plan,
                     ConfirmBody(c.proposal.value, c.revision, normal, ai.proposals[c.proposal.value].scenario))
  }

  /** Saving a row whose clock runs backwards violates a constraint, after the Tasks were created. */
  function JudgeRow(ai: Ai, c: ConfirmCall, m: Measure, now: Time, plan: Plan, body: Body): Verdict
    requires c.key.Some? && c.proposal.Some? && c.proposal.value in ai.proposals
  {
    var v := CheckRow(ai, c, m, now, plan, body);
    if v.Proceed? && now < ai.proposals[c.proposal.value].createdAt then Refuse(RejectedRow) else v
  }

  function CheckRow(ai: Ai, c: ConfirmCall, m: Measure, now: Time, plan: Plan, body: Body): Verdict
    requires c.key.Some? && c.proposal.Some? && c.proposal.value in ai.proposals
  {
    var id := c.proposal.value;
    var p := ai.proposals[id];
    if m.body(body) > LIMITS.maxRequestBytes then Refuse(InvalidRequest)
    else
      match FindOp(ai.operations, c.scope, ConfirmOp, c.key.value)
      case Some(i) =>
        if ai.operations[i].proposal != id || ai.operations[i].body != body then Refuse(KeyConflict)
        else if !Recoverable(p, now) then Refuse(RecoveryOver)
        else if !p.status.Confirmed? then Refuse(Stale)
        else Replay(p.(payload := None))
      case None =>
        if p.status.Confirmed? then Refuse(AlreadyConfirmed)
        else if c.revision != p.revision || p.contract != TASK_PLAN_VERSION then Refuse(Stale)
        else if now >= p.expiresAt || now >= p.payloadExpiresAt || p.payload.None? then Refuse(Expired)
        else Proceed(plan, body)
  }

  function Settle(p: Proposal, created: Created, now: Time): Proposal {
    p.(status := Confirmed, confirmedAt := Some(now), recoveryExpiresAt := Some(now + RECOVERY),
       created := Some(created), payload := None)
  }

  /** The proposal names its Tasks and the operation is recorded. */
  ghost predicate RowsWritten(ai: Ai, next: Ai, id: ProposalId, key: Key, created: Created, body: Body, now: Time) {
    id in ai.proposals && next.proposals == ai.proposals[id := Settle(ai.proposals[id], created, now)]
    && next.operations == ai.operations + [Operation(ai.proposals[id].scope, ConfirmOp, key, body, id)]
  }

  ghost predicate ConfirmWrites(ai: Ai, next: Ai, id: ProposalId, key: Key, plan: Plan, body: Body, now: Time) {
    id in next.proposals && next.proposals[id].created.Some?
    && RowsWritten(ai, next, id, key, next.proposals[id].created.value, body, now)
    && Built(ai.work, next.work, ai.proposals[id].scope, plan, next.proposals[id].created.value)
  }

  /** Only a go-ahead writes. */
  ghost predicate Outcome(v: Verdict, ai: Ai, c: ConfirmCall, now: Time, next: Ai) {
    if v.Proceed? then
      c.proposal.Some? && c.key.Some? && ConfirmWrites(ai, next, c.proposal.value, c.key.value, v.plan, v.body, now)
    else next == ai
  }

  ghost predicate Confirms(ai: Ai, t: Tenant, c: ConfirmCall, m: Measure, now: Time, next: Ai) {
    Outcome(Judge(ai, t, c, m, now), ai, c, now, next)
  }

  /** The answer a caller gets: the proposal, and whether it is a replay. */
  function Answer(verdict: Verdict, next: Ai, c: ConfirmCall): Result<(Proposal, bool), ProposalError> {
    match verdict
    case Refuse(e) => Err(e)
    case Replay(p) => Ok((p, true))
    case Proceed(_, _) =>
      if c.proposal.Some? && c.proposal.value in next.proposals then Ok((next.proposals[c.proposal.value], false))
      else Err(Refused(NotFound))
  }
}
