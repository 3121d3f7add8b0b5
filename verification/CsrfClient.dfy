/** The CSRF token cache of the browser client: one request in flight per generation, and answers
    that were asked for before a clear are thrown away. Callbacks interleave with everything else. */
module CsrfClient {
  import opened Prelude

  type PromiseId = nat
  type CsrfToken = string

  /** A fetch goes from waiting to settled; its `finally` callback runs some time after that. */
  datatype Phase = InFlight | Settled | Finished

  /** A request, the generation it was started in, and what it resolved to. */
  datatype Request = Request(generation: nat, phase: Phase, answer: Option<CsrfToken>)

  datatype Client = Client(token: Option<CsrfToken>, tracked: Option<PromiseId>, generation: nat,
                           requests: seq<Request>)

  const FRESH := Client(None, None, 0, [])

  predicate IsAlphanumeric(c: char) { 'A' <= c <= 'Z' || 'a' <= c <= 'z' || '0' <= c <= '9' }

  predicate IsCsrfToken(s: string) { |s| == 64 && forall i :: 0 <= i < |s| ==> IsAlphanumeric(s[i]) }

  // ----- steps -----

  function Clear(c: Client): Client { Client(None, None, c.generation + 1, c.requests) }

  /** What a caller of `initializeCsrf` waits for. */
  datatype Awaited = Cached(token: CsrfToken) | Pending(id: PromiseId)

  function Initialize(c: Client, force: bool): (Client, Awaited) {
    var now := if force then Clear(c) else c;
    if now.token.Some? && now.token.value != "" then (now, Cached(now.token.value))
    else if now.tracked.Some? then (now, Pending(now.tracked.value))
    else
      var id := |now.requests|;
      (now.(tracked := Some(id), requests := now.requests + [Request(now.generation, InFlight, None)]), Pending(id))
  }

  predicate Waiting(c: Client, id: PromiseId) { id < |c.requests| && c.requests[id].phase.InFlight? }

  /** The response arrives: `payload` is the token member, or `None` where the fetch failed or has none. */
  function Settle(c: Client, id: PromiseId, payload: Option<string>): Client {
    if !Waiting(c, id) then c
    else
      var good := payload.Some? && IsCsrfToken(payload.value) && c.requests[id].generation == c.generation;
      var answer := if good then payload else None;
      c.(requests := c.requests[id := c.requests[id].(phase := Settled, answer := answer)],
         token := if good then payload else c.token)
  }

  /** `finally`: forget the request if it is still the tracked one. */
  function Finish(c: Client, id: PromiseId): Client {
    if id >= |c.requests| || !c.requests[id].phase.Settled? then c
    else c.(requests := c.requests[id := c.requests[id].(phase := Finished)],
            tracked := if c.tracked == Some(id) then None else c.tracked)
  }

  datatype Event =
    | ClearEvent
    | InitializeEvent(force: bool)
    | SettleEvent(id: PromiseId, payload: Option<string>)
    | FinishEvent(id: PromiseId)

  function Step(c: Client, e: Event): Client {
    match e
    case ClearEvent => Clear(c)
    case InitializeEvent(force) => Initialize(c, force).0
    case SettleEvent(id, payload) => Settle(c, id, payload)
    case FinishEvent(id) => Finish(c, id)
  }

  function Run(c: Client, events: seq<Event>): Client {
    if events == [] then c else Step(Run(c, events[..|events| - 1]), events[|events| - 1])
  }

  // ----- what every interleaving keeps -----

  /** The request was started in the current generation and resolved to the cached token. */
  predicate Answers(c: Client, id: PromiseId) {
    id < |c.requests| && c.requests[id].generation == c.generation && !c.requests[id].phase.InFlight?
    && c.requests[id].answer == c.token
  }

  predicate Unfinished(c: Client, id: PromiseId) { id < |c.requests| && !c.requests[id].phase.Finished? }

  ghost predicate CacheIsCurrent(c: Client) {
    c.token.Some? ==> IsCsrfToken(c.token.value) && exists id :: Answers(c, id)
  }

  /** Of the requests started in this generation only the tracked one can be unfinished. */
  ghost predicate TrackedIsCurrent(c: Client) {
    (forall id :: 0 <= id < |c.requests| ==> c.requests[id].generation <= c.generation)
    && (forall id: PromiseId ::
          Unfinished(c, id) && c.requests[id].generation == c.generation ==> c.tracked == Some(id))
    && (c.tracked.Some? ==> Unfinished(c, c.tracked.value) && c.requests[c.tracked.value].generation == c.generation)
  }

  ghost predicate SingleFlight(c: Client) {
    forall i: PromiseId, j: PromiseId ::
      Unfinished(c, i) && Unfinished(c, j) && c.requests[i].generation == c.requests[j].generation ==> i == j
  }

  ghost predicate ClientInv(c: Client) { CacheIsCurrent(c) && TrackedIsCurrent(c) && SingleFlight(c) }

  lemma AnswerStays(c: Client, next: Client, id: PromiseId)
    requires Answers(c, id) && next.generation == c.generation && next.token == c.token
    requires id < |next.requests| && next.requests[id].generation == c.requests[id].generation
             && next.requests[id].answer == c.requests[id].answer && !next.requests[id].phase.InFlight?
    ensures Answers(next, id)
  {
  }

  lemma SettleKeeps(c: Client, id: PromiseId, payload: Option<string>)
    requires ClientInv(c)
    ensures ClientInv(Settle(c, id, payload))
  {
    var next := Settle(c, id, payload);
    if Waiting(c, id) {
      assert forall x: PromiseId :: Unfinished(next, x) <==> Unfinished(c, x);
      if next.token == payload && payload.Some? && next.requests[id].answer == payload {
        assert Answers(next, id);
      } else if c.token.Some? {
        var x :| Answers(c, x);
        AnswerStays(c, next, x);
      }
    }
  }

  lemma FinishKeeps(c: Client, id: PromiseId)
    requires ClientInv(c)
    ensures ClientInv(Finish(c, id))
  {
    var next := Finish(c, id);
    assert forall x: PromiseId :: Unfinished(next, x) ==> Unfinished(c, x);
    if c.token.Some? {
      var x :| Answers(c, x);
      AnswerStays(c, next, x);
    }
  }

  lemma InitializeKeeps(c: Client, force: bool)
    requires ClientInv(c)
    ensures ClientInv(Clear(c)) && ClientInv(Initialize(c, force).0)
  {
    assert forall x: PromiseId :: Unfinished(Clear(c), x) <==> Unfinished(c, x);
    var now := if force then Clear(c) else c;
    var next := Initialize(c, force).0;
    if next != now {
      assert forall x: PromiseId :: Unfinished(next, x) <==> Unfinished(now, x) || x == |now.requests|;
    }
  }

  /** In every interleaving of fetches, settlements, callbacks and clears the cached token was fetched
      in the current generation, so was the tracked request, and each generation has at most one
      request that is not over. */
  lemma {:induction false} EveryRunKeepsClient(c: Client, events: seq<Event>)
    requires ClientInv(c)
    ensures ClientInv(Run(c, events))
  {
    if events != [] {
      var front := Run(c, events[..|events| - 1]);
      EveryRunKeepsClient(c, events[..|events| - 1]);
      match events[|events| - 1]
      case ClearEvent => InitializeKeeps(front, false);
      case InitializeEvent(force) => InitializeKeeps(front, force);
      case SettleEvent(id, payload) => SettleKeeps(front, id, payload);
      case FinishEvent(id) => FinishKeeps(front, id);
    }
  }

  lemma FreshIsFine()
    ensures ClientInv(FRESH)
  {
  }

  /** Generations only grow and a request keeps the one it was started in. */
  lemma {:induction false} GenerationsGrow(c: Client, events: seq<Event>, id: PromiseId)
    requires id < |c.requests|
    ensures var later := Run(c, events);
            later.generation >= c.generation && id < |later.requests|
                && later.requests[id].generation == c.requests[id].generation
  {
    if events != [] { GenerationsGrow(c, events[..|events| - 1], id); }
  }

  /** A response whose request was started before a clear never fills the cache, however late it is. */
  lemma LateResponsesAreDropped(c: Client, events: seq<Event>, id: PromiseId, payload: Option<string>)
    requires ClientInv(c) && id < |c.requests|
    ensures var later := Run(Clear(c), events);
            Settle(later, id, payload).token == later.token
            && (Waiting(later, id) ==> Settle(later, id, payload).requests[id].answer.None?)
  {
    GenerationsGrow(Clear(c), events, id);
  }

  /** Callers that arrive while a request is out share it. */
  lemma CallersShare(c: Client, force: bool)
    requires ClientInv(c)
    ensures var (next, awaited) := Initialize(c, force); Initialize(next, false) == (next, awaited)
  {
  }

  // ----- what each step does -----

  /** A request of the current generation is out. */
  predicate InProgress(c: Client) {
    exists id :: 0 <= id < |c.requests| && !c.requests[id].phase.Finished? && c.requests[id].generation == c.generation
  }

  /** Forcing throws the cached token away and starts over in a new generation; otherwise a request is
      started exactly when no token is cached and no request of this generation is out. */
  lemma RequestsAreStarted(c: Client, force: bool)
    requires ClientInv(c)
    ensures var (next, awaited) := Initialize(c, force);
            next.generation == c.generation + (if force then 1 else 0)
            && next.token == (if force then None else c.token)
            && (if force || (c.token == None && !InProgress(c))
                then next.requests == c.requests + [Request(next.generation, InFlight, None)]
                     && awaited == Pending(|c.requests|) && next.tracked == Some(|c.requests|)
                else next == c)
  {
    if !force && c.token == None {
      assert InProgress(c) ==> exists id: PromiseId :: Unfinished(c, id) && c.requests[id].generation == c.generation;
      assert c.tracked.Some? ==> Unfinished(c, c.tracked.value);
    }
  }

  /** A clear leaves nothing cached and nothing of the new generation under way; what is out stays out. */
  lemma ClearStartsAnew(c: Client)
    requires ClientInv(c)
    ensures Clear(c).generation == c.generation + 1 && Clear(c).token == None && Clear(c).tracked == None
            && Clear(c).requests == c.requests && !InProgress(Clear(c))
  {
  }

  /** The caller gets the cached token, or a request of the current generation that is still out. */
  lemma CallersAwait(c: Client, force: bool)
    requires ClientInv(c)
    ensures var (next, awaited) := Initialize(c, force);
            match awaited
            case Cached(token) => !force && c.token == Some(token)
            case Pending(id) => (force || c.token == None) && id < |next.requests| && next.tracked == Some(id)
                                && next.requests[id].generation == next.generation
                                && !next.requests[id].phase.Finished?
  {
  }

  /** A response settles its request; it fills the cache, and answers its callers, exactly if it carries 64
      letters or digits and no clear came in between. */
  lemma ResponsesFill(c: Client, id: PromiseId, payload: Option<string>)
    requires id < |c.requests|
    ensures var next := Settle(c, id, payload);
            var good := payload.Some? && |payload.value| == 64
                        && (forall i :: 0 <= i < 64 ==> IsAlphanumeric(payload.value[i]))
                        && c.requests[id].generation == c.generation;
            next == if c.requests[id].phase != InFlight then c
                    else Client(if good then payload else c.token, c.tracked, c.generation,
                                c.requests[id := Request(c.requests[id].generation, Settled,
                                                         if good then payload else None)])
  {
  }

  /** When its callback has run, a settled request is over and is no longer the tracked one. */
  lemma FinishedIsForgotten(c: Client, id: PromiseId)
    requires id < |c.requests|
    ensures c.requests[id].phase != Settled ==> Finish(c, id) == c
    ensures c.requests[id].phase == Settled ==>
            var next := Finish(c, id);
            next.requests == c.requests[id := Request(c.requests[id].generation, Finished, c.requests[id].answer)]
            && next.tracked != Some(id) && (c.tracked != Some(id) ==> next.tracked == c.tracked)
            && (next.tracked.Some? ==> next.tracked == c.tracked)
            && next.token == c.token && next.generation == c.generation
  {
  }

  // ----- the client object -----

  class ApiClient {
    var csrfToken: Option<CsrfToken>
    var csrfRequest: Option<PromiseId>
    var csrfGeneration: nat
    /** The promises this client has created, as the event loop knows them. */
    var requests: seq<Request>

    function State(): Client reads this { Client(csrfToken, csrfRequest, csrfGeneration, requests) }

    ghost predicate Valid() reads this { ClientInv(State()) }

    constructor ()
      ensures State() == FRESH && Valid()
    {
      csrfToken, csrfRequest, csrfGeneration, requests := None, None, 0, [];
    }

    method ClearCsrf()
      requires Valid()
      modifies this
      ensures State() == Clear(old(State())) && Valid()
      ensures State() == Step(old(State()), ClearEvent)
    {
      InitializeKeeps(State(), false);
      csrfGeneration := csrfGeneration + 1;
      csrfToken := None;
      csrfRequest := None;
    }

    method InitializeCsrf(force: bool) returns (r: Awaited)
      requires Valid()
      modifies this
      ensures (State(), r) == Initialize(old(State()), force) && Valid()
      ensures State() == Step(old(State()), InitializeEvent(force))
    {
      InitializeKeeps(State(), force);
      if force { ClearCsrf(); }
      if csrfToken.Some? && csrfToken.value != "" { return Cached(csrfToken.value); }
      if csrfRequest.Some? { return Pending(csrfRequest.value); }
      var pending := |requests|;
      requests := requests + [Request(csrfGeneration, InFlight, None)];
      csrfRequest := Some(pending);
      return Pending(pending);
    }

    method OnResponse(id: PromiseId, payload: Option<string>)
      requires Valid()
      modifies this
      ensures State() == Settle(old(State()), id, payload) && Valid()
      ensures State() == Step(old(State()), SettleEvent(id, payload))
    {
      SettleKeeps(State(), id, payload);
      if !Waiting(State(), id) { return; }
      var generation := requests[id].generation;
      if payload.None? || !IsCsrfToken(payload.value) || csrfGeneration != generation {
        requests := requests[id := requests[id].(phase := Settled, answer := None)];
        return;
      }
      csrfToken := payload;
      requests := requests[id := requests[id].(phase := Settled, answer := payload)];
    }

    method OnFinally(id: PromiseId)
      requires Valid()
      modifies this
      ensures State() == Finish(old(State()), id) && Valid()
      ensures State() == Step(old(State()), FinishEvent(id))
    {
      FinishKeeps(State(), id);
      if id >= |requests| || !requests[id].phase.Settled? { return; }
      requests := requests[id := requests[id].(phase := Finished)];
      if csrfRequest == Some(id) { csrfRequest := None; }
    }
  }
}
