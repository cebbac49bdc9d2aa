/** One submission attempt as a program counter (internal/execution/service.go). Every
    call to the store, the cache or the venue is one atomic step; between two steps any
    other attempt, a crash, a cache loss or a pruning pass may run. */
module Attempts {
  import opened Broker
  import opened Idempotency

  datatype Request = Request(tenantID: string, key: string, envelopeID: string, clientOrderID: string)
  {
    function Id(): Ident { Ident(tenantID, key) }
  }

  datatype SubmitError =
    | Invalid
    | KeyReused
    | StoreUnavailable
    | ClaimRefused(cause: ClaimError)
    | Unresolved
    | NotRecorded

  /** What Submit returns: an outcome alone, or an error beside an outcome that is not to be
      relied on. */
  datatype Result =
    | Success(outcome: Outcome)
    | Failure(error: SubmitError, partial: Outcome)

  datatype Attempt =
    | Entering(req: Request)
    | Claiming(req: Request)
    | Sending(req: Request)
    | Reconciling(req: Request, clientOrderID: string)
    | Resolving(req: Request, outcome: Outcome, asked: bool)
    | Caching(req: Request, entry: Record, result: Result)
    | Finished(req: Request, result: Result)
    | Crashed(req: Request)

  /** The shared state: the tables, the cache, every call of the venue's SubmitOrder so
      far, and, as history, the first outcome recorded for each identity. */
  datatype World = World(
    tables: Tables,
    cache: map<Ident, Record>,
    sends: seq<Request>,
    decided: map<Ident, Outcome>)

  const EMPTY_WORLD := World(EMPTY_TABLES, map[], [], map[])

  /** Everything the environment decides about one step. `storeUp` false is a store call
      that failed without effect, `replyLost` one that committed and was reported as
      failed, `cacheUp` false a cache that misses and drops. */
  datatype Choice = Choice(now: int, storeUp: bool, replyLost: bool, cacheUp: bool, answer: Answer)

  function Replay(o: Outcome): Outcome {
    o.(replayed := true)
  }

  predicate KnownState(s: ExecutionState) {
    !s.Unnamed?
  }

  /** A venue's order as a canonical outcome, or None when using it would corrupt the
      record. */
  predicate Usable(expected: string, order: BrokerOrder) {
    order.clientOrderID == expected && KnownState(order.state) && order.filledQuantity >= 0.0
  }

  function OutcomeFrom(order: BrokerOrder): Outcome {
    Outcome(order.state, order.clientOrderID, order.brokerOrderID, order.filledQuantity, order.rejectReason, false, false)
  }

  function RejectedOutcome(clientOrderID: string, reason: string): Outcome {
    Outcome(ExecutionState.Rejected, clientOrderID, "", 0.0, reason, false, false)
  }

  function UnknownOutcome(clientOrderID: string): Outcome {
    Outcome(ExecutionState.Unknown, clientOrderID, "", 0.0, "", false, false)
  }

  function NewRecord(req: Request, now: int): Record {
    Record(req.tenantID, req.key, req.envelopeID, req.clientOrderID, Pending, NO_OUTCOME, now, now)
  }

  /** The record `resolve` puts in the cache: it carries no envelope id. */
  function ResolvedEntry(req: Request, o: Outcome, now: int): Record {
    Record(req.tenantID, req.key, "", o.clientOrderID, Resolved, o, 0, now)
  }

  function Fail(req: Request, e: SubmitError): Attempt {
    Finished(req, Failure(e, NO_OUTCOME))
  }

  function Enter(w: World, req: Request, c: Choice): Attempt {
    if req.tenantID == "" || req.key == "" || req.clientOrderID == "" then
      Fail(req, Invalid)
    else if c.cacheUp && req.Id() in w.cache && w.cache[req.Id()].state.Resolved? then
      var cached := w.cache[req.Id()];
      if cached.envelopeID != "" && cached.envelopeID != req.envelopeID then
        Fail(req, KeyReused)
      else
        Finished(req, Success(Replay(cached.outcome)))
    else
      Claiming(req)
  }

  /** What a claim's answer leads to. */
  function AfterClaim(req: Request, result: ClaimResult): Attempt {
    match result
    case Claimed => Sending(req)
    case Refused(e) => Fail(req, ClaimRefused(e))
    case Existing(r) =>
      if r.envelopeID != "" && r.envelopeID != req.envelopeID then Fail(req, KeyReused)
      else if r.state.Resolved? then Caching(req, r, Success(Replay(r.outcome)))
      else Reconciling(req, r.clientOrderID)
  }

  /** What the venue's answer to SubmitOrder leads to. */
  function AfterSend(req: Request, answer: Answer): Attempt {
    match answer
    case Timeout => Reconciling(req, req.clientOrderID)
    case NotFound => Resolving(req, RejectedOutcome(req.clientOrderID, "not found"), false)
    case Failed(reason) => Resolving(req, RejectedOutcome(req.clientOrderID, reason), false)
    case Order(order) =>
      if Usable(req.clientOrderID, order) then Resolving(req, OutcomeFrom(order), false)
      else Reconciling(req, req.clientOrderID)
  }

  /** What the venue's answer to Reconcile leads to. */
  function AfterReconcile(req: Request, clientOrderID: string, answer: Answer): Attempt {
    if answer.Order? && Usable(clientOrderID, answer.order) then
      Resolving(req, OutcomeFrom(answer.order), true)
    else
      Finished(req, Failure(Unresolved, UnknownOutcome(clientOrderID)))
  }

  function RecordDecision(decided: map<Ident, Outcome>, t: Tables, id: Ident): map<Ident, Outcome>
    requires id in t.records
  {
    decided[id := t.records[id].outcome]
  }

  /** One atomic step of one attempt. A finished or crashed attempt takes none. */
  function Step(w: World, a: Attempt, c: Choice): (World, Attempt) {
    match a
    case Entering(req) =>
      (w, Enter(w, req, c))
    case Claiming(req) =>
      if !c.storeUp then
        (w, Fail(req, StoreUnavailable))
      else
        var (t, result) := Claim(w.tables, NewRecord(req, c.now));
        (w.(tables := t), if c.replyLost then Fail(req, StoreUnavailable) else AfterClaim(req, result))
    case Sending(req) =>
      (w.(sends := w.sends + [req]), AfterSend(req, c.answer))
    case Reconciling(req, coid) =>
      (w, AfterReconcile(req, coid, c.answer))
    case Resolving(req, o, asked) =>
      if !c.storeUp then
        (w, Finished(req, Failure(NotRecorded, o)))
      else
        var (t, ok) := Resolve(w.tables, req.Id(), o, c.now);
        var w' := if ok then w.(tables := t, decided := RecordDecision(w.decided, t, req.Id())) else w;
        if !ok || c.replyLost then
          (w', Finished(req, Failure(NotRecorded, o)))
        else
          (w', Caching(req, ResolvedEntry(req, o, c.now), Success(o.(reconciled := asked))))
    case Caching(req, entry, result) =>
      (if c.cacheUp then w.(cache := w.cache[entry.Id() := entry]) else w, Finished(req, result))
    case Finished(_, _) => (w, a)
    case Crashed(_) => (w, a)
  }
}
