/** The enforcement pipeline's stages around one submission (internal/gateway/pipeline.go):
    the checks, the reservation, the decision receipt, execution, and what is done with the
    reservation afterwards. Any number of pipelines run at once over one execution system and
    one ledger. */
module Pipeline {
  import opened Wrappers
  import opened Broker
  import opened Idempotency
  import opened Attempts
  import Exec = ExecutionRuns
  import opened Ledger

  /** What one call of Submit carries: the request, the grant it was loaded under, the
      notional when it can be determined, the reservation identity, and the instant it was
      received. */
  datatype Order = Order(req: Request, grant: Grant, notional: Option<Amount>, who: Identity, at: int)
  {
    function Id(): Ident { req.Id() }
  }

  datatype Stage =
    | Checking
    | Reserving
    | Recording
    | Executing
    | Settling(outcome: Outcome)
    | Releasing
    | Settled
    | Ended

  /** The execution system with one attempt per order, the ledger, and, as history, the
      order behind every call of the venue. */
  datatype System = System(
    exec: Exec.System,
    rows: Rows,
    orders: seq<Order>,
    stages: seq<Stage>,
    live: map<Ident, Order>)

  const INITIAL := System(Exec.INITIAL, map[], [], [], map[])

  /** What may happen next. `Check` reads the idempotency record (`seen` false is a read
      that failed) and runs the pre-checks, controls and policy (`refused` when one refuses).
      `up` false is a store that failed without effect; `lost` a commit reported as failed. */
  datatype Label =
    | Begin(order: Order)
    | Check(i: nat, seen: bool, refused: bool)
    | Hold(i: nat, up: bool, lost: bool)
    | Receipt(i: nat, committed: bool)
    | Execute(i: nat, choice: Choice)
    | Settlement(i: nat, up: bool)
    | Return(i: nat, up: bool)
    | Halt(i: nat)
    | CacheLoss(lostEntries: set<Ident>)
    | Retain(tenant: string, before: int, doomed: set<Ident>)

  /** The record says this key is another envelope's, or already has an outcome. */
  predicate StopsEarly(t: Tables, o: Order) {
    o.Id() in t.records &&
    ((t.records[o.Id()].envelopeID != "" && t.records[o.Id()].envelopeID != o.req.envelopeID) || t.records[o.Id()].state.Resolved?)
  }

  /** Where a finished execution leads. Only the refusals made before the venue return the
      reservation; an unknown outcome keeps it; a replay settles nothing. */
  function AfterExecution(result: Result): Stage {
    match result
    case Failure(KeyReused, _) => Releasing
    case Failure(ClaimRefused(EnvelopeReused), _) => Releasing
    case Failure(ClaimRefused(KeyRetired), _) => Releasing
    case Failure(_, _) => Ended
    case Success(o) => if o.replayed then Ended else Settling(o)
  }

  function SettlementState(o: Outcome): ReservationState {
    if o.state.Rejected? then ReservationState.Released else Committed
  }

  ghost predicate Enabled(s: System, l: Label) {
    match l
    case Begin(_) => true
    case Check(i, _, _) => i < |s.stages| && s.stages[i].Checking?
    case Hold(i, _, _) => i < |s.stages| && s.stages[i].Reserving?
    case Receipt(i, _) => i < |s.stages| && s.stages[i].Recording?
    case Execute(i, _) => i < |s.stages| && s.stages[i].Executing?
    case Settlement(i, _) => i < |s.stages| && s.stages[i].Settling?
    case Return(i, _) => i < |s.stages| && s.stages[i].Releasing?
    case Halt(i) => i < |s.stages| && !s.stages[i].Settled? && !s.stages[i].Ended?
    case CacheLoss(_) => true
    case Retain(tenant, before, doomed) => PruneBatch(s.exec.world.tables, tenant, before, doomed)
  }

  ghost predicate Shaped(s: System) {
    && |s.orders| == |s.stages| == |s.exec.attempts|
    && forall i :: 0 <= i < |s.orders| ==> s.exec.attempts[i].req == s.orders[i].req
  }

  ghost function ApplyCheck(s: System, i: nat, seen: bool, refused: bool): System
    requires Shaped(s) && i < |s.stages|
  {
    var o := s.orders[i];
    var stops := refused || o.grant.tenantID != o.req.tenantID || (seen && StopsEarly(s.exec.world.tables, o));
    s.(stages := s.stages[i := if stops then Ended else Reserving])
  }

  ghost function ApplyHold(s: System, i: nat, up: bool, lost: bool): System
    requires Shaped(s) && i < |s.stages|
  {
    var o := s.orders[i];
    if o.notional.None? then s.(stages := s.stages[i := Recording])
    else if !up then s.(stages := s.stages[i := Ended])
    else
      var (rows, decision) := Reserve(s.rows, o.grant, o.req.key, o.notional.value, o.who, o.at);
      s.(rows := rows, stages := s.stages[i := if decision.Allow? && !lost then Recording else Ended])
  }

  ghost function ApplyExecute(s: System, i: nat, c: Choice): System
    requires Shaped(s) && i < |s.stages|
  {
    var exec := Exec.Apply(s.exec, Exec.Advance(i, c));
    var stage := if exec.attempts[i].Finished? then AfterExecution(exec.attempts[i].result) else Executing;
    s.(exec := exec,
       stages := s.stages[i := stage],
       live := if s.exec.attempts[i].Sending? then s.live[s.orders[i].Id() := s.orders[i]] else s.live)
  }

  ghost function ApplySettlement(s: System, i: nat, up: bool): System
    requires Shaped(s) && i < |s.stages| && s.stages[i].Settling?
  {
    var o := s.stages[i].outcome;
    if !up then s.(stages := s.stages[i := Ended])
    else
      s.(rows := Settle(s.rows, s.orders[i].Id(), SettlementState(o), !o.state.Terminal(), s.orders[i].at),
         stages := s.stages[i := Settled])
  }

  ghost function Apply(s: System, l: Label): System
    requires Shaped(s)
  {
    if !Enabled(s, l) then s else
    match l
    case Begin(o) =>
      s.(exec := Exec.Apply(s.exec, Exec.Start(o.req)), orders := s.orders + [o], stages := s.stages + [Checking])
    case Check(i, seen, refused) => ApplyCheck(s, i, seen, refused)
    case Hold(i, up, lost) => ApplyHold(s, i, up, lost)
    case Receipt(i, committed) => s.(stages := s.stages[i := if committed then Executing else Releasing])
    case Execute(i, c) => ApplyExecute(s, i, c)
    case Settlement(i, up) => ApplySettlement(s, i, up)
    case Return(i, up) =>
      s.(rows := if up then Release(s.rows, s.orders[i].Id()) else s.rows, stages := s.stages[i := Ended])
    case Halt(i) => s.(exec := Exec.Apply(s.exec, Exec.Crash(i)), stages := s.stages[i := Ended])
    case CacheLoss(lost) => s.(exec := Exec.Apply(s.exec, Exec.CacheLoss(lost)))
    case Retain(tenant, before, doomed) => s.(exec := Exec.Apply(s.exec, Exec.Retain(tenant, before, doomed)))
  }

  lemma ApplyShaped(s: System, l: Label)
    requires Shaped(s)
    ensures Shaped(Apply(s, l))
  {
    if Enabled(s, l) && l.Execute? {
      StepKeepsRequest(s.exec.world, s.exec.attempts[l.i], l.choice);
    }
  }

  lemma StepKeepsRequest(w: World, a: Attempt, c: Choice)
    ensures Step(w, a, c).1.req == a.req
  {
  }
}
