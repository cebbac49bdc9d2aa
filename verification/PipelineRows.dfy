/** What settlement leaves in the ledger (internal/gateway/pipeline.go:775-810): which rows give
    their weight back, which stay open, and what the count of open rows then bounds. */
module PipelineRows {
  import opened Wrappers
  import opened Broker
  import opened Idempotency
  import opened Attempts
  import Exec = ExecutionRuns
  import opened ExecutionOutcomes
  import opened Ledger
  import opened LedgerSafety
  import opened Pipeline
  import opened PipelineSafety
  import opened PipelineExposure
  import opened PipelineReturns

  /** The order can change no more at the venue. */
  predicate Final(state: ExecutionState) {
    || state == ExecutionState.Filled || state == ExecutionState.Rejected
    || state == ExecutionState.Cancelled || state == ExecutionState.Expired
  }

  /** A row never settled is open; a settled one follows the outcome recorded for its key. */
  predicate RowTrue(e: Entry, decided: map<Ident, Outcome>, id: Ident) {
    if e.state == Reserved then
      e.open && e.closedAt == None
    else
      && id in decided
      && (e.state == ReservationState.Released <==> decided[id].state == ExecutionState.Rejected)
      && (e.open <==> !Final(decided[id].state))
      && (e.closedAt == None <==> e.open)
  }

  ghost predicate RowsTrue(s: System) {
    forall id :: id in s.rows ==> RowTrue(s.rows[id], s.exec.world.decided, id)
  }

  lemma DecidedKept(s: System, s': System)
    requires RowsTrue(s) && s'.rows == s.rows && Grows(s.exec.world, s'.exec.world)
    ensures RowsTrue(s')
  {
  }

  /** The row of the settling pipeline, if there is one: released exactly when the venue
      rejected the order, open exactly while the order can still change, closed at the
      pipeline's instant; and no other row. */
  lemma SettlementWrites(s: System, i: nat, grants: Grants)
    requires Safe(s, grants) && Enabled(s, Settlement(i, true))
    ensures var id, s', o := s.orders[i].Id(), Apply(s, Settlement(i, true)), s.stages[i].outcome;
      && id in s.exec.world.decided && s.exec.world.decided[id].state == o.state
      && s'.rows.Keys == s.rows.Keys && s'.exec == s.exec
      && (forall k :: k in s.rows && k != id ==> s'.rows[k] == s.rows[k])
      && (id in s.rows ==>
            && (s'.rows[id].state == ReservationState.Released <==> o.state == ExecutionState.Rejected)
            && (s'.rows[id].state == Committed <==> o.state != ExecutionState.Rejected)
            && (s'.rows[id].open <==> !Final(o.state))
            && s'.rows[id].closedAt == (if Final(o.state) then Some(s.orders[i].at) else None)
            && s'.rows[id].notional == s.rows[id].notional && s'.rows[id].grantID == s.rows[id].grantID)
  {
    assert InStep(s.stages[i], s.exec.attempts[i], s.orders[i]);
    assert Truthful(s.exec.world, s.exec.attempts[i]);
  }

  lemma RowsTrueSettlement(s: System, i: nat, up: bool, grants: Grants)
    requires Safe(s, grants) && RowsTrue(s) && Enabled(s, Settlement(i, up))
    ensures RowsTrue(Apply(s, Settlement(i, up)))
  {
    if up { SettlementWrites(s, i, grants); }
  }

  lemma RowsTrueHold(s: System, i: nat, up: bool, lost: bool)
    requires Shaped(s) && RowsTrue(s) && Enabled(s, Hold(i, up, lost))
    ensures RowsTrue(Apply(s, Hold(i, up, lost)))
  {
  }

  lemma RowsTrueElsewhere(s: System, l: Exec.Label, s': System)
    requires Sound(s.exec) && RowsTrue(s) && s'.rows == s.rows && s'.exec == Exec.Apply(s.exec, l)
    ensures RowsTrue(s')
  {
    ApplyGrows(s.exec, l);
    DecidedKept(s, s');
  }

  lemma RowsTrueApply(s: System, l: Label, grants: Grants)
    requires Safe(s, grants) && RowsTrue(s)
    ensures RowsTrue(Apply(s, l))
  {
    if Enabled(s, l) {
      match l
      case Begin(o) => RowsTrueElsewhere(s, Exec.Start(o.req), Apply(s, l));
      case Hold(i, up, lost) => RowsTrueHold(s, i, up, lost);
      case Execute(i, c) => RowsTrueElsewhere(s, Exec.Advance(i, c), Apply(s, l));
      case Settlement(i, up) => RowsTrueSettlement(s, i, up, grants);
      case Halt(i) => RowsTrueElsewhere(s, Exec.Crash(i), Apply(s, l));
      case CacheLoss(lost) => RowsTrueElsewhere(s, Exec.CacheLoss(lost), Apply(s, l));
      case Retain(tenant, before, doomed) => RowsTrueElsewhere(s, Exec.Retain(tenant, before, doomed), Apply(s, l));
      case _ =>
    }
  }

  /** In every run, whatever crashes and whatever is lost: a row that was settled is RELEASED
      if and only if its key's recorded outcome is a rejection, and open if and only if the
      recorded state is none of FILLED, REJECTED, CANCELLED and EXPIRED. */
  lemma {:induction false} RowsFollowOutcomes(labels: seq<Label>)
    ensures RowsTrue(PipelineSafety.Run(labels))
    decreases |labels|
  {
    if labels != [] {
      var before := labels[..|labels| - 1];
      RowsFollowOutcomes(before);
      SafeAlways(before, map[]);
      RowsTrueApply(PipelineSafety.Run(before), labels[|labels| - 1], map[]);
    }
  }

  // ---------------------------------------------------------------------------
  // Which orders go on
  // ---------------------------------------------------------------------------

  /** The key is already another envelope's, or has its outcome. */
  predicate AnsweredOrForeign(t: Tables, o: Order) {
    && o.Id() in t.records
    && (t.records[o.Id()].state == Resolved
        || (t.records[o.Id()].envelopeID != "" && t.records[o.Id()].envelopeID != o.req.envelopeID))
  }

  /** The checks let an order on to its reservation exactly when nothing refuses it, its grant
      is its own tenant's, and its key, where the record could be read, is neither. */
  lemma CheckedGoesOnExactly(s: System, i: nat, seen: bool, refused: bool)
    requires Shaped(s) && Enabled(s, Check(i, seen, refused))
    ensures var s', o := Apply(s, Check(i, seen, refused)), s.orders[i];
      && (s'.stages[i] == Reserving <==>
            !refused && o.grant.tenantID == o.req.tenantID && !(seen && AnsweredOrForeign(s.exec.world.tables, o)))
      && (s'.stages[i] == Reserving || s'.stages[i] == Ended)
      && s'.rows == s.rows && s'.exec == s.exec
  {
  }

  /** An order of known size goes on exactly when the ledger allowed it and said so; one of
      unknown size goes on and reserves nothing. */
  lemma HeldGoesOnExactly(s: System, i: nat, up: bool, lost: bool)
    requires Shaped(s) && Enabled(s, Hold(i, up, lost))
    ensures var s', o := Apply(s, Hold(i, up, lost)), s.orders[i];
      && (o.notional == None ==> s'.stages[i] == Recording && s'.rows == s.rows)
      && (o.notional.Some? ==>
            var (rows, decision) := Reserve(s.rows, o.grant, o.req.key, o.notional.value, o.who, o.at);
            && s'.rows == (if up then rows else s.rows)
            && (s'.stages[i] == Recording <==> up && !lost && decision == Allow)
            && (s'.stages[i] == Recording || s'.stages[i] == Ended))
  {
  }

  // ---------------------------------------------------------------------------
  // Which executions give the capacity back
  // ---------------------------------------------------------------------------

  /** The cache already answers the key for another envelope. */
  predicate CachedElsewhere(w: World, req: Request) {
    && req.Id() in w.cache && w.cache[req.Id()].state == Resolved
    && w.cache[req.Id()].envelopeID != "" && w.cache[req.Id()].envelopeID != req.envelopeID
  }

  /** The key is another envelope's or retired, or the envelope another key's. An envelope that
      is absent is not held against a retired record; a client order id in use is another
      refusal. */
  ghost predicate SpentElsewhere(t: Tables, req: Request) {
    if req.Id() in t.records then
      t.records[req.Id()].envelopeID != "" && t.records[req.Id()].envelopeID != req.envelopeID
    else if req.Id() in t.tombstones then true
    else if exists id :: id in t.tombstones && id.tenant == req.tenantID && t.tombstones[id].envelopeID == req.envelopeID then
      req.envelopeID != ""
    else
      && (exists id :: id in t.records && id.tenant == req.tenantID && t.records[id].envelopeID == req.envelopeID)
      && (forall id :: id in t.records && id.tenant == req.tenantID ==> t.records[id].clientOrderID != req.clientOrderID)
  }

  /** How an execution that ends in this step leaves its reservation. It is returned exactly
      when the key or the envelope was found spent elsewhere, by an answer that arrived; it is
      settled exactly by the attempt whose own outcome was recorded; and in every other case,
      the unknown outcome and the unavailable store among them, it is kept. */
  lemma ExecutionEndsExactly(w: World, a: Attempt, c: Choice)
    requires Consistent(w.tables) && Truthful(w, a) && !a.Finished? && Step(w, a, c).1.Finished?
    requires a.req.tenantID != "" && a.req.key != "" && a.req.clientOrderID != ""
    ensures var stage := AfterExecution(Step(w, a, c).1.result);
      && (stage == Releasing <==>
            || (a.Entering? && c.cacheUp && CachedElsewhere(w, a.req))
            || (a.Claiming? && c.storeUp && !c.replyLost && SpentElsewhere(w.tables, a.req)))
      && (stage.Settling? <==> a.Caching? && a.result.Success? && !a.result.outcome.replayed)
      && (stage.Settling? ==> stage.outcome == a.result.outcome)
      && (stage == Releasing || stage.Settling? || stage == Ended)
  {
    if a.Claiming? && c.storeUp && !c.replyLost {
      var r := NewRecord(a.req, c.now);
      assert r.Id() == a.req.Id() && r.envelopeID == a.req.envelopeID && r.clientOrderID == a.req.clientOrderID;
      ElsewhereIsRefused(w.tables, a.req, r);
    }
  }

  lemma ElsewhereIsRefused(t: Tables, req: Request, r: Record)
    requires Consistent(t) && r.Id() == req.Id() && r.envelopeID == req.envelopeID && r.clientOrderID == req.clientOrderID && r.tenantID != ""
    ensures SpentElsewhere(t, req) <==>
      match Claim(t, r).1
      case Claimed => false
      case Existing(held) => held.envelopeID != "" && held.envelopeID != req.envelopeID
      case Refused(e) => e == KeyRetired || e == EnvelopeReused
  {
    if req.Id() !in t.records && req.Id() !in t.tombstones {
      assert RetiredEnvelope(t, r) <==> RetiredEnvelopeElsewhere(t, r);
    }
  }

  // ---------------------------------------------------------------------------
  // What the open-order ceiling bounds
  // ---------------------------------------------------------------------------

  /** The recorded outcome, if there is one, can still change. */
  predicate MayChange(decided: map<Ident, Outcome>, id: Ident) {
    id !in decided || !Final(decided[id].state)
  }

  /** Orders sent under a grant that may still change at the venue and hold a row there. */
  ghost function WorkingHeld(s: System, tenant: string, grant: string): set<Ident> {
    set id | id in s.live && id.tenant == tenant && MayChange(s.exec.world.decided, id)
             && id in s.rows && s.rows[id].grantID == grant && s.rows[id].state != ReservationState.Released
  }

  /** In every run the held orders that may still change number at most the grant's ceiling of
      open orders. */
  lemma WorkingHeldBounded(labels: seq<Label>, grants: Grants, tenant: string, grant: string)
    requires AllKnown(labels, grants) && (tenant, grant) in grants && grants[(tenant, grant)].maxOpen > 0
    ensures |WorkingHeld(PipelineSafety.Run(labels), tenant, grant)| <= grants[(tenant, grant)].maxOpen
  {
    var s := PipelineSafety.Run(labels);
    SafeAlways(labels, grants);
    RowsFollowOutcomes(labels);
    assert Held(s.rows, tenant, grant, grants[(tenant, grant)]);
    SubsetSize(WorkingHeld(s, tenant, grant), OpenRows(s.rows, tenant, grant));
  }

  /** Orders of known size sent under a grant that may still change, held or not. */
  ghost function Working(s: System, tenant: string, grant: string): set<Ident> {
    set id | id in s.live && id.tenant == tenant && s.live[id].grant.grantID == grant && s.live[id].notional.Some?
             && MayChange(s.exec.world.decided, id)
  }

  /** And in every run whose releases are guarded, so do all orders of known size sent under
      the grant that may still change. */
  lemma WorkingBounded(labels: seq<Label>, grants: Grants, tenant: string, grant: string)
    requires AllKnown(labels, grants) && ReturnsGuarded(labels)
    requires (tenant, grant) in grants && grants[(tenant, grant)].maxOpen > 0
    ensures |Working(PipelineSafety.Run(labels), tenant, grant)| <= grants[(tenant, grant)].maxOpen
  {
    var s := PipelineSafety.Run(labels);
    CountedAlways(labels);
    WorkingHeldBounded(labels, grants, tenant, grant);
    forall id | id in Working(s, tenant, grant) ensures id in WorkingHeld(s, tenant, grant) {
      assert s.live[id].Id() == id;
      assert Covered(s.rows, s.live[id]) || KnownRejected(s.exec.world, id);
    }
    SubsetSize(Working(s, tenant, grant), WorkingHeld(s, tenant, grant));
  }
}
