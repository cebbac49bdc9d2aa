/** One submission through the gateway, stage by stage (internal/gateway/pipeline.go), over
    the ledger and the execution service. It is proved to be one uninterrupted run of the
    pipeline of Pipeline.dfy, beside any number of others. */
module Gateway {
  import opened Wrappers
  import opened Broker
  import opened Idempotency
  import opened Attempts
  import opened ExecutionService
  import opened Ledger
  import opened LedgerStore
  import opened Pipeline
  import opened SubmissionAnswers

  ghost function From(s: System, labels: seq<Label>): (s': System)
    requires Shaped(s)
    ensures Shaped(s')
    decreases |labels|
  {
    if labels == [] then s
    else
      ApplyShaped(s, labels[0]);
      From(Apply(s, labels[0]), labels[1..])
  }

  lemma {:induction false} FromThen(s: System, a: seq<Label>, b: seq<Label>)
    requires Shaped(s)
    ensures From(s, a + b) == From(From(s, a), b)
    decreases |a|
  {
    if a == [] {
      assert a + b == b;
    } else {
      ApplyShaped(s, a[0]);
      assert (a + b)[1..] == a[1..] + b;
      FromThen(Apply(s, a[0]), a[1..], b);
    }
  }

  lemma FromOne(s: System, l: Label)
    requires Shaped(s)
    ensures Shaped(Apply(s, l)) && From(s, [l]) == Apply(s, l)
  {
    ApplyShaped(s, l);
    assert [l][1..] == [];
  }

  /** Where pipeline `i` of a system stands. */
  ghost predicate Stands(s: System, i: nat, o: Order, stage: Stage, a: Attempt, w: World, rows: Rows) {
    && Shaped(s) && i < |s.stages|
    && s.orders[i] == o && s.stages[i] == stage && s.exec.attempts[i] == a && s.exec.world == w && s.rows == rows
  }

  ghost function Executes(i: nat, cs: seq<Choice>): seq<Label> {
    if cs == [] then [] else [Execute(i, cs[0])] + Executes(i, cs[1..])
  }

  /** Driving the attempt is executing the pipeline. */
  lemma {:induction false} ExecutesDrive(s: System, i: nat, o: Order, a: Attempt, w: World, rows: Rows, cs: seq<Choice>, w': World, result: Result)
    requires Stands(s, i, o, Executing, a, w, rows) && !a.Finished? && !a.Crashed? && a.req == o.req
    requires Drive(w, a, cs) == (w', Finished(o.req, result))
    ensures Stands(From(s, Executes(i, cs)), i, o, AfterExecution(result), Finished(o.req, result), w', rows)
    decreases |cs|
  {
    var l := Execute(i, cs[0]);
    var (w1, a1) := Step(w, a, cs[0]);
    var s1 := Apply(s, l);
    ApplyShaped(s, l);
    assert Executes(i, cs)[1..] == Executes(i, cs[1..]);
    StepKeepsRequest(w, a, cs[0]);
    StepAlive(w, a, cs[0]);
    if a1.Finished? {
      DriveFinished(w1, a1, cs[1..]);
      StandsStill(s1, i, cs[1..]);
    } else {
      assert Stands(s1, i, o, Executing, a1, w1, rows);
      ExecutesDrive(s1, i, o, a1, w1, rows, cs[1..], w', result);
    }
  }

  lemma StepAlive(w: World, a: Attempt, c: Choice)
    requires !a.Crashed?
    ensures !Step(w, a, c).1.Crashed?
  {
  }

  lemma {:induction false} DriveFinished(w: World, a: Attempt, cs: seq<Choice>)
    requires a.Finished?
    ensures Drive(w, a, cs) == (w, a)
    decreases |cs|
  {
    if cs != [] { DriveFinished(w, a, cs[1..]); }
  }

  lemma {:induction false} StandsStill(s: System, i: nat, cs: seq<Choice>)
    requires Shaped(s) && i < |s.stages| && !s.stages[i].Executing?
    ensures From(s, Executes(i, cs)) == s
    decreases |cs|
  {
    if cs != [] {
      assert Executes(i, cs)[1..] == Executes(i, cs[1..]);
      StandsStill(s, i, cs[1..]);
    }
  }

  /** The stage a pipeline has reached, and what it shares with the others. */
  ghost predicate Reaches(s: System, i: nat, stage: Stage, w: World, rows: Rows) {
    Shaped(s) && i < |s.stages| && s.stages[i] == stage && s.exec.world == w && s.rows == rows
  }

  lemma FromMore(s: System, labels: seq<Label>, l: Label)
    requires Shaped(s)
    ensures From(s, labels + [l]) == Apply(From(s, labels), l)
  {
    FromThen(s, labels, [l]);
    FromOne(From(s, labels), l);
  }

  /** What one submission is dealt at each stage by what it calls. */
  datatype Dealt = Dealt(seen: bool, refused: bool, holdUp: bool, lost: bool, committed: bool, endUp: bool, here: Surroundings)

  /** The label is pipeline `i`'s own, and what it was dealt. */
  predicate AsDealt(l: Label, i: nat, o: Order, d: Dealt) {
    match l
    case Begin(order) => order == o
    case Check(j, seen, refused) => j == i && seen == d.seen && refused == d.refused
    case Hold(j, up, lost) => j == i && up == d.holdUp && lost == d.lost
    case Receipt(j, committed) => j == i && committed == d.committed
    case Execute(j, c) => j == i && c == ChoiceOf(d.here, c.answer)
    case Settlement(j, up) => j == i && up == d.endUp
    case Return(j, up) => j == i && up == d.endUp
    case _ => false
  }

  predicate AllAsDealt(labels: seq<Label>, i: nat, o: Order, d: Dealt) {
    forall k :: 0 <= k < |labels| ==> AsDealt(labels[k], i, o, d)
  }

  lemma {:induction false} ExecutesAsDealt(i: nat, o: Order, d: Dealt, cs: seq<Choice>)
    requires Honest(cs, d.here)
    ensures AllAsDealt(Executes(i, cs), i, o, d)
    decreases |cs|
  {
    if cs != [] { ExecutesAsDealt(i, o, d, cs[1..]); }
  }

  /** Begun and checked. */
  lemma Admission(s: System, o: Order, seen: bool, refused: bool)
    requires Shaped(s)
    ensures var stops := refused || o.grant.tenantID != o.req.tenantID || (seen && StopsEarly(s.exec.world.tables, o));
      Stands(From(s, [Begin(o), Check(|s.stages|, seen, refused)]), |s.stages|, o, if stops then Ended else Reserving,
             Entering(o.req), s.exec.world, s.rows)
  {
    var i := |s.stages|;
    FromOne(s, Begin(o));
    FromMore(s, [Begin(o)], Check(i, seen, refused));
    assert [Begin(o)] + [Check(i, seen, refused)] == [Begin(o), Check(i, seen, refused)];
  }

  class Gateway {
    const usage: PostgresUsage
    const service: Service

    constructor (usage: PostgresUsage, service: Service)
      ensures this.usage == usage && this.service == service
    {
      this.usage, this.service := usage, service;
    }

    /** The world the machine of Pipeline.dfy shares among pipelines. */
    ghost predicate Shares(s: System)
      reads this, usage, service, service.store, service.cache
    {
      Shaped(s) && s.exec.world == service.State() && s.rows == usage.rows
    }

    /** Reads what the record says of the key. */
    method Stops(o: Order, seen: bool, refused: bool) returns (stops: bool)
      ensures stops == (refused || o.grant.tenantID != o.req.tenantID || (seen && StopsEarly(service.store.State(), o)))
    {
      if refused || o.grant.tenantID != o.req.tenantID { return true; }
      if !seen || o.Id() !in service.store.records { return false; }
      var r := service.store.records[o.Id()];
      return (r.envelopeID != "" && r.envelopeID != o.req.envelopeID) || r.state.Resolved?;
    }

    /** Holds the order's capacity, if its notional can be determined. */
    method Hold(o: Order, up: bool, lost: bool, ghost s: System, ghost i: nat) returns (held: bool)
      requires Shares(s) && Stands(s, i, o, Reserving, Entering(o.req), s.exec.world, s.rows)
      modifies usage
      ensures Stands(Apply(s, Pipeline.Label.Hold(i, up, lost)), i, o, if held then Recording else Ended, Entering(o.req), s.exec.world, usage.rows)
    {
      if o.notional.None? { return true; }
      var decision := usage.Reserve(o.grant, o.req.key, o.notional.value, o.who, o.at, up);
      return decision == Some(Decision.Allow) && !lost;
    }

    /** Submits one order, stage by stage. Whatever the other pipelines of the system are in
        the middle of, the effect is that of `labels`, so everything proved of every run of
        the pipelines holds of it; and the labels are its own, each as it was dealt. */
    method Submit(o: Order, now: int, seen: bool, refused: bool, holdUp: bool, lost: bool, committed: bool, endUp: bool, ghost s: System)
      returns (stage: Stage, ghost labels: seq<Label>)
      requires service.Valid() && Shares(s)
      modifies usage, service, service.store, service.cache, service.venue
      ensures service.Valid()
      ensures stage.Settled? || stage.Ended?
      ensures Reaches(From(s, labels), |s.stages|, stage, service.State(), usage.rows)
      ensures AllAsDealt(labels, |s.stages|, o, Dealt(seen, refused, holdUp, lost, committed, endUp, old(service.Here(now))))
    {
      ghost var i := |s.stages|;
      labels := [Begin(o), Check(i, seen, refused)];
      Admission(s, o, seen, refused);
      var stops := Stops(o, seen, refused);
      if stops { return Ended, labels; }
      ghost var rest;
      stage, rest := HoldAndAct(o, now, holdUp, lost, committed, endUp, From(s, labels), i,
                                Dealt(seen, refused, holdUp, lost, committed, endUp, service.Here(now)));
      FromThen(s, labels, rest);
      labels := labels + rest;
    }

    /** The reservation, and on from there if it holds. */
    method HoldAndAct(o: Order, now: int, holdUp: bool, lost: bool, committed: bool, endUp: bool, ghost s: System, ghost i: nat, ghost d: Dealt)
      returns (stage: Stage, ghost labels: seq<Label>)
      requires service.Valid() && Stands(s, i, o, Reserving, Entering(o.req), service.State(), usage.rows)
      requires d == Dealt(d.seen, d.refused, holdUp, lost, committed, endUp, service.Here(now))
      modifies usage, service, service.store, service.cache, service.venue
      ensures service.Valid()
      ensures stage.Settled? || stage.Ended?
      ensures Reaches(From(s, labels), i, stage, service.State(), usage.rows)
      ensures AllAsDealt(labels, i, o, d)
    {
      var held := Hold(o, holdUp, lost, s, i);
      FromOne(s, Pipeline.Label.Hold(i, holdUp, lost));
      labels := [Pipeline.Label.Hold(i, holdUp, lost)];
      if !held { return Ended, labels; }
      ghost var rest;
      stage, rest := Act(o, now, committed, endUp, From(s, labels), i, d);
      FromThen(s, labels, rest);
      labels := labels + rest;
    }

    /** The durable boundary, the order itself, and what follows. */
    method Act(o: Order, now: int, committed: bool, endUp: bool, ghost s: System, ghost i: nat, ghost d: Dealt) returns (stage: Stage, ghost labels: seq<Label>)
      requires service.Valid() && Stands(s, i, o, Recording, Entering(o.req), service.State(), usage.rows)
      requires d.committed == committed && d.endUp == endUp && d.here == service.Here(now)
      modifies usage, service, service.store, service.cache, service.venue
      ensures service.Valid()
      ensures stage.Settled? || stage.Ended?
      ensures Reaches(From(s, labels), i, stage, service.State(), usage.rows)
      ensures AllAsDealt(labels, i, o, d)
    {
      FromOne(s, Receipt(i, committed));
      ghost var s1 := Apply(s, Receipt(i, committed));
      if !committed {
        usage.Release(o.Id(), endUp);
        FromMore(s, [Receipt(i, committed)], Return(i, endUp));
        return Ended, [Receipt(i, committed)] + [Return(i, endUp)];
      }
      ghost var rest;
      stage, rest := Execute(o, now, endUp, s1, i, d);
      FromThen(s, [Receipt(i, committed)], rest);
      labels := [Receipt(i, committed)] + rest;
    }

    /** The order itself, and what follows it. */
    method Execute(o: Order, now: int, endUp: bool, ghost s: System, ghost i: nat, ghost d: Dealt) returns (stage: Stage, ghost labels: seq<Label>)
      requires service.Valid() && Stands(s, i, o, Executing, Entering(o.req), service.State(), usage.rows)
      requires d.endUp == endUp && d.here == service.Here(now)
      modifies usage, service, service.store, service.cache, service.venue
      ensures service.Valid()
      ensures stage.Settled? || stage.Ended?
      ensures Reaches(From(s, labels), i, stage, service.State(), usage.rows)
      ensures AllAsDealt(labels, i, o, d)
    {
      var result, cs := service.Submit(o.req, now);
      ExecutesDrive(s, i, o, Entering(o.req), s.exec.world, s.rows, cs, service.State(), result);
      ExecutesAsDealt(i, o, d, cs);
      ghost var last;
      stage, last := Conclude(o, result, endUp, From(s, Executes(i, cs)), i, Finished(o.req, result));
      FromThen(s, Executes(i, cs), last);
      labels := Executes(i, cs) + last;
    }

    /** What is done with the reservation once execution has answered. */
    method Conclude(o: Order, result: Result, up: bool, ghost s: System, ghost i: nat, ghost a: Attempt) returns (stage: Stage, ghost last: seq<Label>)
      requires Stands(s, i, o, AfterExecution(result), a, s.exec.world, usage.rows)
      modifies usage
      ensures Reaches(From(s, last), i, stage, s.exec.world, usage.rows)
      ensures stage.Settled? || stage.Ended?
      ensures last == match AfterExecution(result)
                      case Releasing => [Return(i, up)]
                      case Settling(_) => [Settlement(i, up)]
                      case _ => []
    {
      ghost var before := usage.rows;
      match AfterExecution(result)
      case Releasing =>
        usage.Release(o.Id(), up);
        FromOne(s, Return(i, up));
        return Ended, [Return(i, up)];
      case Settling(outcome) =>
        usage.Settle(o.Id(), SettlementState(outcome), !outcome.state.Terminal(), o.at, up);
        FromOne(s, Settlement(i, up));
        return if up then Settled else Ended, [Settlement(i, up)];
      case _ =>
        return Ended, [];
    }
  }
}
