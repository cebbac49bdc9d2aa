/** Returning capacity: exactly when one release keeps every live order counted, what a caller
    can check to know it, and the runs in which every order that may be live stays counted. */
module PipelineReturns {
  import opened Broker
  import opened Idempotency
  import opened Attempts
  import Exec = ExecutionRuns
  import opened ExecutionOutcomes
  import opened Ledger
  import opened LedgerSafety
  import opened Pipeline
  import opened PipelineSafety
  import opened PipelineExposure

  // ---------------------------------------------------------------------------
  // What relies on a reservation
  // ---------------------------------------------------------------------------

  /** An order that was sent and is not known refused, or another pipeline on its way with
      the identity's reservation in hand. */
  ghost predicate Relied(s: System, id: Ident)
    requires Shaped(s)
  {
    || (SentSized(s, id) && !KnownRejected(s.exec.world, id))
    || (exists i :: Heading(s, i) && s.orders[i].Id() == id && !Spent(s.exec.world.tables, id))
    || (exists i :: AtVenue(s, i) && s.orders[i].Id() == id && !KnownRejected(s.exec.world, id))
  }

  /** An order of determinable notional was sent under the identity. */
  ghost predicate SentSized(s: System, id: Ident) {
    id in s.live && s.live[id].notional.Some?
  }

  predicate HeldRow(rows: Rows, id: Ident) {
    id in rows && rows[id].state.Reserved?
  }

  lemma ReturnRows(s: System, i: nat)
    requires Shaped(s) && Enabled(s, Return(i, true))
    ensures var s' := Apply(s, Return(i, true)); var id := s.orders[i].Id();
      && Shaped(s') && s'.exec == s.exec && s'.live == s.live && s'.orders == s.orders
      && (forall j :: Heading(s', j) <==> Heading(s, j))
      && (forall j :: AtVenue(s', j) <==> AtVenue(s, j))
      && (forall o: Order :: o.Id() != id ==> (Covered(s'.rows, o) <==> Covered(s.rows, o)))
      && (id in s'.rows <==> id in s.rows && !s.rows[id].state.Reserved?)
      && (id in s'.rows ==> s'.rows == s.rows)
  {
  }

  /** One release keeps the count exactly when it finds no RESERVED row or nothing relies on
      the row it deletes. */
  lemma ReliedExactly(s: System, i: nat)
    requires Shaped(s) && Counted(s) && Enabled(s, Return(i, true))
    ensures Shaped(Apply(s, Return(i, true)))
    ensures Counted(Apply(s, Return(i, true))) <==> !HeldRow(s.rows, s.orders[i].Id()) || !Relied(s, s.orders[i].Id())
  {
    var s' := Apply(s, Return(i, true));
    var id := s.orders[i].Id();
    ReturnRows(s, i);
    if HeldRow(s.rows, id) {
      assert forall o: Order :: o.Id() == id ==> !Covered(s'.rows, o);
      if Relied(s, id) {
        ReliedLosesCount(s, s', id);
      } else {
        ReturnSafeCounted(s, s', id);
      }
    } else {
      ReturnUnchanged(s, s', i);
    }
  }

  lemma ReturnUnchanged(s: System, s': System, i: nat)
    requires Shaped(s) && Shaped(s') && Counted(s)
    requires s'.exec == s.exec && s'.live == s.live && s'.orders == s.orders && s'.rows == s.rows
    requires forall j :: Heading(s', j) <==> Heading(s, j)
    requires forall j :: AtVenue(s', j) <==> AtVenue(s, j)
    ensures Counted(s')
  {
  }

  lemma ReliedLosesCount(s: System, s': System, id: Ident)
    requires Shaped(s) && Shaped(s') && Counted(s) && Relied(s, id)
    requires s'.exec == s.exec && s'.live == s.live && s'.orders == s.orders
    requires forall j :: Heading(s', j) <==> Heading(s, j)
    requires forall j :: AtVenue(s', j) <==> AtVenue(s, j)
    requires forall o: Order :: o.Id() == id ==> !Covered(s'.rows, o)
    ensures !Counted(s')
  {
    if id in s.live && s.live[id].notional.Some? && !KnownRejected(s.exec.world, id) {
      assert s.live[id].Id() == id;
      assert !LiveCounted(s');
    } else if exists j :: Heading(s, j) && s.orders[j].Id() == id && !Spent(s.exec.world.tables, id) {
      var j :| Heading(s, j) && s.orders[j].Id() == id && !Spent(s.exec.world.tables, id);
      assert Heading(s', j);
      assert !HeadingCounted(s');
    } else {
      var j :| AtVenue(s, j) && s.orders[j].Id() == id && !KnownRejected(s.exec.world, id);
      assert AtVenue(s', j);
      assert !VenueCounted(s');
    }
  }

  lemma ReturnSafeCounted(s: System, s': System, id: Ident)
    requires Shaped(s) && Shaped(s') && Counted(s) && !Relied(s, id)
    requires s'.exec == s.exec && s'.live == s.live && s'.orders == s.orders
    requires forall j :: Heading(s', j) <==> Heading(s, j)
    requires forall j :: AtVenue(s', j) <==> AtVenue(s, j)
    requires forall o: Order :: o.Id() != id ==> (Covered(s'.rows, o) <==> Covered(s.rows, o))
    ensures Counted(s')
  {
    forall j | Heading(s', j) ensures Covered(s'.rows, s'.orders[j]) || Spent(s'.exec.world.tables, s'.orders[j].Id()) {
      assert Heading(s, j);
    }
    forall j | AtVenue(s', j) ensures Covered(s'.rows, s'.orders[j]) || KnownRejected(s'.exec.world, s'.orders[j].Id()) {
      assert AtVenue(s, j);
    }
    forall k | k in s'.live && s'.live[k].notional.Some? ensures Covered(s'.rows, s'.live[k]) || KnownRejected(s'.exec.world, k) {
      assert s.live[k].Id() == k;
    }
  }

  // ---------------------------------------------------------------------------
  // What a caller can check
  // ---------------------------------------------------------------------------

  /** The idempotency tables say the venue refused the identity's order. */
  predicate RecordedRejected(t: Tables, id: Ident) {
    || (id in t.records && t.records[id].state.Resolved? && t.records[id].outcome.state.Rejected?)
    || (id in t.tombstones && t.tombstones[id].finalState.Rejected?)
  }

  /** No other pipeline of the identity is between its first and its last stage. */
  ghost predicate AloneInFlight(s: System, i: nat)
    requires Shaped(s) && i < |s.stages|
  {
    forall j :: 0 <= j < |s.stages| && j != i && s.orders[j].Id() == s.orders[i].Id() ==> s.stages[j].Ended? || s.stages[j].Settled?
  }

  lemma RejectedIsRecorded(s: System, id: Ident)
    requires Sound(s.exec)
    ensures KnownRejected(s.exec.world, id) <==> RecordedRejected(s.exec.world.tables, id)
  {
  }

  /** A key ever sent is recorded or retired. */
  lemma SentIsSpent(s: System, id: Ident)
    requires Sound(s.exec) && LiveIsSent(s.live, s.exec.world) && id in s.live
    ensures Spent(s.exec.world.tables, id)
  {
    var k :| 0 <= k < |s.exec.world.sends| && s.exec.world.sends[k].Id() == id;
    assert Exec.FiledUnder(s.exec.world.tables, s.exec.world.sends[k]);
  }

  lemma AloneUnrelied(s: System, i: nat)
    requires Shaped(s) && i < |s.stages| && s.stages[i].Releasing? && AloneInFlight(s, i)
    ensures forall j :: Heading(s, j) || AtVenue(s, j) ==> s.orders[j].Id() != s.orders[i].Id()
  {
  }

  /** Exactly when a release by the only pipeline of its identity keeps every live order
      counted: there is no RESERVED row, or the identity is neither recorded nor retired,
      or it is recorded as rejected, or no order of known size was ever sent under it. */
  lemma ReturnKeepsCountExactly(s: System, i: nat)
    requires Shaped(s) && Sound(s.exec) && Counted(s) && Enabled(s, Return(i, true)) && AloneInFlight(s, i)
    ensures Shaped(Apply(s, Return(i, true)))
    ensures var id := s.orders[i].Id(); var t := s.exec.world.tables;
      Counted(Apply(s, Return(i, true))) <==>
        !HeldRow(s.rows, id) || !Spent(t, id) || RecordedRejected(t, id) || !SentSized(s, id)
  {
    var id := s.orders[i].Id();
    ReliedExactly(s, i);
    AloneUnrelied(s, i);
    RejectedIsRecorded(s, id);
    if id in s.live { SentIsSpent(s, id); }
  }

  /** What a caller can look up before it releases: the identity's record, and that no other
      pipeline of it is under way. */
  ghost predicate Checked(s: System, i: nat)
    requires Shaped(s) && i < |s.stages|
  {
    && AloneInFlight(s, i)
    && (!Spent(s.exec.world.tables, s.orders[i].Id()) || RecordedRejected(s.exec.world.tables, s.orders[i].Id()))
  }

  /** The check is enough. */
  lemma CheckedReturnCounts(s: System, i: nat)
    requires Shaped(s) && Sound(s.exec) && Counted(s) && Enabled(s, Return(i, true)) && Checked(s, i)
    ensures Shaped(Apply(s, Return(i, true))) && Counted(Apply(s, Return(i, true)))
  {
    ReturnKeepsCountExactly(s, i);
  }

  /** Without it, whatever else is under way: releasing the RESERVED row of an identity that
      is recorded or retired, was sent, and is not recorded as rejected loses a live order. */
  lemma UncheckedReturnLoses(s: System, i: nat)
    requires Shaped(s) && Sound(s.exec) && Counted(s) && Enabled(s, Return(i, true))
    requires var id := s.orders[i].Id(); HeldRow(s.rows, id) && SentSized(s, id) && !RecordedRejected(s.exec.world.tables, id)
    ensures Spent(s.exec.world.tables, s.orders[i].Id())
    ensures Shaped(Apply(s, Return(i, true))) && !Counted(Apply(s, Return(i, true)))
  {
    ReliedExactly(s, i);
    RejectedIsRecorded(s, s.orders[i].Id());
    SentIsSpent(s, s.orders[i].Id());
  }

  // ---------------------------------------------------------------------------
  // Who sent what
  // ---------------------------------------------------------------------------

  /** The attempt has called the venue, or can no longer end in a refusal before it. */
  predicate PastVenue(a: Attempt) {
    || a.Reconciling? || a.Resolving? || a.Crashed?
    || (a.Caching? && a.result.Success?)
    || (a.Finished? && !AfterExecution(a.result).Releasing?)
  }

  /** Every call of the venue is some attempt's, and that attempt is past it. */
  ghost predicate SendersPast(s: Exec.System) {
    forall k :: 0 <= k < |s.world.sends| ==> SentPast(s, s.world.sends[k].Id())
  }

  ghost predicate SentPast(s: Exec.System, id: Ident) {
    exists i :: PastSender(s, i, id)
  }

  ghost predicate PastSender(s: Exec.System, i: int, id: Ident) {
    0 <= i < |s.attempts| && s.attempts[i].req.Id() == id && PastVenue(s.attempts[i])
  }

  lemma PastVenueStays(w: World, a: Attempt, c: Choice)
    ensures PastVenue(a) ==> PastVenue(Step(w, a, c).1)
    ensures a.Sending? ==> PastVenue(Step(w, a, c).1) && Step(w, a, c).0.sends == w.sends + [a.req]
    ensures !a.Sending? ==> Step(w, a, c).0.sends == w.sends
    ensures Step(w, a, c).1.req == a.req
  {
  }

  lemma SendersStep(s: Exec.System, i: nat, c: Choice)
    requires SendersPast(s) && i < |s.attempts|
    ensures SendersPast(Exec.Apply(s, Exec.Advance(i, c)))
  {
    var s' := Exec.Apply(s, Exec.Advance(i, c));
    PastVenueStays(s.world, s.attempts[i], c);
    forall k | 0 <= k < |s'.world.sends| ensures SentPast(s', s'.world.sends[k].Id()) {
      var id := s'.world.sends[k].Id();
      if k < |s.world.sends| {
        assert SentPast(s, id);
        var j :| PastSender(s, j, id);
        assert PastSender(s', j, id);
      } else {
        assert PastSender(s', i, id);
      }
    }
  }

  /** Attempts only added or moved past the venue, and no send. */
  lemma SendersKept(s: Exec.System, s': Exec.System)
    requires SendersPast(s) && s'.world.sends == s.world.sends && |s.attempts| <= |s'.attempts|
    requires forall i :: 0 <= i < |s.attempts| ==> s'.attempts[i].req == s.attempts[i].req && (PastVenue(s.attempts[i]) ==> PastVenue(s'.attempts[i]))
    ensures SendersPast(s')
  {
    forall k | 0 <= k < |s'.world.sends| ensures SentPast(s', s'.world.sends[k].Id()) {
      var id := s.world.sends[k].Id();
      assert SentPast(s, id);
      var j :| PastSender(s, j, id);
      assert PastSender(s', j, id);
    }
  }

  lemma SendersApply(s: Exec.System, l: Exec.Label)
    requires SendersPast(s)
    ensures SendersPast(Exec.Apply(s, l))
  {
    if Exec.Enabled(s, l) {
      if l.Advance? { SendersStep(s, l.i, l.choice); } else { SendersKept(s, Exec.Apply(s, l)); }
    }
  }

  /** A pipeline about to release never called the venue itself. */
  ghost predicate ReleasersUnsent(s: System)
    requires Shaped(s)
  {
    forall i :: 0 <= i < |s.stages| && s.stages[i].Releasing? ==> !PastVenue(s.exec.attempts[i])
  }

  ghost predicate Traced(s: System)
    requires Shaped(s)
  {
    SendersPast(s.exec) && ReleasersUnsent(s)
  }

  lemma TracedApply(s: System, l: Label, grants: Grants)
    requires Safe(s, grants) && Traced(s)
    ensures Shaped(Apply(s, l)) && Traced(Apply(s, l))
  {
    ApplyShaped(s, l);
    if Enabled(s, l) {
      match l
      case Begin(o) => SendersApply(s.exec, Exec.Start(o.req));
      case Execute(i, c) =>
        SendersApply(s.exec, Exec.Advance(i, c));
        ExecutedUnsent(s, i, c);
      case Halt(i) => SendersApply(s.exec, Exec.Crash(i));
      case CacheLoss(lost) => SendersApply(s.exec, Exec.CacheLoss(lost));
      case Retain(tenant, before, doomed) => SendersApply(s.exec, Exec.Retain(tenant, before, doomed));
      case _ => StageMovesUnsent(s, l, grants);
    }
  }

  lemma StageMovesUnsent(s: System, l: Label, grants: Grants)
    requires Safe(s, grants) && ReleasersUnsent(s) && Enabled(s, l)
    requires l.Check? || l.Hold? || l.Receipt? || l.Settlement? || l.Return?
    ensures Shaped(Apply(s, l)) && Apply(s, l).exec == s.exec && ReleasersUnsent(Apply(s, l))
  {
    assert InStep(s.stages[l.i], s.exec.attempts[l.i], s.orders[l.i]);
  }

  lemma ExecutedUnsent(s: System, i: nat, c: Choice)
    requires Shaped(s) && ReleasersUnsent(s) && Enabled(s, Execute(i, c)) && Shaped(Apply(s, Execute(i, c)))
    ensures ReleasersUnsent(Apply(s, Execute(i, c)))
  {
  }

  // ---------------------------------------------------------------------------
  // Runs
  // ---------------------------------------------------------------------------

  /** The orders begun, in order. */
  function Begun(labels: seq<Label>): seq<Order>
    decreases |labels|
  {
    if labels == [] then []
    else
      var l := labels[|labels| - 1];
      Begun(labels[..|labels| - 1]) + if l.Begin? then [l.order] else []
  }

  lemma {:induction false} BegunIsOrders(labels: seq<Label>)
    ensures PipelineSafety.Run(labels).orders == Begun(labels)
    decreases |labels|
  {
    if labels != [] {
      BegunIsOrders(labels[..|labels| - 1]);
      ApplyOrders(PipelineSafety.Run(labels[..|labels| - 1]), labels[|labels| - 1]);
    }
  }

  lemma ApplyOrders(s: System, l: Label)
    requires Shaped(s)
    ensures Apply(s, l).orders == s.orders + if l.Begin? then [l.order] else []
  {
  }

  /** No other order of the i-th order's identity has been begun. */
  predicate BegunAlone(orders: seq<Order>, i: nat) {
    forall j :: 0 <= j < |orders| && j != i && i < |orders| ==> orders[j].Id() != orders[i].Id()
  }

  /** The only pipeline ever of its identity releases safely, whatever made it release. */
  lemma LoneReturnCounts(s: System, i: nat)
    requires Shaped(s) && Counted(s) && Traced(s) && Enabled(s, Return(i, true)) && BegunAlone(s.orders, i)
    ensures Shaped(Apply(s, Return(i, true))) && Counted(Apply(s, Return(i, true)))
  {
    var id := s.orders[i].Id();
    ReliedExactly(s, i);
    if id in s.live {
      var k :| 0 <= k < |s.exec.world.sends| && s.exec.world.sends[k].Id() == id;
      assert SentPast(s.exec, id);
      var j :| PastSender(s.exec, j, id);
      assert s.exec.attempts[j].req == s.orders[j].req;
      assert j == i;
    }
    AloneUnrelied(s, i);
  }

  /** Every release of the run is one its caller may make: either the labels alone show that
      no other order of its identity was ever begun, or the check above passes. */
  ghost predicate ReturnsGuarded(labels: seq<Label>)
    decreases |labels|
  {
    labels == [] ||
    var before, l := labels[..|labels| - 1], labels[|labels| - 1];
    && ReturnsGuarded(before)
    && (l.Return? && l.up && Enabled(PipelineSafety.Run(before), l) ==>
          BegunAlone(Begun(before), l.i) || Checked(PipelineSafety.Run(before), l.i))
  }

  lemma CountedApply(s: System, l: Label)
    requires Safe(s, map[]) && Counted(s) && Traced(s)
    requires l.Return? && l.up && Enabled(s, l) ==> BegunAlone(s.orders, l.i) || Checked(s, l.i)
    ensures Shaped(Apply(s, l)) && Counted(Apply(s, l))
  {
    ApplyShaped(s, l);
    if Enabled(s, l) {
      match l
      case Begin(o) => CountedBegin(s, o, map[]);
      case Check(i, seen, refused) =>
        var o := s.orders[i];
        var stops := refused || o.grant.tenantID != o.req.tenantID || (seen && StopsEarly(s.exec.world.tables, o));
        CountedStage(s, i, if stops then Ended else Reserving);
      case Hold(i, up, lost) => CountedHold(s, i, up, lost, map[]);
      case Receipt(i, committed) => CountedReceipt(s, i, committed, map[]);
      case Execute(i, c) => CountedExecute(s, i, c, map[]);
      case Settlement(i, up) => CountedSettlement(s, i, up, map[]);
      case Return(i, up) =>
        if !up { CountedStage(s, i, Ended); }
        else if BegunAlone(s.orders, i) { LoneReturnCounts(s, i); }
        else { CheckedReturnCounts(s, i); }
      case Halt(i) => CountedHalt(s, i, map[]);
      case CacheLoss(lost) => CountedElsewhere(s, Exec.CacheLoss(lost), map[]);
      case Retain(tenant, before, doomed) => CountedElsewhere(s, Exec.Retain(tenant, before, doomed), map[]);
    }
  }

  lemma {:induction false} CountedAlways(labels: seq<Label>)
    requires ReturnsGuarded(labels)
    ensures Counted(PipelineSafety.Run(labels)) && Traced(PipelineSafety.Run(labels))
    decreases |labels|
  {
    if labels != [] {
      var before := labels[..|labels| - 1];
      CountedAlways(before);
      SafeAlways(before, map[]);
      BegunIsOrders(before);
      CountedApply(PipelineSafety.Run(before), labels[|labels| - 1]);
      TracedApply(PipelineSafety.Run(before), labels[|labels| - 1], map[]);
    }
  }

  /** Every call ever made to the venue for an order of determinable notional is matched by a
      non-released row for exactly that order under its grant, or its outcome is a recorded
      rejection. */
  ghost predicate AllCounted(s: System) {
    forall k :: 0 <= k < |s.exec.world.sends| ==>
      var req := s.exec.world.sends[k];
      && req.Id() in s.live && s.live[req.Id()].req == req
      && (s.live[req.Id()].notional.Some? ==> Covered(s.rows, s.live[req.Id()]) || RecordedRejected(s.exec.world.tables, req.Id()))
  }

  /** So it is in every run whose releases are guarded. */
  lemma EveryLiveOrderCounted(labels: seq<Label>)
    requires ReturnsGuarded(labels)
    ensures AllCounted(PipelineSafety.Run(labels))
  {
    CountedAlways(labels);
    SafeAlways(labels, map[]);
    var s := PipelineSafety.Run(labels);
    forall k | 0 <= k < |s.exec.world.sends|
      ensures var req := s.exec.world.sends[k];
        && req.Id() in s.live && s.live[req.Id()].req == req
        && (s.live[req.Id()].notional.Some? ==> Covered(s.rows, s.live[req.Id()]) || RecordedRejected(s.exec.world.tables, req.Id()))
    {
      RejectedIsRecorded(s, s.exec.world.sends[k].Id());
    }
  }

  /** Each identity is begun at most once: no retries. */
  predicate BegunOnce(labels: seq<Label>) {
    forall j, k :: 0 <= j < k < |Begun(labels)| ==> Begun(labels)[j].Id() != Begun(labels)[k].Id()
  }

  lemma {:induction false} OnceIsGuarded(labels: seq<Label>)
    requires BegunOnce(labels)
    ensures ReturnsGuarded(labels)
    decreases |labels|
  {
    if labels != [] {
      var before := labels[..|labels| - 1];
      var orders := Begun(before);
      assert forall j :: 0 <= j < |orders| ==> Begun(labels)[j] == orders[j];
      OnceIsGuarded(before);
    }
  }

  /** And outright in every run without retries, whatever fails in it: crashes, lost replies,
      refused receipts, lost settlements, pruning. */
  lemma EveryFirstAttemptCounted(labels: seq<Label>)
    requires BegunOnce(labels)
    ensures AllCounted(PipelineSafety.Run(labels))
  {
    OnceIsGuarded(labels);
    EveryLiveOrderCounted(labels);
  }

  // ---------------------------------------------------------------------------
  // What the ceiling finally bounds
  // ---------------------------------------------------------------------------

  /** Orders sent under a grant, not known refused, whose capacity was reserved in
      (w - 1h, w]. */
  ghost function Exposed(s: System, tenant: string, grant: string, w: int): set<Ident> {
    set id | id in s.live && id.tenant == tenant && s.live[id].grant.grantID == grant && s.live[id].notional.Some?
             && !KnownRejected(s.exec.world, id) && id in s.rows && w - HOUR < s.rows[id].submittedAt <= w
  }

  /** Their notional, from the orders themselves. */
  ghost function Exposure(live: map<Ident, Order>, sel: set<Ident>): int
    requires forall id :: id in sel ==> id in live && live[id].notional.Some?
    decreases |sel|
  {
    if sel == {} then 0
    else
      var id :| id in sel;
      live[id].notional.value + Exposure(live, sel - {id})
  }

  lemma {:induction false} ExposureIsTotal(live: map<Ident, Order>, rows: Rows, sel: set<Ident>)
    requires forall id :: id in sel ==> id in live && live[id].notional.Some? && id in rows && rows[id].notional == live[id].notional.value
    ensures sel <= rows.Keys
    ensures Exposure(live, sel) == Total(rows, sel)
    decreases |sel|
  {
    if sel != {} {
      var id :| id in sel && Exposure(live, sel) == live[id].notional.value + Exposure(live, sel - {id});
      TotalPick(rows, sel, id);
      ExposureIsTotal(live, rows, sel - {id});
    }
  }

  /** The end-to-end ceiling: in every such run, for every grant in question and at every
      instant, what was actually sent to the venue under it and may be live is within its
      rolling ceiling, counted over the reservations of the last hour. */
  lemma LiveExposureBounded(labels: seq<Label>, grants: Grants, tenant: string, grant: string, w: int)
    requires AllKnown(labels, grants) && ReturnsGuarded(labels)
    requires (tenant, grant) in grants && grants[(tenant, grant)].rolling1h > 0
    ensures var s := PipelineSafety.Run(labels);
      Exposure(s.live, Exposed(s, tenant, grant, w)) <= grants[(tenant, grant)].rolling1h
  {
    CountedAlways(labels);
    SafeAlways(labels, grants);
    var s := PipelineSafety.Run(labels);
    var sel := Exposed(s, tenant, grant, w);
    forall id | id in sel ensures Covered(s.rows, s.live[id]) && s.live[id].Id() == id {
    }
    ExposureIsTotal(s.live, s.rows, sel);
    TotalMonotone(s.rows, sel, Within(s.rows, tenant, grant, w - HOUR, w));
    assert Held(s.rows, tenant, grant, grants[(tenant, grant)]);
    assert HourTotal(s.rows, tenant, grant, w) <= grants[(tenant, grant)].rolling1h;
  }
}
