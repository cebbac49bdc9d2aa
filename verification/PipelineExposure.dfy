/** Every order that may be live is counted against its grant: the invariant, and that every
    move of the pipelines but a return of capacity keeps it. */
module PipelineExposure {
  import opened Broker
  import opened Idempotency
  import opened Attempts
  import Exec = ExecutionRuns
  import opened ExecutionOutcomes
  import opened Ledger
  import opened LedgerSafety
  import opened Pipeline
  import opened PipelineSafety

  /** A non-released row holds exactly this order's capacity. */
  predicate Covered(rows: Rows, o: Order) {
    && o.notional.Some? && o.Id() in rows
    && rows[o.Id()].grantID == o.grant.grantID
    && rows[o.Id()].notional == o.notional.value
    && rows[o.Id()].who.envelopeID == o.who.envelopeID
    && rows[o.Id()].who.principalID == o.who.principalID
    && rows[o.Id()].who.accountID == o.who.accountID
    && !rows[o.Id()].state.Released?
  }

  /** The pipeline holds a reservation and has not yet learned whether it may send. */
  ghost predicate Heading(s: System, i: int)
    requires Shaped(s)
  {
    && 0 <= i < |s.stages| && s.orders[i].notional.Some?
    && (s.stages[i].Recording? || (s.stages[i].Executing? && (s.exec.attempts[i].Entering? || s.exec.attempts[i].Claiming?)))
  }

  /** The pipeline holds the claim and is about to call the venue. */
  ghost predicate AtVenue(s: System, i: int)
    requires Shaped(s)
  {
    0 <= i < |s.stages| && s.orders[i].notional.Some? && s.stages[i].Executing? && s.exec.attempts[i].Sending?
  }

  ghost predicate LiveCounted(s: System) {
    forall id :: id in s.live && s.live[id].notional.Some? ==> Covered(s.rows, s.live[id]) || KnownRejected(s.exec.world, id)
  }

  /** A retry over a released row is not covered; it is harmless because its identity is
      already spent, so its claim cannot succeed. */
  ghost predicate HeadingCounted(s: System)
    requires Shaped(s)
  {
    forall i :: Heading(s, i) ==> Covered(s.rows, s.orders[i]) || Spent(s.exec.world.tables, s.orders[i].Id())
  }

  ghost predicate VenueCounted(s: System)
    requires Shaped(s)
  {
    forall i :: AtVenue(s, i) ==> Covered(s.rows, s.orders[i]) || KnownRejected(s.exec.world, s.orders[i].Id())
  }

  /** `live` is the orders behind the venue's calls. */
  ghost predicate LiveIsSent(live: map<Ident, Order>, w: World) {
    && (forall id :: id in live ==> live[id].Id() == id && Exec.Sent(w, id))
    && (forall k :: 0 <= k < |w.sends| ==> w.sends[k].Id() in live && live[w.sends[k].Id()].req == w.sends[k])
  }

  ghost predicate Counted(s: System)
    requires Shaped(s)
  {
    LiveCounted(s) && HeadingCounted(s) && VenueCounted(s) && LiveIsSent(s.live, s.exec.world)
  }

  // ---------------------------------------------------------------------------
  // Moves that lose no cover
  // ---------------------------------------------------------------------------

  /** Cover is lost only for identities the venue refused. */
  ghost predicate CoverKept(s: System, s': System) {
    forall o: Order :: Covered(s.rows, o) ==> Covered(s'.rows, o) || KnownRejected(s'.exec.world, o.Id())
  }

  lemma RejectedIsSpent(s: System, id: Ident)
    requires Sound(s.exec) && KnownRejected(s.exec.world, id)
    ensures Spent(s.exec.world.tables, id)
  {
  }

  /** One pipeline moved, or none; the rest is as it was. */
  ghost predicate Rest(s: System, s': System, i: int)
    requires Shaped(s) && Shaped(s')
  {
    && |s'.orders| >= |s.orders|
    && (forall j :: 0 <= j < |s.orders| ==> s'.orders[j] == s.orders[j])
    && (forall j :: 0 <= j < |s'.orders| && j != i ==>
          (Heading(s', j) ==> Heading(s, j)) && (AtVenue(s', j) ==> AtVenue(s, j)))
  }

  lemma CountedMove(s: System, s': System, i: int)
    requires Shaped(s) && Shaped(s') && Counted(s) && Sound(s'.exec)
    requires Grows(s.exec.world, s'.exec.world) && CoverKept(s, s') && Rest(s, s', i)
    requires s'.live == s.live && s'.exec.world.sends == s.exec.world.sends
    requires Heading(s', i) ==> Covered(s'.rows, s'.orders[i]) || Spent(s'.exec.world.tables, s'.orders[i].Id())
    requires AtVenue(s', i) ==> Covered(s'.rows, s'.orders[i]) || KnownRejected(s'.exec.world, s'.orders[i].Id())
    ensures Counted(s')
  {
    forall j | Heading(s', j) ensures Covered(s'.rows, s'.orders[j]) || Spent(s'.exec.world.tables, s'.orders[j].Id()) {
      if j != i {
        assert Heading(s, j);
        if KnownRejected(s'.exec.world, s'.orders[j].Id()) { RejectedIsSpent(s', s'.orders[j].Id()); }
      }
    }
    forall j | AtVenue(s', j) ensures Covered(s'.rows, s'.orders[j]) || KnownRejected(s'.exec.world, s'.orders[j].Id()) {
      if j != i {
        assert AtVenue(s, j);
      }
    }
    forall id | id in s'.live && s'.live[id].notional.Some?
      ensures Covered(s'.rows, s'.live[id]) || KnownRejected(s'.exec.world, id)
    {
      assert s.live[id].Id() == id;
    }
  }

  /** A stage moved to one that neither heads for the venue nor stands at it. */
  lemma CountedStage(s: System, i: nat, stage: Stage)
    requires Shaped(s) && Counted(s) && Sound(s.exec) && i < |s.stages| && !stage.Recording? && !stage.Executing?
    ensures Counted(s.(stages := s.stages[i := stage]))
  {
    CountedMove(s, s.(stages := s.stages[i := stage]), i);
  }

  lemma CountedBegin(s: System, o: Order, grants: Grants)
    requires Safe(s, grants) && Counted(s)
    ensures Counted(Apply(s, Begin(o)))
  {
    var s' := Apply(s, Begin(o));
    SoundApply(s.exec, Exec.Start(o.req));
    ApplyGrows(s.exec, Exec.Start(o.req));
    ApplyShaped(s, Begin(o));
    CountedMove(s, s', |s.orders|);
  }

  /** An allowed reservation either covers its order or answers for a spent identity. */
  lemma HoldCovers(s: System, i: nat, grants: Grants)
    requires Safe(s, grants) && i < |s.stages| && s.stages[i].Reserving? && s.orders[i].notional.Some?
    requires var o := s.orders[i]; Reserve(s.rows, o.grant, o.req.key, o.notional.value, o.who, o.at).1.Allow?
    ensures var o := s.orders[i];
      Covered(Reserve(s.rows, o.grant, o.req.key, o.notional.value, o.who, o.at).0, o) || Spent(s.exec.world.tables, o.Id())
  {
    var o := s.orders[i];
    assert InStep(s.stages[i], s.exec.attempts[i], o);
    assert Ident(o.grant.tenantID, o.req.key) == o.Id();
    if o.Id() in s.rows && s.rows[o.Id()].state.Released? {
      RejectedIsSpent(s, o.Id());
    }
  }

  lemma CountedHold(s: System, i: nat, up: bool, lost: bool, grants: Grants)
    requires Safe(s, grants) && Counted(s) && Enabled(s, Hold(i, up, lost))
    ensures Counted(ApplyHold(s, i, up, lost))
  {
    var o := s.orders[i];
    if o.notional.None? {
      CountedHeld(s, i, s.rows, Recording);
    } else if !up {
      CountedHeld(s, i, s.rows, Ended);
    } else {
      var (rows, decision) := Reserve(s.rows, o.grant, o.req.key, o.notional.value, o.who, o.at);
      ReserveKeepsRows(s.rows, o);
      if decision.Allow? { HoldCovers(s, i, grants); }
      CountedHeld(s, i, rows, if decision.Allow? && !lost then Recording else Ended);
    }
  }

  lemma ReserveKeepsRows(rows: Rows, o: Order)
    requires o.notional.Some?
    ensures var rows' := Reserve(rows, o.grant, o.req.key, o.notional.value, o.who, o.at).0;
      forall id :: id in rows ==> id in rows' && rows'[id] == rows[id]
  {
  }

  lemma CountedHeld(s: System, i: nat, rows: Rows, stage: Stage)
    requires Shaped(s) && Sound(s.exec) && Counted(s) && i < |s.stages| && (stage.Recording? || stage.Ended?)
    requires forall id :: id in s.rows ==> id in rows && rows[id] == s.rows[id]
    requires stage.Recording? && s.orders[i].notional.Some? ==> Covered(rows, s.orders[i]) || Spent(s.exec.world.tables, s.orders[i].Id())
    ensures Counted(s.(rows := rows, stages := s.stages[i := stage]))
  {
    var s' := s.(rows := rows, stages := s.stages[i := stage]);
    CountedMove(s, s', i);
  }

  lemma CountedReceipt(s: System, i: nat, committed: bool, grants: Grants)
    requires Safe(s, grants) && Counted(s) && Enabled(s, Receipt(i, committed))
    ensures Counted(Apply(s, Receipt(i, committed)))
  {
    if committed {
      assert InStep(s.stages[i], s.exec.attempts[i], s.orders[i]);
      assert s.orders[i].notional.Some? ==> Heading(s, i);
      CountedFiled(s, i);
    } else {
      CountedStage(s, i, Releasing);
    }
  }

  lemma CountedFiled(s: System, i: nat)
    requires Shaped(s) && Counted(s) && Sound(s.exec) && i < |s.stages| && s.exec.attempts[i].Entering?
    requires s.orders[i].notional.Some? ==> Heading(s, i)
    ensures Counted(s.(stages := s.stages[i := Executing]))
  {
    CountedMove(s, s.(stages := s.stages[i := Executing]), i);
  }

  lemma CountedSettlement(s: System, i: nat, up: bool, grants: Grants)
    requires Safe(s, grants) && Counted(s) && Enabled(s, Settlement(i, up))
    ensures Counted(Apply(s, Settlement(i, up)))
  {
    var s' := Apply(s, Settlement(i, up));
    assert InStep(s.stages[i], s.exec.attempts[i], s.orders[i]);
    assert Truthful(s.exec.world, s.exec.attempts[i]);
    CountedMove(s, s', i);
  }

  lemma CountedHalt(s: System, i: nat, grants: Grants)
    requires Safe(s, grants) && Counted(s) && Enabled(s, Halt(i))
    ensures Counted(Apply(s, Halt(i)))
  {
    SoundApply(s.exec, Exec.Crash(i));
    ApplyGrows(s.exec, Exec.Crash(i));
    ApplyShaped(s, Halt(i));
    CountedMove(s, Apply(s, Halt(i)), i);
  }

  lemma CountedElsewhere(s: System, l: Exec.Label, grants: Grants)
    requires Safe(s, grants) && Counted(s) && (l.CacheLoss? || l.Retain?)
    ensures Counted(s.(exec := Exec.Apply(s.exec, l)))
  {
    SoundApply(s.exec, l);
    ApplyGrows(s.exec, l);
    CountedMove(s, s.(exec := Exec.Apply(s.exec, l)), -1);
  }

  lemma CountedExecute(s: System, i: nat, c: Choice, grants: Grants)
    requires Safe(s, grants) && Counted(s) && Enabled(s, Execute(i, c))
    ensures Shaped(Apply(s, Execute(i, c))) && Counted(Apply(s, Execute(i, c)))
  {
    SoundApply(s.exec, Exec.Advance(i, c));
    ApplyGrows(s.exec, Exec.Advance(i, c));
    ApplyShaped(s, Execute(i, c));
    if s.exec.attempts[i].Sending? {
      CountedSend(s, i, c);
    } else {
      ExecuteRest(s, i, c);
      if s.exec.attempts[i].Claiming? {
        CountedClaim(s, i, c, grants);
      } else {
        QuietStep(s.exec.world, s.exec.attempts[i], c);
      }
      CountedMove(s, Apply(s, Execute(i, c)), i);
    }
  }

  lemma ExecuteRest(s: System, i: nat, c: Choice)
    requires Shaped(s) && Enabled(s, Execute(i, c)) && !s.exec.attempts[i].Sending?
    requires Shaped(Apply(s, Execute(i, c)))
    ensures var s' := Apply(s, Execute(i, c));
      && Rest(s, s', i) && CoverKept(s, s') && s'.live == s.live && s'.exec.world.sends == s.exec.world.sends
      && s'.exec.world == Step(s.exec.world, s.exec.attempts[i], c).0
      && s'.exec.attempts[i] == Step(s.exec.world, s.exec.attempts[i], c).1
      && (Heading(s', i) ==> s.orders[i].notional.Some? && (s'.exec.attempts[i].Entering? || s'.exec.attempts[i].Claiming?))
      && (AtVenue(s', i) ==> s'.exec.attempts[i].Sending?)
      && s'.orders[i] == s.orders[i] && s'.rows == s.rows
  {
    QuietStep(s.exec.world, s.exec.attempts[i], c);
  }

  /** Outside the claim and the send, an attempt comes no nearer to the venue than its claim. */
  lemma QuietStep(w: World, a: Attempt, c: Choice)
    requires !a.Sending?
    ensures Step(w, a, c).0.sends == w.sends
    ensures Step(w, a, c).1.Sending? ==> a.Claiming?
    ensures Step(w, a, c).1.Entering? ==> a.Entering?
    ensures Step(w, a, c).1.Claiming? ==> a.Entering?
  {
  }

  /** A claim that succeeds finds its order covered, since its identity was not spent. */
  lemma CountedClaim(s: System, i: nat, c: Choice, grants: Grants)
    requires Safe(s, grants) && Counted(s) && Enabled(s, Execute(i, c)) && s.exec.attempts[i].Claiming?
    ensures var s' := Apply(s, Execute(i, c));
      && Shaped(s')
      && (AtVenue(s', i) ==> Covered(s'.rows, s'.orders[i]))
      && (Heading(s', i) ==> Covered(s'.rows, s'.orders[i]) || Spent(s'.exec.world.tables, s'.orders[i].Id()))
  {
    ApplyShaped(s, Execute(i, c));
    var req := s.orders[i].req;
    assert s.exec.attempts[i].req == req;
    assert s.orders[i].notional.Some? ==> Heading(s, i);
    if c.storeUp && Claim(s.exec.world.tables, NewRecord(req, c.now)).1.Claimed? {
      ClaimIsFresh(s.exec.world.tables, NewRecord(req, c.now));
    }
  }

  /** What sending changes. */
  lemma SendFacts(s: System, i: nat, c: Choice)
    requires Shaped(s) && Enabled(s, Execute(i, c)) && s.exec.attempts[i].Sending?
    requires Shaped(Apply(s, Execute(i, c)))
    ensures var s' := Apply(s, Execute(i, c)); var o := s.orders[i];
      && s'.live == s.live[o.Id() := o] && s'.rows == s.rows && s'.orders == s.orders
      && s'.exec.world == s.exec.world.(sends := s.exec.world.sends + [o.req])
      && !Heading(s', i) && !AtVenue(s', i) && Rest(s, s', i)
      && (o.notional.Some? ==> AtVenue(s, i))
  {
  }

  lemma CountedSent(s: System, s': System, i: nat, o: Order)
    requires Shaped(s) && Shaped(s') && Counted(s) && i < |s.orders| && s.orders[i] == o && s'.orders == s.orders
    requires s'.live == s.live[o.Id() := o] && s'.rows == s.rows
    requires s'.exec.world.decided == s.exec.world.decided && s'.exec.world.tables == s.exec.world.tables
    requires LiveIsSent(s'.live, s'.exec.world) && Rest(s, s', i) && !Heading(s', i) && !AtVenue(s', i)
    requires o.notional.Some? ==> AtVenue(s, i)
    ensures Counted(s')
  {
    forall j | Heading(s', j) ensures Covered(s'.rows, s'.orders[j]) || Spent(s'.exec.world.tables, s'.orders[j].Id()) {
      assert Heading(s, j);
    }
    forall j | AtVenue(s', j) ensures Covered(s'.rows, s'.orders[j]) || KnownRejected(s'.exec.world, s'.orders[j].Id()) {
      assert AtVenue(s, j);
    }
  }

  lemma CountedSend(s: System, i: nat, c: Choice)
    requires Shaped(s) && Exec.SafeSends(s.exec) && Counted(s) && Enabled(s, Execute(i, c)) && s.exec.attempts[i].Sending?
    requires Shaped(Apply(s, Execute(i, c)))
    ensures Counted(Apply(s, Execute(i, c)))
  {
    SendFacts(s, i, c);
    SendIsFirst(s, i);
    LiveGrows(s.live, s.exec.world, s.orders[i]);
    CountedSent(s, Apply(s, Execute(i, c)), i, s.orders[i]);
  }

  lemma LiveGrows(live: map<Ident, Order>, w: World, o: Order)
    requires LiveIsSent(live, w) && forall k :: 0 <= k < |w.sends| ==> w.sends[k].Id() != o.Id()
    ensures LiveIsSent(live[o.Id() := o], w.(sends := w.sends + [o.req]))
  {
    var live', w' := live[o.Id() := o], w.(sends := w.sends + [o.req]);
    forall id | id in live' ensures live'[id].Id() == id && Exec.Sent(w', id) {
      if id == o.Id() {
        assert w'.sends[|w.sends|].Id() == id;
      } else {
        var k :| 0 <= k < |w.sends| && w.sends[k].Id() == id;
        assert w'.sends[k].Id() == id;
      }
    }
  }

  /** At most once: the identity was never sent before, so `live` forgets no order. */
  lemma SendIsFirst(s: System, i: nat)
    requires Shaped(s) && Exec.SafeSends(s.exec) && i < |s.stages| && s.exec.attempts[i].Sending?
    ensures forall k :: 0 <= k < |s.exec.world.sends| ==> s.exec.world.sends[k].Id() != s.orders[i].Id()
  {
    assert s.exec.attempts[i].req == s.orders[i].req;
    assert !Exec.Sent(s.exec.world, s.orders[i].Id());
  }
}
