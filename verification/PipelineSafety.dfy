/** What holds of every run of the pipeline, whatever it returns to the ledger: settlement is
    lawful, happens at most once per key, and so the ceilings of LedgerSafety.dfy hold. */
module PipelineSafety {
  import opened Broker
  import opened Idempotency
  import opened Attempts
  import Exec = ExecutionRuns
  import opened ExecutionOutcomes
  import opened Ledger
  import opened LedgerSafety
  import opened Pipeline

  /** Every order of a grant in question was begun under its fixed limits, and is of a size
      whose comparisons cannot overflow. Orders of other grants are unrestricted. */
  ghost predicate GrantsKnown(s: System, grants: Grants) {
    forall i :: 0 <= i < |s.orders| ==> KnownGrant(s.orders[i], grants)
  }

  predicate KnownGrant(o: Order, grants: Grants) {
    (o.grant.tenantID, o.grant.grantID) in grants ==>
    && grants[(o.grant.tenantID, o.grant.grantID)] == o.grant.limits
    && (o.notional.Some? ==> Fitting(o.grant.limits, o.notional.value))
  }

  /** How far the execution attempt is at each stage. */
  ghost predicate InStep(stage: Stage, a: Attempt, o: Order) {
    && (stage.Checking? || stage.Reserving? || stage.Recording? ==> a.Entering?)
    && (stage.Executing? ==> !a.Finished? && !a.Crashed?)
    && (stage.Settling? ==> a == Finished(o.req, Success(stage.outcome)) && !stage.outcome.replayed)
    && (stage.Settled? ==> Decider(a))
    && (stage.Reserving? || stage.Recording? || stage.Executing? || stage.Settling? || stage.Settled? ==> o.grant.tenantID == o.req.tenantID)
  }

  ghost predicate AllInStep(s: System)
    requires Shaped(s)
  {
    forall i :: 0 <= i < |s.stages| ==> InStep(s.stages[i], s.exec.attempts[i], s.orders[i])
  }

  predicate Untouched(e: Entry) {
    e.state.Reserved? && e.open
  }

  ghost predicate SettledBy(s: System, i: int, id: Ident)
    requires Shaped(s)
  {
    0 <= i < |s.stages| && s.stages[i].Settled? && s.orders[i].Id() == id
  }

  /** A row that is no longer as it was reserved was settled by some pipeline. */
  ghost predicate RowsSettled(s: System)
    requires Shaped(s)
  {
    forall id :: id in s.rows && !Untouched(s.rows[id]) ==> exists i :: SettledBy(s, i, id)
  }

  ghost predicate KnownRejected(w: World, id: Ident) {
    id in w.decided && w.decided[id].state.Rejected?
  }

  /** Only a venue's recorded rejection leaves a row RELEASED. */
  ghost predicate ReleasedRefused(s: System) {
    forall id :: id in s.rows && s.rows[id].state.Released? ==> KnownRejected(s.exec.world, id)
  }

  ghost predicate Safe(s: System, grants: Grants) {
    && Shaped(s)
    && Sound(s.exec)
    && GrantsKnown(s, grants)
    && AllInStep(s)
    && RowsSettled(s)
    && ReleasedRefused(s)
    && NonNegative(s.rows)
    && AllHeld(s.rows, grants)
  }

  ghost predicate LabelKnown(l: Label, grants: Grants) {
    l.Begin? ==> KnownGrant(l.order, grants)
  }

  // ---------------------------------------------------------------------------
  // Moves that leave the ledger alone
  // ---------------------------------------------------------------------------

  /** `s'` is `s` after the execution system grew and one stage, not yet settled, moved. */
  ghost predicate Moved(s: System, s': System)
    requires Shaped(s) && Shaped(s')
  {
    && s'.rows == s.rows
    && Sound(s'.exec)
    && Grows(s.exec.world, s'.exec.world)
    && |s'.orders| >= |s.orders|
    && (forall i :: 0 <= i < |s.orders| ==> s'.orders[i] == s.orders[i])
    && (forall i :: 0 <= i < |s.orders| && s.stages[i].Settled? ==> s'.stages[i].Settled?)
  }

  lemma MovedSafe(s: System, s': System, grants: Grants)
    requires Safe(s, grants) && Shaped(s') && Moved(s, s') && GrantsKnown(s', grants) && AllInStep(s')
    ensures Safe(s', grants)
  {
    forall id | id in s'.rows && !Untouched(s'.rows[id]) ensures exists i :: SettledBy(s', i, id) {
      var i :| SettledBy(s, i, id);
      assert SettledBy(s', i, id);
    }
  }

  lemma SafeBegin(s: System, o: Order, grants: Grants)
    requires Safe(s, grants) && KnownGrant(o, grants)
    ensures Safe(Apply(s, Begin(o)), grants)
  {
    SoundApply(s.exec, Exec.Start(o.req));
    ApplyGrows(s.exec, Exec.Start(o.req));
    ApplyShaped(s, Begin(o));
    MovedSafe(s, Apply(s, Begin(o)), grants);
  }

  /** Moving one stage while the ledger and the execution system stand still. */
  lemma SafeStage(s: System, i: nat, stage: Stage, grants: Grants)
    requires Safe(s, grants) && i < |s.stages| && !s.stages[i].Settled?
    requires InStep(stage, s.exec.attempts[i], s.orders[i])
    ensures Safe(s.(stages := s.stages[i := stage]), grants)
  {
    var s' := s.(stages := s.stages[i := stage]);
    MovedSafe(s, s', grants);
  }

  lemma SafeExecute(s: System, i: nat, c: Choice, grants: Grants)
    requires Safe(s, grants) && Enabled(s, Execute(i, c))
    ensures Safe(Apply(s, Execute(i, c)), grants)
  {
    var s' := Apply(s, Execute(i, c));
    var a := s.exec.attempts[i];
    SoundApply(s.exec, Exec.Advance(i, c));
    ApplyGrows(s.exec, Exec.Advance(i, c));
    ApplyShaped(s, Execute(i, c));
    assert InStep(s.stages[i], a, s.orders[i]);
    StepStaysAlive(s.exec.world, a, c);
    forall j | 0 <= j < |s'.stages| ensures InStep(s'.stages[j], s'.exec.attempts[j], s'.orders[j]) {
      assert InStep(s.stages[j], s.exec.attempts[j], s.orders[j]);
    }
    MovedSafe(s, s', grants);
  }

  lemma StepStaysAlive(w: World, a: Attempt, c: Choice)
    requires !a.Crashed?
    ensures !Step(w, a, c).1.Crashed?
  {
  }

  lemma SafeHalt(s: System, i: nat, grants: Grants)
    requires Safe(s, grants) && Enabled(s, Halt(i))
    ensures Safe(Apply(s, Halt(i)), grants)
  {
    var s' := Apply(s, Halt(i));
    SoundApply(s.exec, Exec.Crash(i));
    ApplyGrows(s.exec, Exec.Crash(i));
    ApplyShaped(s, Halt(i));
    forall j | 0 <= j < |s'.stages| ensures InStep(s'.stages[j], s'.exec.attempts[j], s'.orders[j]) {
      assert InStep(s.stages[j], s.exec.attempts[j], s.orders[j]);
    }
    MovedSafe(s, s', grants);
  }

  lemma SafeElsewhere(s: System, l: Exec.Label, grants: Grants)
    requires Safe(s, grants) && (l.CacheLoss? || l.Retain?)
    ensures Safe(s.(exec := Exec.Apply(s.exec, l)), grants)
  {
    SoundApply(s.exec, l);
    ApplyGrows(s.exec, l);
    MovedSafe(s, s.(exec := Exec.Apply(s.exec, l)), grants);
  }

  // ---------------------------------------------------------------------------
  // Moves of the ledger
  // ---------------------------------------------------------------------------

  /** A reservation adds at most one row, as reserved, and changes none. */
  lemma HoldRows(s: System, rows: Rows, o: Order)
    requires Shaped(s) && RowsSettled(s) && ReleasedRefused(s) && o.notional.Some?
    requires rows == Reserve(s.rows, o.grant, o.req.key, o.notional.value, o.who, o.at).0
    ensures RowsSettled(s.(rows := rows)) && ReleasedRefused(s.(rows := rows))
  {
    var s1 := s.(rows := rows);
    forall id | id in rows && !Untouched(rows[id]) ensures exists j :: SettledBy(s1, j, id) {
      assert id in s.rows && rows[id] == s.rows[id];
      var j :| SettledBy(s, j, id);
      assert SettledBy(s1, j, id);
    }
  }

  lemma SafeHold(s: System, i: nat, up: bool, lost: bool, grants: Grants)
    requires Safe(s, grants) && Enabled(s, Hold(i, up, lost))
    ensures Safe(Apply(s, Hold(i, up, lost)), grants)
  {
    var o := s.orders[i];
    assert InStep(s.stages[i], s.exec.attempts[i], o);
    if o.notional.None? {
      SafeStage(s, i, Recording, grants);
    } else if !up {
      SafeStage(s, i, Ended, grants);
    } else {
      assert KnownGrant(o, grants);
      var (rows, decision) := Reserve(s.rows, o.grant, o.req.key, o.notional.value, o.who, o.at);
      if (o.grant.tenantID, o.grant.grantID) in grants && Inserts(s.rows, o.grant, o.req.key, o.notional.value, o.who, o.at) {
        FittingFits(s.rows, o.grant, o.req.key, o.notional.value, o.who, o.at);
      }
      ReserveHeld(s.rows, grants, o.grant, o.req.key, o.notional.value, o.who, o.at);
      var s1 := s.(rows := rows);
      HoldRows(s, rows, o);
      SafeStage(s1, i, if decision.Allow? && !lost then Recording else Ended, grants);
    }
  }

  /** A pipeline about to settle a key is the only one that ever does. */
  lemma SettlesAlone(s: System, i: nat, j: nat, grants: Grants)
    requires Safe(s, grants) && i < |s.stages| && s.stages[i].Settling?
    requires j < |s.stages| && s.stages[j].Settled?
    ensures s.orders[j].Id() != s.orders[i].Id()
  {
    assert InStep(s.stages[j], s.exec.attempts[j], s.orders[j]);
    assert InStep(s.stages[i], s.exec.attempts[i], s.orders[i]);
    assert s.exec.attempts[i].req == s.orders[i].req && s.exec.attempts[j].req == s.orders[j].req;
  }

  /** Settlement finds the row as it was reserved. */
  lemma SettlementFindsUntouched(s: System, i: nat, grants: Grants)
    requires Safe(s, grants) && i < |s.stages| && s.stages[i].Settling?
    ensures s.orders[i].Id() in s.rows ==> Untouched(s.rows[s.orders[i].Id()])
  {
    var id := s.orders[i].Id();
    if id in s.rows && !Untouched(s.rows[id]) {
      var j :| SettledBy(s, j, id);
      SettlesAlone(s, i, j, grants);
    }
  }

  lemma SettlementLawful(s: System, i: nat, grants: Grants)
    requires Safe(s, grants) && i < |s.stages| && s.stages[i].Settling?
    ensures var o := s.stages[i].outcome;
      Lawful(s.rows, s.orders[i].Id(), SettlementState(o), !o.state.Terminal())
  {
    SettlementFindsUntouched(s, i, grants);
  }

  lemma SafeSettlement(s: System, i: nat, up: bool, grants: Grants)
    requires Safe(s, grants) && Enabled(s, Settlement(i, up))
    ensures Safe(Apply(s, Settlement(i, up)), grants)
  {
    var s' := Apply(s, Settlement(i, up));
    if !up {
      SafeStage(s, i, Ended, grants);
    } else {
      var id := s.orders[i].Id();
      var o := s.stages[i].outcome;
      assert InStep(s.stages[i], s.exec.attempts[i], s.orders[i]);
      assert Truthful(s.exec.world, s.exec.attempts[i]);
      SettlementLawful(s, i, grants);
      SettleLighter(s.rows, id, SettlementState(o), !o.state.Terminal(), s.orders[i].at);
      LighterAllHeld(s.rows, s'.rows, grants);
      SettlementRows(s, i, grants);
    }
  }

  lemma SettlementRows(s: System, i: nat, grants: Grants)
    requires Safe(s, grants) && Enabled(s, Settlement(i, true))
    ensures var s' := Apply(s, Settlement(i, true));
      Shaped(s') && AllInStep(s') && RowsSettled(s') && ReleasedRefused(s')
  {
    var s' := Apply(s, Settlement(i, true));
    var id := s.orders[i].Id();
    assert InStep(s.stages[i], s.exec.attempts[i], s.orders[i]);
    SettlementRefused(s, i, grants);
    SettlementWitness(s, s', i, id);
  }

  lemma SettlementRefused(s: System, i: nat, grants: Grants)
    requires Safe(s, grants) && Enabled(s, Settlement(i, true))
    ensures ReleasedRefused(Apply(s, Settlement(i, true)))
  {
    assert InStep(s.stages[i], s.exec.attempts[i], s.orders[i]);
    assert Truthful(s.exec.world, s.exec.attempts[i]);
  }

  lemma SettlementWitness(s: System, s': System, i: nat, id: Ident)
    requires Shaped(s) && Shaped(s') && i < |s.stages| && !s.stages[i].Settled? && RowsSettled(s)
    requires s'.orders == s.orders && s'.stages == s.stages[i := Settled] && s.orders[i].Id() == id
    requires forall k :: k in s'.rows ==> k in s.rows && (k != id ==> s'.rows[k] == s.rows[k])
    ensures RowsSettled(s')
  {
    forall k | k in s'.rows && !Untouched(s'.rows[k]) ensures exists j :: SettledBy(s', j, k) {
      if k == id {
        assert SettledBy(s', i, k);
      } else {
        var j :| SettledBy(s, j, k);
        assert SettledBy(s', j, k);
      }
    }
  }

  lemma SafeReturn(s: System, i: nat, up: bool, grants: Grants)
    requires Safe(s, grants) && Enabled(s, Return(i, up))
    ensures Safe(Apply(s, Return(i, up)), grants)
  {
    var rows := if up then Release(s.rows, s.orders[i].Id()) else s.rows;
    ReleaseLighter(s.rows, s.orders[i].Id());
    LighterAllHeld(s.rows, Release(s.rows, s.orders[i].Id()), grants);
    var s1 := s.(rows := rows);
    assert forall k :: k in rows ==> k in s.rows && rows[k] == s.rows[k];
    forall k | k in rows && !Untouched(rows[k]) ensures exists j :: SettledBy(s1, j, k) {
      var j :| SettledBy(s, j, k);
      assert SettledBy(s1, j, k);
    }
    SafeStage(s1, i, Ended, grants);
  }

  lemma SafeApply(s: System, l: Label, grants: Grants)
    requires Safe(s, grants) && LabelKnown(l, grants)
    ensures Safe(Apply(s, l), grants)
  {
    if Enabled(s, l) {
      match l
      case Begin(o) => SafeBegin(s, o, grants);
      case Check(i, seen, refused) =>
        assert InStep(s.stages[i], s.exec.attempts[i], s.orders[i]);
        var o := s.orders[i];
        var stops := refused || o.grant.tenantID != o.req.tenantID || (seen && StopsEarly(s.exec.world.tables, o));
        SafeStage(s, i, if stops then Ended else Reserving, grants);
      case Hold(i, up, lost) => SafeHold(s, i, up, lost, grants);
      case Receipt(i, committed) =>
        assert InStep(s.stages[i], s.exec.attempts[i], s.orders[i]);
        SafeStage(s, i, if committed then Executing else Releasing, grants);
      case Execute(i, c) => SafeExecute(s, i, c, grants);
      case Settlement(i, up) => SafeSettlement(s, i, up, grants);
      case Return(i, up) => SafeReturn(s, i, up, grants);
      case Halt(i) => SafeHalt(s, i, grants);
      case CacheLoss(lost) => SafeElsewhere(s, Exec.CacheLoss(lost), grants);
      case Retain(tenant, before, doomed) => SafeElsewhere(s, Exec.Retain(tenant, before, doomed), grants);
    }
  }

  // ---------------------------------------------------------------------------
  // Runs
  // ---------------------------------------------------------------------------

  ghost function Run(labels: seq<Label>): (s: System)
    ensures Shaped(s)
  {
    if labels == [] then INITIAL
    else
      var before := Run(labels[..|labels| - 1]);
      ApplyShaped(before, labels[|labels| - 1]);
      Apply(before, labels[|labels| - 1])
  }

  ghost predicate AllKnown(labels: seq<Label>, grants: Grants) {
    forall k :: 0 <= k < |labels| ==> LabelKnown(labels[k], grants)
  }

  lemma {:induction false} SafeAlways(labels: seq<Label>, grants: Grants)
    requires AllKnown(labels, grants)
    ensures Safe(Run(labels), grants)
  {
    if labels == [] {
      EmptyHeld(grants);
      assert Run(labels) == INITIAL;
      SoundAlways([]);
      assert Exec.Run([]) == Exec.INITIAL;
    } else {
      SafeAlways(labels[..|labels| - 1], grants);
      SafeApply(Run(labels[..|labels| - 1]), labels[|labels| - 1], grants);
    }
  }

  /** In every run of any number of pipelines, with crashes, lost replies and pruning
      anywhere: a settlement never revives a released row nor reopens a closed one, and no
      key is settled twice. */
  lemma SettlesOnce(labels: seq<Label>)
    ensures var s := Run(labels);
      && (forall i :: 0 <= i < |s.stages| && s.stages[i].Settling? ==>
            Lawful(s.rows, s.orders[i].Id(), SettlementState(s.stages[i].outcome), !s.stages[i].outcome.state.Terminal()))
      && (forall i, j :: 0 <= i < j < |s.stages| && s.stages[i].Settled? && s.stages[j].Settled? ==> s.orders[i].Id() != s.orders[j].Id())
  {
    SafeAlways(labels, map[]);
    var s := Run(labels);
    forall i | 0 <= i < |s.stages| && s.stages[i].Settling?
      ensures Lawful(s.rows, s.orders[i].Id(), SettlementState(s.stages[i].outcome), !s.stages[i].outcome.state.Terminal())
    {
      SettlementLawful(s, i, map[]);
    }
    forall i, j | 0 <= i < j < |s.stages| && s.stages[i].Settled? && s.stages[j].Settled?
      ensures s.orders[i].Id() != s.orders[j].Id()
    {
      assert InStep(s.stages[i], s.exec.attempts[i], s.orders[i]) && InStep(s.stages[j], s.exec.attempts[j], s.orders[j]);
      assert s.exec.attempts[i].req == s.orders[i].req && s.exec.attempts[j].req == s.orders[j].req;
    }
  }

  /** The ceilings hold over every run of the whole pipeline, with nothing assumed of how it
      settles or what it returns. */
  lemma PipelineKeepsCeilings(labels: seq<Label>, grants: Grants)
    requires AllKnown(labels, grants)
    ensures AllHeld(Run(labels).rows, grants)
  {
    SafeAlways(labels, grants);
  }
}
