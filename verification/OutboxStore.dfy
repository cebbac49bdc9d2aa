/** The outbox's own code: the store's transactions, the batch publisher, one drain, the
    sweeper and the batch consumer, each against the steps of Outbox.dfy. */
module OutboxStore {
  import opened Wrappers
  import opened Outbox
  import opened Delivery
  import opened DeliverySafety

  datatype OutboxEntry = OutboxEntry(outboxID: nat, tenantID: string, payload: Payload)

  function EntryOf(rows: map<nat, Row>, n: nat): OutboxEntry
    requires n in rows
  {
    OutboxEntry(n, rows[n].tenantID, rows[n].payload)
  }

  function IdSet(entries: seq<OutboxEntry>): set<nat> {
    set e | e in entries :: e.outboxID
  }

  predicate Free(rows: map<nat, Row>, n: nat, at: int, reclaimAfter: int, locked: set<nat>) {
    n in rows && Claimable(rows[n], at, reclaimAfter) && n !in locked
  }

  /** Oldest first among the claimable rows no other publisher has locked, up to the bound. */
  ghost predicate ClaimChoice(rows: map<nat, Row>, chosen: set<nat>, limit: nat, at: int, reclaimAfter: int, locked: set<nat>) {
    && |chosen| <= limit
    && (forall n :: n in chosen ==> Free(rows, n, at, reclaimAfter, locked))
    && (forall n, m :: n in chosen && Free(rows, m, at, reclaimAfter, locked) && m !in chosen ==> rows[n].createdAt <= rows[m].createdAt)
    && (|chosen| < limit ==> forall n :: Free(rows, n, at, reclaimAfter, locked) ==> n in chosen)
  }

  /** `up` is whether the database answers this transaction; a refused one has no effect. */
  class EvidenceStore {
    var events: map<Key, Event>
    var rows: map<nat, Row>
    var next: nat

    constructor ()
      ensures State() == EMPTY
    {
      events, rows, next := map[], map[], 0;
    }

    function State(): Tables
      reads this
    {
      Tables(events, rows, next)
    }

    method InsertEvent(e: Event) returns (inserted: bool)
      modifies this`events
      ensures State() == Insert(old(State()), e)
      ensures inserted <==> e.Id() !in old(events)
    {
      inserted := e.Id() !in events;
      if inserted { events := events[e.Id() := e]; }
    }

    method EnqueueEvents(batch: seq<Event>, now: int)
      modifies this`rows, this`next
      ensures State() == EnqueueAll(old(State()), batch, now)
    {
      for i := 0 to |batch|
        invariant State() == EnqueueAll(old(State()), batch[..i], now)
      {
        assert batch[..i + 1][..i] == batch[..i];
        if !Queued(rows, batch[i].eventID) {
          rows, next := rows[next := NewRow(batch[i], now)], next + 1;
        }
      }
      assert batch[..|batch|] == batch;
    }

    method Append(e: Event, now: int, up: bool) returns (result: Option<Recording>)
      modifies this
      ensures if Valid(e) && !up then result.None? && State() == old(State())
              else result == Some(Outbox.Append(old(State()), e, now).1) && State() == Outbox.Append(old(State()), e, now).0
    {
      if !Valid(e) { return Some(Invalid); }
      if !up { return None; }
      var recorded := InsertEvent(e);
      if !recorded { return Some(AlreadyRecorded); }
      EnqueueEvents([e], now);
      assert [e][..0] == [];
      return Some(Recorded);
    }

    method AppendConsumed(e: Event, up: bool) returns (result: Option<Recording>)
      modifies this
      ensures if Valid(e) && !up then result.None? && State() == old(State())
              else result == Some(Outbox.AppendConsumed(old(State()), e).1) && State() == Outbox.AppendConsumed(old(State()), e).0
    {
      if !Valid(e) { return Some(Invalid); }
      if !up { return None; }
      var recorded := InsertEvent(e);
      return Some(if recorded then Recorded else AlreadyRecorded);
    }

    /** The body of a transaction the caller began: it cannot be refused on its own. */
    method AppendInTx(e: Event, now: int) returns (result: Recording)
      modifies this
      ensures (State(), result) == Outbox.AppendInTx(old(State()), e, now)
    {
      if !Valid(e) { return Invalid; }
      var inserted := InsertEvent(e);
      EnqueueEvents([e], now);
      assert [e][..0] == [];
      return Recorded;
    }

    method AppendBatch(batch: seq<Event>, now: int, up: bool) returns (result: Option<Recording>)
      modifies this
      ensures var (t, r) := Outbox.AppendBatch(old(State()), batch, now);
        if batch != [] && r.Recorded? && !up then result.None? && State() == old(State())
        else result == Some(r) && State() == t
    {
      if batch == [] { return Some(Recorded); }
      for i := 0 to |batch|
        invariant BatchFault(batch, batch[0].tenantID) == BatchFault(batch[i..], batch[0].tenantID)
      {
        assert batch[i..][0] == batch[i] && batch[i..][1..] == batch[i + 1..];
        if batch[i].tenantID != batch[0].tenantID { return Some(MixedTenants); }
        if !Valid(batch[i]) { return Some(Invalid); }
      }
      if !up { return None; }
      for i := 0 to |batch|
        invariant State() == InsertAll(old(State()), batch[..i])
      {
        assert batch[..i + 1][..i] == batch[..i];
        var inserted := InsertEvent(batch[i]);
      }
      assert batch[..|batch|] == batch;
      EnqueueEvents(batch, now);
      return Some(Recorded);
    }

    /** The oldest row still free, if any. */
    method OldestFree(at: int, reclaimAfter: int, taken: set<nat>) returns (oldest: Option<nat>)
      ensures oldest.None? ==> forall n :: !Free(rows, n, at, reclaimAfter, taken)
      ensures oldest.Some? ==>
                && Free(rows, oldest.value, at, reclaimAfter, taken)
                && forall n :: Free(rows, n, at, reclaimAfter, taken) ==> rows[oldest.value].createdAt <= rows[n].createdAt
    {
      oldest := None;
      var rest := rows.Keys;
      while rest != {}
        invariant rest <= rows.Keys
        invariant oldest.None? ==> forall n :: Free(rows, n, at, reclaimAfter, taken) ==> n in rest
        invariant oldest.Some? ==>
                    && Free(rows, oldest.value, at, reclaimAfter, taken)
                    && forall n :: Free(rows, n, at, reclaimAfter, taken) && n !in rest ==> rows[oldest.value].createdAt <= rows[n].createdAt
      {
        var n :| n in rest;
        if Free(rows, n, at, reclaimAfter, taken) && (oldest.None? || rows[n].createdAt < rows[oldest.value].createdAt) {
          oldest := Some(n);
        }
        rest := rest - {n};
      }
    }

    /** Takes free rows, oldest first, until the bound or the end. */
    method ChooseFree(bound: nat, at: int, reclaimAfter: int, locked: set<nat>) returns (entries: seq<OutboxEntry>)
      ensures TakenSoFar(rows, entries, at, reclaimAfter, locked) && |entries| <= bound
      ensures |entries| < bound ==> forall n :: Free(rows, n, at, reclaimAfter, locked) ==> n in IdSet(entries)
    {
      entries := [];
      while |entries| < bound
        invariant |entries| <= bound
        invariant TakenSoFar(rows, entries, at, reclaimAfter, locked)
      {
        var oldest := OldestFree(at, reclaimAfter, locked + IdSet(entries));
        FreeOfTaken(rows, at, reclaimAfter, locked, IdSet(entries));
        if oldest.None? { return; }
        TakesOldest(rows, entries, oldest.value, at, reclaimAfter, locked);
        entries := entries + [EntryOf(rows, oldest.value)];
      }
    }

    /** Takes and leases a batch. A bound out of range means 500. */
    method Claim(limit: int, owner: string, at: int, reclaimAfter: int, locked: set<nat>, up: bool) returns (entries: seq<OutboxEntry>)
      modifies this`rows
      ensures !up ==> entries == [] && rows == old(rows)
      ensures up ==>
        && ClaimChoice(old(rows), IdSet(entries), if 0 < limit <= 2000 then limit else 500, at, reclaimAfter, locked)
        && rows == Lease(old(rows), IdSet(entries), at, owner)
      ensures Faithful(old(rows), entries)
    {
      if !up { return []; }
      entries := ChooseFree(if 0 < limit <= 2000 then limit else 500, at, reclaimAfter, locked);
      rows := Lease(rows, IdSet(entries), at, owner);
    }

    method MarkPublishedBatch(ids: seq<nat>, at: int, up: bool) returns (ok: bool)
      modifies this`rows
      ensures ok <==> ids == [] || up
      ensures rows == if ok then MarkPublished(old(rows), (set n | n in ids), at) else old(rows)
    {
      if ids == [] {
        assert (set n | n in ids) == {};
        assert rows == MarkPublished(rows, {}, at);
        return true;
      }
      if !up { return false; }
      rows := MarkPublished(rows, (set n | n in ids), at);
      return true;
    }

    method MarkFailed(n: nat, reason: string, up: bool)
      modifies this`rows
      ensures rows == if up then Outbox.MarkFailed(old(rows), n, reason) else old(rows)
    {
      if up && n in rows {
        rows := rows[n := rows[n].(attempts := rows[n].attempts + 1, lastError := reason)];
      }
    }

    /** Deletes up to a batch of one tenant's delivered rows. */
    method PrunePublished(tenant: string, before: int, batch: int, up: bool) returns (deleted: Option<nat>, ghost doomed: set<nat>)
      modifies this`rows
      ensures !up || tenant == "" ==> deleted.None? && rows == old(rows)
      ensures up && tenant != "" ==>
        && PruneChoice(old(rows), tenant, before, doomed)
        && rows == old(rows) - doomed && deleted == Some(|doomed|)
        && var bound := if batch <= 0 then 5000 else batch;
           |doomed| <= bound && (|doomed| < bound ==> forall n :: n in rows ==> !Prunable(rows[n], tenant, before))
    {
      doomed := {};
      if !up || tenant == "" { return None, {}; }
      var bound := if batch <= 0 then 5000 else batch;
      var chosen, rest := {}, rows.Keys;
      while |chosen| < bound && rest != {}
        invariant |chosen| <= bound && chosen <= rows.Keys && rest <= rows.Keys
        invariant forall n :: n in chosen ==> Prunable(rows[n], tenant, before) && n !in rest
        invariant forall n :: n in rows && Prunable(rows[n], tenant, before) ==> n in chosen || n in rest
        decreases |rest|
      {
        var n :| n in rest;
        if Prunable(rows[n], tenant, before) { chosen := chosen + {n}; }
        rest := rest - {n};
      }
      rows := rows - chosen;
      return Some(|chosen|), chosen;
    }
  }

  /** Each entry is its own row's, once. */
  ghost predicate Faithful(rows: map<nat, Row>, entries: seq<OutboxEntry>) {
    && |IdSet(entries)| == |entries|
    && forall k :: 0 <= k < |entries| ==> entries[k].outboxID in rows && entries[k] == EntryOf(rows, entries[k].outboxID)
  }

  /** The claim under way: every row taken is free, and no older than any free row left. */
  ghost predicate TakenSoFar(rows: map<nat, Row>, entries: seq<OutboxEntry>, at: int, reclaimAfter: int, locked: set<nat>) {
    && Faithful(rows, entries)
    && (forall n :: n in IdSet(entries) ==> Free(rows, n, at, reclaimAfter, locked))
    && (forall n, m :: n in IdSet(entries) && Free(rows, m, at, reclaimAfter, locked) && m !in IdSet(entries) ==>
          rows[n].createdAt <= rows[m].createdAt)
  }

  lemma TakesOldest(rows: map<nat, Row>, entries: seq<OutboxEntry>, n: nat, at: int, reclaimAfter: int, locked: set<nat>)
    requires TakenSoFar(rows, entries, at, reclaimAfter, locked)
    requires Free(rows, n, at, reclaimAfter, locked) && n !in IdSet(entries)
    requires forall m :: Free(rows, m, at, reclaimAfter, locked) && m !in IdSet(entries) ==> rows[n].createdAt <= rows[m].createdAt
    ensures TakenSoFar(rows, entries + [EntryOf(rows, n)], at, reclaimAfter, locked)
  {
    assert IdSet(entries + [EntryOf(rows, n)]) == IdSet(entries) + {n};
  }

  lemma FreeOfTaken(rows: map<nat, Row>, at: int, reclaimAfter: int, locked: set<nat>, taken: set<nat>)
    ensures forall n :: Free(rows, n, at, reclaimAfter, locked + taken) <==> Free(rows, n, at, reclaimAfter, locked) && n !in taken
  {
  }
}
