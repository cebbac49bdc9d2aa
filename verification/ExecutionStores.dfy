/** The stores as the objects the service calls, each method proved against the step of
    Idempotency.dfy it performs (internal/execution/pgstore.go, memstore.go, retention.go). */
module ExecutionStores {
  import opened Wrappers
  import opened Broker
  import opened Idempotency

  /** The authoritative store. Each method is one tenant-scoped transaction; `down` is a
      database that cannot be reached. */
  class PostgresStore {
    var records: map<Ident, Record>
    var tombstones: map<Ident, Tombstone>
    var down: bool

    function State(): Tables
      reads this
    {
      Tables(records, tombstones)
    }

    ghost predicate Valid()
      reads this
    {
      Consistent(State())
    }

    constructor ()
      ensures Valid() && State() == EMPTY_TABLES && !down
    {
      records, tombstones, down := map[], map[], false;
    }

    /** Inserts a PENDING record, or reports what already holds the identity. */
    method Claim(r: Record) returns (result: Option<ClaimResult>)
      requires Valid()
      modifies this
      ensures Valid() && down == old(down)
      ensures down ==> result.None? && State() == old(State())
      ensures !down ==> result == Some(Idempotency.Claim(old(State()), r).1) && State() == Idempotency.Claim(old(State()), r).0
    {
      ClaimKeeps(State(), r);
      if down { return None; }
      if r.tenantID == "" { return Some(Refused(TenantContextMissing)); }
      var inserted := false;
      if !RetiredKey(State(), r) && !RetiredEnvelope(State(), r) && r.Id() !in records {
        if LiveClientOrder(State(), r) { return Some(Refused(ClientOrderTaken)); }
        if LiveEnvelope(State(), r) { return Some(Refused(EnvelopeReused)); }
        records := records[r.Id() := r.(state := Pending, outcome := NO_OUTCOME, updatedAt := r.createdAt)];
        inserted := true;
      }
      if inserted { return Some(Claimed); }
      if r.Id() in records { return Some(Existing(records[r.Id()])); }
      var reason := RetiredIn(r);
      return Some(Refused(reason));
    }

    predicate ReusesEnvelope(id: Ident, r: Record)
      reads this
      requires id in tombstones
    {
      id.tenant == r.tenantID && id.key != r.key && tombstones[id].envelopeID == r.envelopeID
    }

    /** Reads the tombstones of either identity and says which one is spent. */
    method RetiredIn(r: Record) returns (reason: ClaimError)
      ensures reason == RetiredReason(State(), r)
    {
      var keyRetired, envelopeRetired := false, false;
      var rows := tombstones.Keys;
      while rows != {}
        invariant rows <= tombstones.Keys
        invariant keyRetired <==> r.Id() in tombstones.Keys - rows
        invariant envelopeRetired <==> r.envelopeID != "" && exists id :: id in tombstones.Keys - rows && ReusesEnvelope(id, r)
      {
        var row :| row in rows;
        if row == r.Id() {
          keyRetired := true;
        }
        if r.envelopeID != "" && ReusesEnvelope(row, r) {
          envelopeRetired := true;
        }
        rows := rows - {row};
      }
      assert tombstones.Keys - rows == tombstones.Keys;
      if keyRetired { return KeyRetired; }
      assert RetiredEnvelopeElsewhere(State(), r) <==> exists id :: id in tombstones.Keys && ReusesEnvelope(id, r);
      if envelopeRetired { return EnvelopeReused; }
      return Unreadable;
    }

    /** Writes the final outcome of a PENDING record; refuses any other. */
    method Resolve(tenantID: string, key: string, o: Outcome, at: int) returns (ok: bool)
      requires Valid()
      modifies this
      ensures Valid() && down == old(down)
      ensures down ==> !ok && State() == old(State())
      ensures !down ==> (State(), ok) == Idempotency.Resolve(old(State()), Ident(tenantID, key), o, at)
    {
      var id := Ident(tenantID, key);
      ResolveKeeps(State(), id, o, at);
      if down || tenantID == "" { return false; }
      if id !in records || !records[id].state.Pending? { return false; }
      var r := records[id];
      records := records[id := r.(state := Resolved, outcome := Stored(r, o), updatedAt := at)];
      return true;
    }

    method Load(tenantID: string, key: string) returns (r: Option<Record>)
      ensures r == if !down && Ident(tenantID, key) in records then Some(records[Ident(tenantID, key)]) else None
    {
      if !down && Ident(tenantID, key) in records {
        return Some(records[Ident(tenantID, key)]);
      }
      return None;
    }

    /** The oldest prunable record not yet chosen, if there is one. */
    method Oldest(tenant: string, before: int, chosen: set<Ident>) returns (oldest: Option<Ident>)
      ensures oldest.None? ==> forall id :: Prunable(State(), tenant, before, id) ==> id in chosen
      ensures oldest.Some? ==>
                && Prunable(State(), tenant, before, oldest.value) && oldest.value !in chosen
                && forall id :: Prunable(State(), tenant, before, id) && id !in chosen ==>
                     records[oldest.value].updatedAt <= records[id].updatedAt
    {
      oldest := None;
      var rest := records.Keys;
      while rest != {}
        invariant rest <= records.Keys
        invariant oldest.None? ==>
                    forall id :: Prunable(State(), tenant, before, id) ==> id in chosen || id in rest
        invariant oldest.Some? ==>
                    && Prunable(State(), tenant, before, oldest.value) && oldest.value !in chosen
                    && forall id :: Prunable(State(), tenant, before, id) && id !in chosen && id !in rest ==>
                         records[oldest.value].updatedAt <= records[id].updatedAt
      {
        var id :| id in rest;
        if Prunable(State(), tenant, before, id) && id !in chosen {
          if oldest.None? || records[id].updatedAt < records[oldest.value].updatedAt {
            oldest := Some(id);
          }
        }
        rest := rest - {id};
      }
    }

    /** Chooses the batch: repeatedly the oldest, until the bound or the end. */
    method ChooseBatch(tenant: string, before: int) returns (batch: set<Ident>)
      ensures PruneBatch(State(), tenant, before, batch)
    {
      batch := {};
      var full := false;
      while |batch| < PRUNE_BATCH && !full
        invariant |batch| <= PRUNE_BATCH
        invariant forall id :: id in batch ==> Prunable(State(), tenant, before, id)
        invariant forall id, other :: id in batch && Prunable(State(), tenant, before, other) && other !in batch ==>
                    records[id].updatedAt <= records[other].updatedAt
        invariant full ==> forall id :: Prunable(State(), tenant, before, id) ==> id in batch
        decreases PRUNE_BATCH - |batch|, !full
      {
        var oldest := Oldest(tenant, before, batch);
        if oldest.None? {
          full := true;
        } else {
          batch := batch + {oldest.value};
        }
      }
    }

    /** Moves one bounded batch, oldest first, from records to tombstones, in one commit. */
    method Prune(tenant: string, before: int) returns (deleted: Option<nat>, ghost doomed: set<Ident>)
      requires Valid()
      modifies this
      ensures Valid() && down == old(down)
      ensures down || tenant == "" ==> deleted.None? && State() == old(State())
      ensures !down && tenant != "" ==>
                && PruneBatch(old(State()), tenant, before, doomed)
                && State() == Idempotency.Prune(old(State()), doomed)
                && deleted == Some(|doomed|)
    {
      doomed := {};
      if down || tenant == "" { return None, {}; }
      var batch := ChooseBatch(tenant, before);
      PruneKeeps(State(), tenant, before, batch);
      tombstones := (map id | id in batch && id in records :: ToTombstone(records[id])) + tombstones;
      records := records - batch;
      return Some(|batch|), batch;
    }
  }

  /** Removing a batch that lies inside a map removes that many entries. */
  lemma RemovedCount(m: map<Ident, Record>, batch: set<Ident>)
    requires batch <= m.Keys
    ensures |m - batch| == |m| - |batch|
  {
    assert (m - batch).Keys == m.Keys - batch;
    assert |m.Keys - batch| == |m.Keys| - |batch|;
  }

  /** Retention on a schedule. */
  class Sweeper {
    const store: PostgresStore
    const keep: int

    constructor (store: PostgresStore, keep: int)
      ensures this.store == store && this.keep == keep
    {
      this.store := store;
      this.keep := keep;
    }

    /** One pass over every tenant this process serves. When the store answers, it leaves
        nothing prunable behind, retires every identity it deletes, counts what it deleted,
        and touches neither pending records nor any tenant outside the list. */
    method Sweep(tenants: seq<string>, now: int) returns (total: nat)
      requires store.Valid()
      modifies store
      ensures store.Valid()
      ensures Remembers(old(store.State()), store.State())
      ensures total == |old(store.records)| - |store.records|
      ensures forall id :: id in old(store.records) && (old(store.records[id]).state.Pending? || id.tenant !in tenants
                                || old(store.records[id]).updatedAt >= now - keep) ==>
                id in store.records && store.records[id] == old(store.records[id])
      ensures !old(store.down) ==>
                Swept(store.State(), tenants, now - keep)
    {
      var before := now - keep;
      total := 0;
      for n := 0 to |tenants|
        invariant store.Valid() && store.down == old(store.down)
        invariant Remembers(old(store.State()), store.State())
        invariant total == |old(store.records)| - |store.records|
        invariant Untouched(old(store.State()), store.State(), tenants, before)
        invariant !store.down ==> Swept(store.State(), tenants[..n], before)
      {
        var more := true;
        while more
          invariant store.Valid() && store.down == old(store.down)
          invariant Remembers(old(store.State()), store.State())
          invariant total == |old(store.records)| - |store.records|
          invariant Untouched(old(store.State()), store.State(), tenants, before)
          invariant !store.down ==> Swept(store.State(), tenants[..n], before)
          invariant !more && !store.down ==> Swept(store.State(), [tenants[n]], before)
          decreases |store.records|, more
        {
          ghost var t := store.State();
          var deleted, doomed := store.Prune(tenants[n], before);
          if deleted.None? {
            more := false;
          } else {
            SweepStep(old(store.State()), t, tenants, n, before, doomed);
            assert doomed <= t.records.Keys;
            RemovedCount(t.records, doomed);
            total := total + deleted.value;
            more := deleted.value == PRUNE_BATCH;
          }
        }
        assert !store.down ==> Swept(store.State(), tenants[..n + 1], before) by {
          assert tenants[..n + 1] == tenants[..n] + [tenants[n]];
        }
      }
      assert tenants[..|tenants|] == tenants;
    }
  }

  ghost predicate Swept(t: Tables, tenants: seq<string>, before: int) {
    forall k, id :: 0 <= k < |tenants| ==> !Prunable(t, tenants[k], before, id)
  }

  ghost predicate Untouched(t: Tables, t': Tables, tenants: seq<string>, before: int) {
    forall id :: id in t.records && (t.records[id].state.Pending? || id.tenant !in tenants || t.records[id].updatedAt >= before) ==>
      id in t'.records && t'.records[id] == t.records[id]
  }

  lemma SweepStep(t0: Tables, t: Tables, tenants: seq<string>, n: nat, before: int, doomed: set<Ident>)
    requires Consistent(t) && n < |tenants|
    requires Remembers(t0, t) && Untouched(t0, t, tenants, before)
    requires PruneBatch(t, tenants[n], before, doomed)
    ensures var t' := Prune(t, doomed);
      && Remembers(t0, t')
      && Untouched(t0, t', tenants, before)
      && (Swept(t, tenants[..n], before) ==> Swept(t', tenants[..n], before))
      && (|doomed| < PRUNE_BATCH ==> Swept(t', [tenants[n]], before))
  {
    PruneKeeps(t, tenants[n], before, doomed);
    PruneMoves(t, tenants[n], before, doomed);
    var t' := Prune(t, doomed);
    forall k, id | 0 <= k < |tenants[..n]| && Swept(t, tenants[..n], before)
      ensures !Prunable(t', tenants[..n][k], before, id)
    {
      assert !Prunable(t, tenants[..n][k], before, id);
    }
  }
}
