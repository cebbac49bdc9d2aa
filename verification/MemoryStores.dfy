/** The in-process store and cache (internal/execution/memstore.go). The store mirrors the
    database's unique indexes and tombstones with maps of its own; `Mirrors` says how, and
    a claim of its is compared with the database's. */
module MemoryStores {
  import opened Wrappers
  import opened Broker
  import opened Idempotency

  /** The store's maps: records, (tenant, envelope id) to the key that holds it, and the two
      retired identities. */
  datatype Maps = Maps(
    records: map<Ident, Record>,
    envelopes: map<Ident, string>,
    retiredKeys: map<Ident, string>,
    retiredEnvelopes: map<Ident, string>)

  /** `held` sends exactly the envelopes of `rows` to the keys they are filed under; a row
      without an envelope is not indexed. */
  ghost predicate EnvelopesOfRecords(held: map<Ident, string>, rows: map<Ident, Record>) {
    && (forall e :: e in held ==> e.key != "" && Ident(e.tenant, held[e]) in rows && rows[Ident(e.tenant, held[e])].envelopeID == e.key)
    && (forall id :: id in rows && rows[id].envelopeID != "" ==> Ident(id.tenant, rows[id].envelopeID) in held)
  }

  ghost predicate EnvelopesOfTombstones(held: map<Ident, string>, rows: map<Ident, Tombstone>) {
    && (forall e :: e in held ==> e.key != "" && Ident(e.tenant, held[e]) in rows && rows[Ident(e.tenant, held[e])].envelopeID == e.key)
    && (forall id :: id in rows && rows[id].envelopeID != "" ==> Ident(id.tenant, rows[id].envelopeID) in held)
  }

  /** The maps say what the tables say. */
  ghost predicate Mirrors(m: Maps, t: Tables) {
    && m.records == t.records
    && EnvelopesOfRecords(m.envelopes, t.records)
    && (forall id :: id in m.retiredKeys <==> id in t.tombstones)
    && EnvelopesOfTombstones(m.retiredEnvelopes, t.tombstones)
  }

  /** The in-process store's step, in the order it checks; it looks at no envelope that is
      absent. */
  function MemoryClaim(m: Maps, r: Record): (Maps, ClaimResult) {
    var e := Ident(r.tenantID, r.envelopeID);
    if r.Id() in m.retiredKeys then (m, Refused(KeyRetired))
    else if r.envelopeID != "" && e in m.retiredEnvelopes && m.retiredEnvelopes[e] != r.key then (m, Refused(EnvelopeReused))
    else if r.Id() in m.records then (m, Existing(m.records[r.Id()]))
    else if r.envelopeID != "" && e in m.envelopes && m.envelopes[e] != r.key then (m, Refused(EnvelopeReused))
    else
      (m.(records := m.records[r.Id() := r], envelopes := if r.envelopeID != "" then m.envelopes[e := r.key] else m.envelopes), Claimed)
  }

  lemma RetiredEnvelopeMirrored(m: Maps, t: Tables, r: Record)
    requires Mirrors(m, t) && r.Id() !in t.tombstones && r.envelopeID != ""
    ensures RetiredEnvelope(t, r) <==> Ident(r.tenantID, r.envelopeID) in m.retiredEnvelopes
  {
    var e := Ident(r.tenantID, r.envelopeID);
    if e in m.retiredEnvelopes {
      var id := Ident(e.tenant, m.retiredEnvelopes[e]);
      assert id in t.tombstones && t.tombstones[id].envelopeID == r.envelopeID;
    }
  }

  lemma LiveEnvelopeMirrored(m: Maps, t: Tables, r: Record)
    requires Mirrors(m, t) && r.Id() !in t.records && r.envelopeID != ""
    ensures LiveEnvelope(t, r) <==> Ident(r.tenantID, r.envelopeID) in m.envelopes
  {
    var e := Ident(r.tenantID, r.envelopeID);
    if e in m.envelopes {
      var id := Ident(e.tenant, m.envelopes[e]);
      assert id in t.records && t.records[id].envelopeID == r.envelopeID;
    }
  }

  /** A key never seen, under an envelope never seen or absent. */
  ghost predicate Fresh(t: Tables, r: Record) {
    !Spent(t, r.Id()) && (r.envelopeID != "" ==> !RetiredEnvelope(t, r) && !LiveEnvelope(t, r))
  }

  lemma MemoryClaimsFresh(m: Maps, t: Tables, r: Record)
    requires Mirrors(m, t)
    ensures MemoryClaim(m, r).1.Claimed? <==> Fresh(t, r)
  {
    var e := Ident(r.tenantID, r.envelopeID);
    if !Spent(t, r.Id()) && r.envelopeID != "" {
      RetiredEnvelopeMirrored(m, t, r);
      LiveEnvelopeMirrored(m, t, r);
      assert e in m.retiredEnvelopes ==> Ident(e.tenant, m.retiredEnvelopes[e]) in t.tombstones;
      assert e in m.envelopes ==> Ident(e.tenant, m.envelopes[e]) in t.records;
    }
  }

  /** What the database refuses and the in-process store does not look at: an absent tenant;
      a client order id in use; and the absent envelope, which the database's unique index
      and tombstones treat as a value like any other. */
  ghost predicate Overlooked(t: Tables, r: Record) {
    && Fresh(t, r)
    && (r.tenantID == "" || LiveClientOrder(t, r) || (r.envelopeID == "" && (RetiredEnvelope(t, r) || LiveEnvelope(t, r))))
  }

  /** The in-process store claims exactly when the database does, exactly where nothing is
      overlooked; and reports an existing record only when the database reports the same
      one. */
  lemma MemoryClaimAgreesExactly(m: Maps, t: Tables, r: Record)
    requires Consistent(t) && Mirrors(m, t)
    ensures (MemoryClaim(m, r).1.Claimed? <==> Claim(t, r).1.Claimed?) <==> !Overlooked(t, r)
    ensures MemoryClaim(m, r).1.Existing? ==> MemoryClaim(m, r).1 == Claim(t, r).1
  {
    MemoryClaimsFresh(m, t, r);
  }

  lemma EnvelopesHeld(held: map<Ident, string>, rows: map<Ident, Record>, r: Record)
    requires EnvelopesOfRecords(held, rows) && r.envelopeID != "" && r.Id() !in rows
    requires Ident(r.tenantID, r.envelopeID) !in held
    ensures EnvelopesOfRecords(held[Ident(r.tenantID, r.envelopeID) := r.key], rows[r.Id() := r])
  {
    var e := Ident(r.tenantID, r.envelopeID);
    var held', rows' := held[e := r.key], rows[r.Id() := r];
    forall f | f in held' ensures f.key != "" && Ident(f.tenant, held'[f]) in rows' && rows'[Ident(f.tenant, held'[f])].envelopeID == f.key {
      if f != e { assert Ident(f.tenant, held[f]) in rows; }
    }
  }

  /** After a claim both let through, the maps mirror the new tables. */
  lemma InsertMirrors(m: Maps, t: Tables, r: Record)
    requires Consistent(t) && Mirrors(m, t)
    requires r.state.Pending? && r.outcome == NO_OUTCOME && r.updatedAt == r.createdAt
    requires Claim(t, r).1.Claimed?
    ensures MemoryClaim(m, r).1.Claimed? && Mirrors(MemoryClaim(m, r).0, Claim(t, r).0)
  {
    assert Claim(t, r).0 == Tables(t.records[r.Id() := r], t.tombstones) && r.Id() !in t.records && !LiveEnvelope(t, r);
    MemoryClaimsFresh(m, t, r);
    if r.envelopeID != "" {
      LiveEnvelopeMirrored(m, t, r);
      EnvelopesHeld(m.envelopes, t.records, r);
    }
  }

  class MemoryStore {
    var records: map<Ident, Record>
    var envelopes: map<Ident, string>
    var retiredKeys: map<Ident, string>
    var retiredEnvelopes: map<Ident, string>
    var failWith: bool

    constructor ()
      ensures Mirrors(State(), EMPTY_TABLES) && !failWith
    {
      records, envelopes, retiredKeys, retiredEnvelopes, failWith := map[], map[], map[], map[], false;
    }

    function State(): Maps
      reads this
    {
      Maps(records, envelopes, retiredKeys, retiredEnvelopes)
    }

    /** One step of the store, for any record and whatever the maps hold. */
    method Claim(r: Record) returns (result: Option<ClaimResult>)
      modifies this
      ensures failWith == old(failWith)
      ensures failWith ==> result.None? && State() == old(State())
      ensures !failWith ==> result.Some? && (State(), result.value) == MemoryClaim(old(State()), r)
    {
      if failWith { return None; }
      var k := r.Id();
      var e := Ident(r.tenantID, r.envelopeID);
      if k in retiredKeys { return Some(Refused(KeyRetired)); }
      if r.envelopeID != "" {
        if e in retiredEnvelopes && retiredEnvelopes[e] != r.key { return Some(Refused(EnvelopeReused)); }
      }
      if k in records { return Some(Existing(records[k])); }
      if r.envelopeID != "" {
        if e in envelopes && envelopes[e] != r.key { return Some(Refused(EnvelopeReused)); }
        envelopes := envelopes[e := r.key];
      }
      records := records[k := r];
      return Some(Claimed);
    }

    /** Writes an outcome whether or not one is already there. */
    method Resolve(tenantID: string, key: string, o: Outcome, at: int) returns (ok: bool)
      modifies this`records
      ensures failWith ==> !ok && records == old(records)
      ensures !failWith ==> (records, ok) == MemoryResolve(old(records), Ident(tenantID, key), o, at)
    {
      var id := Ident(tenantID, key);
      if failWith || id !in records { return false; }
      records := records[id := records[id].(state := Resolved, outcome := o.(replayed := false), updatedAt := at)];
      return true;
    }
  }

  function MemoryResolve(records: map<Ident, Record>, id: Ident, o: Outcome, at: int): (map<Ident, Record>, bool) {
    if id in records then
      (records[id := records[id].(state := Resolved, outcome := o.(replayed := false), updatedAt := at)], true)
    else
      (records, false)
  }

  /** Where the two stores part: on an outcome the service writes, the in-process store
      behaves as the database does exactly when the record is not already resolved. */
  lemma MemoryResolveAgreesExactly(t: Tables, id: Ident, o: Outcome, at: int)
    requires Consistent(t) && !o.reconciled
    requires id in t.records ==> o.clientOrderID == t.records[id].clientOrderID
    ensures var (records, ok) := MemoryResolve(t.records, id, o, at);
      var (t', ok') := Resolve(t, id, o, at);
      (records == t'.records && ok == ok') <==> !(id in t.records && t.records[id].state.Resolved?)
  {
    if id in t.records {
      assert id.tenant != "";
      assert Stored(t.records[id], o) == o.(replayed := false);
    }
  }

  /** The cache standing in for Redis. `disabled` is Redis being gone. */
  class MemoryCache {
    var records: map<Ident, Record>
    var disabled: bool

    constructor ()
      ensures records == map[] && !disabled
    {
      records, disabled := map[], false;
    }

    method Get(tenantID: string, key: string) returns (r: Option<Record>)
      ensures r == if !disabled && Ident(tenantID, key) in records then Some(records[Ident(tenantID, key)]) else None
    {
      if !disabled && Ident(tenantID, key) in records {
        return Some(records[Ident(tenantID, key)]);
      }
      return None;
    }

    method Put(r: Record)
      modifies this`records
      ensures records == if disabled then old(records) else old(records)[r.Id() := r]
    {
      if !disabled {
        records := records[r.Id() := r];
      }
    }

    method Flush()
      modifies this`records
      ensures records == map[]
    {
      records := map[];
    }
  }
}
