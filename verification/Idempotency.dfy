/** The authoritative idempotency tables and the four transactions over them
    (internal/execution/idempotency.go, pgstore.go, retention.go), each as one atomic
    step on values. The classes in ExecutionStores.dfy are proved against these steps,
    and the concurrent runs of ExecutionRuns.dfy are built from them. */
module Idempotency {
  import opened Broker

  /** Tenant and idempotency key: the primary key of both tables. */
  datatype Ident = Ident(tenant: string, key: string)

  datatype RecordState = Pending | Resolved

  datatype Outcome = Outcome(
    state: ExecutionState,
    clientOrderID: string,
    brokerOrderID: string,
    filledQuantity: real,
    rejectReason: string,
    replayed: bool,
    reconciled: bool)
  {
    /** The outcome without the two flags that say how it was obtained; they are never
        persisted. */
    function Core(): Outcome {
      this.(replayed := false, reconciled := false)
    }
  }

  const NO_OUTCOME := Outcome(Unnamed(""), "", "", 0.0, "", false, false)

  datatype Record = Record(
    tenantID: string,
    key: string,
    envelopeID: string,
    clientOrderID: string,
    state: RecordState,
    outcome: Outcome,
    createdAt: int,
    updatedAt: int)
  {
    function Id(): Ident { Ident(tenantID, key) }
  }

  datatype Tombstone = Tombstone(envelopeID: string, clientOrderID: string, finalState: ExecutionState)

  datatype Tables = Tables(records: map<Ident, Record>, tombstones: map<Ident, Tombstone>)

  const EMPTY_TABLES := Tables(map[], map[])

  datatype ClaimError =
    | TenantContextMissing
    | KeyRetired
    | EnvelopeReused
    | ClientOrderTaken
    | Unreadable

  datatype ClaimResult =
    | Claimed
    | Existing(record: Record)
    | Refused(error: ClaimError)

  /** How many records one pruning transaction may move. */
  const PRUNE_BATCH := 5000

  predicate RetiredKey(t: Tables, r: Record) {
    r.Id() in t.tombstones
  }

  predicate RetiredEnvelope(t: Tables, r: Record) {
    exists id :: id in t.tombstones && id.tenant == r.tenantID && t.tombstones[id].envelopeID == r.envelopeID
  }

  predicate RetiredEnvelopeElsewhere(t: Tables, r: Record) {
    exists id :: id in t.tombstones && id.tenant == r.tenantID && id.key != r.key && t.tombstones[id].envelopeID == r.envelopeID
  }

  predicate LiveEnvelope(t: Tables, r: Record) {
    exists id :: id in t.records && id.tenant == r.tenantID && t.records[id].envelopeID == r.envelopeID
  }

  predicate LiveClientOrder(t: Tables, r: Record) {
    exists id :: id in t.records && id.tenant == r.tenantID && t.records[id].clientOrderID == r.clientOrderID
  }

  /** Why a claim that inserted nothing and found no live record is refused. */
  function RetiredReason(t: Tables, r: Record): ClaimError {
    if RetiredKey(t, r) then KeyRetired
    else if r.envelopeID != "" && RetiredEnvelopeElsewhere(t, r) then EnvelopeReused
    else Unreadable
  }

  /** One claim: insert a PENDING record, report the live one, or refuse. The insert
      happens only when neither identity is retired; the key conflict is absorbed, and the
      two other unique indexes refuse. */
  function Claim(t: Tables, r: Record): (Tables, ClaimResult) {
    if r.tenantID == "" then
      (t, Refused(TenantContextMissing))
    else if RetiredKey(t, r) || RetiredEnvelope(t, r) then
      (t, if r.Id() in t.records then Existing(t.records[r.Id()]) else Refused(RetiredReason(t, r)))
    else if r.Id() in t.records then
      (t, Existing(t.records[r.Id()]))
    else if LiveClientOrder(t, r) then
      (t, Refused(ClientOrderTaken))
    else if LiveEnvelope(t, r) then
      (t, Refused(EnvelopeReused))
    else
      (t.(records := t.records[r.Id() := r.(state := Pending, outcome := NO_OUTCOME, updatedAt := r.createdAt)]), Claimed)
  }

  predicate Resolvable(t: Tables, id: Ident) {
    id.tenant != "" && id in t.records && t.records[id].state.Pending?
  }

  /** What the outcome columns hold: the flags are dropped and the client order id is the
      record's own. */
  function Stored(r: Record, o: Outcome): Outcome {
    o.Core().(clientOrderID := r.clientOrderID)
  }

  /** Resolve writes the outcome of a PENDING record and touches nothing else. */
  function Resolve(t: Tables, id: Ident, o: Outcome, at: int): (Tables, bool) {
    if Resolvable(t, id) then
      var r := t.records[id];
      (t.(records := t.records[id := r.(state := Resolved, outcome := Stored(r, o), updatedAt := at)]), true)
    else
      (t, false)
  }

  predicate Prunable(t: Tables, tenant: string, before: int, id: Ident) {
    id in t.records && id.tenant == tenant && t.records[id].state.Resolved? && t.records[id].updatedAt < before
  }

  /** A batch a pruning transaction may choose: prunable, bounded, oldest first, and
      complete unless the bound was reached. */
  ghost predicate PruneBatch(t: Tables, tenant: string, before: int, doomed: set<Ident>) {
    && (forall id :: id in doomed ==> Prunable(t, tenant, before, id))
    && |doomed| <= PRUNE_BATCH
    && (forall id, other :: id in doomed && Prunable(t, tenant, before, other) && other !in doomed ==>
          t.records[id].updatedAt <= t.records[other].updatedAt)
    && (|doomed| < PRUNE_BATCH ==> forall id :: Prunable(t, tenant, before, id) ==> id in doomed)
  }

  function ToTombstone(r: Record): Tombstone {
    Tombstone(r.envelopeID, r.clientOrderID, r.outcome.state)
  }

  /** Prune retires every doomed identity and deletes its record, in one commit. A
      tombstone already present is kept. */
  function Prune(t: Tables, doomed: set<Ident>): Tables {
    Tables(
      t.records - doomed,
      (map id | id in doomed && id in t.records :: ToTombstone(t.records[id])) + t.tombstones)
  }

  // ---------------------------------------------------------------------------
  // The tables' own invariant
  // ---------------------------------------------------------------------------

  /** The platform has claimed this identity and still remembers it. */
  predicate Spent(t: Tables, id: Ident) {
    id in t.records || id in t.tombstones
  }

  /** The envelope an identity was spent under. */
  function EnvelopeOf(t: Tables, id: Ident): string
    requires Spent(t, id)
  {
    if id in t.records then t.records[id].envelopeID else t.tombstones[id].envelopeID
  }

  function ClientOrderOf(t: Tables, id: Ident): string
    requires Spent(t, id)
  {
    if id in t.records then t.records[id].clientOrderID else t.tombstones[id].clientOrderID
  }

  /** Within a tenant an envelope names one key, live or retired. */
  ghost predicate EnvelopesUnique(t: Tables) {
    forall a, b :: Spent(t, a) && Spent(t, b) && a.tenant == b.tenant && EnvelopeOf(t, a) == EnvelopeOf(t, b) ==> a == b
  }

  /** Records are filed under their own identity, and no identity is both live and retired. */
  ghost predicate Filed(t: Tables) {
    && (forall id :: id in t.records ==> t.records[id].Id() == id && id.tenant != "")
    && (forall id :: id in t.records ==> id !in t.tombstones)
  }

  ghost predicate Consistent(t: Tables) {
    Filed(t) && EnvelopesUnique(t)
  }

  /** `t'` remembers everything `t` does, under the same envelope and client order id. */
  ghost predicate Remembers(t: Tables, t': Tables) {
    forall id :: Spent(t, id) ==>
      && Spent(t', id)
      && EnvelopeOf(t', id) == EnvelopeOf(t, id)
      && ClientOrderOf(t', id) == ClientOrderOf(t, id)
  }

  /** A claim succeeds only when neither the key nor the envelope is known, live or retired. */
  lemma ClaimIsFresh(t: Tables, r: Record)
    requires Claim(t, r).1.Claimed?
    ensures !Spent(t, r.Id())
    ensures forall id :: Spent(t, id) && id.tenant == r.tenantID ==> EnvelopeOf(t, id) != r.envelopeID
  {
    forall id | Spent(t, id) && id.tenant == r.tenantID
      ensures EnvelopeOf(t, id) != r.envelopeID
    {
      if id in t.records {
        assert !LiveEnvelope(t, r);
      } else {
        assert !RetiredEnvelope(t, r);
      }
    }
  }

  /** A successful claim inserts exactly one PENDING record; any other result changes
      nothing. */
  lemma ClaimInserts(t: Tables, r: Record)
    requires Consistent(t)
    ensures var (t', result) := Claim(t, r);
      if result.Claimed? then
        && t'.tombstones == t.tombstones
        && t'.records == t.records[r.Id() := t'.records[r.Id()]]
        && t'.records[r.Id()].Id() == r.Id()
        && t'.records[r.Id()].state.Pending?
        && t'.records[r.Id()].envelopeID == r.envelopeID
        && t'.records[r.Id()].clientOrderID == r.clientOrderID
        && t'.records[r.Id()].createdAt == r.createdAt && t'.records[r.Id()].updatedAt == r.createdAt
        && r.Id().tenant != ""
        && !Spent(t, r.Id())
      else
        t' == t
  {
  }

  /** The claim keeps the tables consistent, forgets nothing, and spends at most the
      identity it was asked for. */
  lemma ClaimKeeps(t: Tables, r: Record)
    requires Consistent(t)
    ensures var (t', result) := Claim(t, r);
      && Consistent(t')
      && Remembers(t, t')
      && (forall id :: Spent(t', id) <==> Spent(t, id) || (result.Claimed? && id == r.Id()))
  {
    ClaimInserts(t, r);
    var (t', result) := Claim(t, r);
    if result.Claimed? {
      ClaimIsFresh(t, r);
      forall a, b | Spent(t', a) && Spent(t', b) && a.tenant == b.tenant && EnvelopeOf(t', a) == EnvelopeOf(t', b)
        ensures a == b
      {
        assert a != r.Id() ==> Spent(t, a) && EnvelopeOf(t', a) == EnvelopeOf(t, a);
        assert b != r.Id() ==> Spent(t, b) && EnvelopeOf(t', b) == EnvelopeOf(t, b);
      }
    }
  }

  /** Tables that know the same identities under the same envelopes agree on uniqueness. */
  lemma SameIdentities(t: Tables, t': Tables)
    requires EnvelopesUnique(t)
    requires forall id :: Spent(t', id) <==> Spent(t, id)
    requires forall id :: Spent(t, id) ==> EnvelopeOf(t', id) == EnvelopeOf(t, id)
    ensures EnvelopesUnique(t')
  {
  }

  /** Resolving changes one PENDING record into a resolved one and nothing else. */
  lemma ResolveKeeps(t: Tables, id: Ident, o: Outcome, at: int)
    requires Consistent(t)
    ensures var (t', ok) := Resolve(t, id, o, at);
      && Consistent(t')
      && Remembers(t, t')
      && (forall i :: Spent(t', i) <==> Spent(t, i))
  {
    var (t', ok) := Resolve(t, id, o, at);
    if ok {
      var r := t'.records[id];
      assert t' == Tables(t.records[id := r], t.tombstones);
      assert r.envelopeID == t.records[id].envelopeID && r.clientOrderID == t.records[id].clientOrderID;
      SameIdentities(t, t');
    }
  }

  /** What a resolution writes: the outcome with its flags dropped and the record's own client
      order id, and the instant; it succeeds exactly on a PENDING record of a named tenant. */
  lemma ResolveWrites(t: Tables, id: Ident, o: Outcome, at: int)
    ensures var (t', ok) := Resolve(t, id, o, at);
      && (ok <==> id.tenant != "" && id in t.records && t.records[id].state == Pending)
      && (!ok ==> t' == t)
      && (ok ==>
            var r, r' := t.records[id], t'.records[id];
            && t'.tombstones == t.tombstones && t'.records == t.records[id := r']
            && r'.state == Resolved && r'.updatedAt == at && r'.createdAt == r.createdAt
            && r'.Id() == r.Id() && r'.envelopeID == r.envelopeID && r'.clientOrderID == r.clientOrderID
            && r'.outcome.state == o.state && r'.outcome.clientOrderID == r.clientOrderID
            && r'.outcome.brokerOrderID == o.brokerOrderID && r'.outcome.filledQuantity == o.filledQuantity
            && r'.outcome.rejectReason == o.rejectReason && !r'.outcome.replayed && !r'.outcome.reconciled)
  {
  }

  /** Pruning moves exactly the doomed records into the tombstones. */
  lemma PruneMoves(t: Tables, tenant: string, before: int, doomed: set<Ident>)
    requires Filed(t)
    requires forall id :: id in doomed ==> Prunable(t, tenant, before, id)
    ensures var t' := Prune(t, doomed);
      && (forall id :: id in t'.records <==> id in t.records && id !in doomed)
      && (forall id :: id in t'.records ==> t'.records[id] == t.records[id])
      && (forall id :: id in t'.tombstones <==> id in t.tombstones || id in doomed)
      && (forall id :: id in t.tombstones ==> t'.tombstones[id] == t.tombstones[id])
      && (forall id :: id in doomed ==> id in t.records && t'.tombstones[id] == ToTombstone(t.records[id]))
  {
  }

  /** Pruning never forgets an identity and never touches a PENDING record, another
      tenant's, or one updated at the cutoff or after. */
  lemma PruneKeeps(t: Tables, tenant: string, before: int, doomed: set<Ident>)
    requires Consistent(t)
    requires forall id :: id in doomed ==> Prunable(t, tenant, before, id)
    ensures var t' := Prune(t, doomed);
      && Consistent(t')
      && Remembers(t, t')
      && (forall id :: Spent(t', id) <==> Spent(t, id))
      && (forall id :: id in t.records && (t.records[id].state.Pending? || id.tenant != tenant || t.records[id].updatedAt >= before) ==>
            id in t'.records && t'.records[id] == t.records[id])
  {
    var t' := Prune(t, doomed);
    PruneMoves(t, tenant, before, doomed);
    assert forall id :: Spent(t, id) ==> EnvelopeOf(t', id) == EnvelopeOf(t, id);
    SameIdentities(t, t');
  }

  /** After a prune, a claim of a retired key under any envelope is refused as retired,
      and a claim of a retired envelope under any fresh key is refused as reused. */
  lemma RetiredIsRefused(t: Tables, id: Ident, r: Record)
    requires Consistent(t) && id in t.tombstones && r.tenantID == id.tenant && r.tenantID != ""
    ensures r.key == id.key ==> Claim(t, r) == (t, Refused(KeyRetired))
    ensures r.key != id.key && r.envelopeID == t.tombstones[id].envelopeID && r.envelopeID != ""
              && !Spent(t, r.Id())
            ==> Claim(t, r) == (t, Refused(EnvelopeReused))
  {
    if r.key == id.key {
      assert r.Id() == id;
    } else if r.envelopeID == t.tombstones[id].envelopeID && r.envelopeID != "" && !Spent(t, r.Id()) {
      assert RetiredEnvelope(t, r);
      assert RetiredEnvelopeElsewhere(t, r);
    }
  }
}
