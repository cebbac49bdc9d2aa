/** Evidence on its way to the bus (internal/evidence/store.go, outbox.go): the event table,
    the outbox beside it, and each transaction over the two as a step on values. */
module Outbox {
  import opened Wrappers

  /** `complete` stands for what Validate demands beyond the event and tenant ids; `body`
      for everything a reader of the event sees beyond its identity. */
  datatype Event = Event(tenantID: string, eventID: string, occurredAt: int, complete: bool, body: string)
  {
    function Id(): Key { Key(eventID, occurredAt) }
  }

  /** The event table's unique key. */
  datatype Key = Key(eventID: string, occurredAt: int)

  /** A queued or published text: an event, or something that is not one. */
  datatype Payload = Encoded(event: Event) | Garbled

  datatype Row = Row(
    tenantID: string,
    eventID: string,
    payload: Payload,
    createdAt: int,
    publishedAt: Option<int>,
    claimedAt: Option<int>,
    claimedBy: string,
    attempts: nat,
    lastError: string)

  datatype Tables = Tables(events: map<Key, Event>, rows: map<nat, Row>, next: nat)

  const EMPTY := Tables(map[], map[], 0)

  predicate Blank(s: string) {
    forall c :: c in s ==> c in " \t\n\r"
  }

  predicate Valid(e: Event) {
    !Blank(e.eventID) && !Blank(e.tenantID) && e.complete
  }

  // ---------------------------------------------------------------------------
  // Recording
  // ---------------------------------------------------------------------------

  /** ON CONFLICT (event_id, occurred_at) DO NOTHING. */
  function Insert(t: Tables, e: Event): Tables {
    if e.Id() in t.events then t else t.(events := t.events[e.Id() := e])
  }

  predicate Queued(rows: map<nat, Row>, eventID: string) {
    exists n :: n in rows && rows[n].eventID == eventID
  }

  function NewRow(e: Event, now: int): Row {
    Row(e.tenantID, e.eventID, Encoded(e), now, None, None, "", 0, "")
  }

  /** ON CONFLICT (event_id) DO NOTHING: one row for an id, whatever event holds it. */
  function Enqueue(t: Tables, e: Event, now: int): Tables {
    if Queued(t.rows, e.eventID) then t
    else t.(rows := t.rows[t.next := NewRow(e, now)], next := t.next + 1)
  }

  function InsertAll(t: Tables, events: seq<Event>): Tables
    decreases |events|
  {
    if events == [] then t else Insert(InsertAll(t, events[..|events| - 1]), events[|events| - 1])
  }

  function EnqueueAll(t: Tables, events: seq<Event>, now: int): Tables
    decreases |events|
  {
    if events == [] then t else Enqueue(EnqueueAll(t, events[..|events| - 1], now), events[|events| - 1], now)
  }

  datatype Recording = Invalid | MixedTenants | Recorded | AlreadyRecorded

  function Append(t: Tables, e: Event, now: int): (Tables, Recording) {
    if !Valid(e) then (t, Invalid)
    else if e.Id() in t.events then (t, AlreadyRecorded)
    else (Enqueue(Insert(t, e), e, now), Recorded)
  }

  function AppendConsumed(t: Tables, e: Event): (Tables, Recording) {
    if !Valid(e) then (t, Invalid)
    else if e.Id() in t.events then (t, AlreadyRecorded)
    else (Insert(t, e), Recorded)
  }

  /** The caller's transaction: the row is queued whether or not the event was new. */
  function AppendInTx(t: Tables, e: Event, now: int): (Tables, Recording) {
    if !Valid(e) then (t, Invalid) else (Enqueue(Insert(t, e), e, now), Recorded)
  }

  /** What the batch's first faulty event is faulted for, if any. */
  function BatchFault(events: seq<Event>, tenant: string): Option<Recording>
    decreases |events|
  {
    if events == [] then None
    else if events[0].tenantID != tenant then Some(MixedTenants)
    else if !Valid(events[0]) then Some(Invalid)
    else BatchFault(events[1..], tenant)
  }

  function AppendBatch(t: Tables, events: seq<Event>, now: int): (Tables, Recording) {
    if events == [] then (t, Recorded)
    else
      match BatchFault(events, events[0].tenantID)
      case Some(fault) => (t, fault)
      case None => (EnqueueAll(InsertAll(t, events), events, now), Recorded)
  }

  lemma {:induction false} BatchFaultless(events: seq<Event>, tenant: string)
    ensures BatchFault(events, tenant).None? <==> forall k :: 0 <= k < |events| ==> events[k].tenantID == tenant && Valid(events[k])
    decreases |events|
  {
    if events != [] {
      BatchFaultless(events[1..], tenant);
      assert forall k :: 0 <= k < |events| - 1 ==> events[1..][k] == events[k + 1];
      if forall k :: 0 <= k < |events[1..]| ==> events[1..][k].tenantID == tenant && Valid(events[1..][k]) {
        assert forall k :: 1 <= k < |events| ==> events[k] == events[1..][k - 1];
      }
    }
  }

  // ---------------------------------------------------------------------------
  // Draining
  // ---------------------------------------------------------------------------

  /** Unpublished, and not leased or leased before the reclaim window. */
  predicate Claimable(r: Row, at: int, reclaimAfter: int) {
    r.publishedAt.None? && (r.claimedAt.None? || r.claimedAt.value < at - reclaimAfter)
  }

  function Lease(rows: map<nat, Row>, chosen: set<nat>, at: int, owner: string): map<nat, Row> {
    map n | n in rows :: if n in chosen then rows[n].(claimedAt := Some(at), claimedBy := owner) else rows[n]
  }

  /** A lease keeps other publishers away exactly as long as the reclaim window lasts, and a
      row nobody took stays as claimable as it was. */
  lemma LeaseHoldsExactly(rows: map<nat, Row>, chosen: set<nat>, at: int, owner: string, n: nat, later: int, reclaimAfter: int)
    requires n in rows && rows[n].publishedAt.None?
    ensures var r := Lease(rows, chosen, at, owner)[n];
      if n in chosen then (Claimable(r, later, reclaimAfter) <==> at < later - reclaimAfter) && r.claimedBy == owner
      else r == rows[n]
  {
  }

  /** Marking sets the instant of exactly the named rows; counting a failure adds one to one
      row and says why. */
  lemma MarksMean(rows: map<nat, Row>, done: set<nat>, at: int, failed: nat, reason: string)
    ensures var marked := MarkPublished(rows, done, at);
      && marked.Keys == rows.Keys
      && forall n :: n in rows ==>
           && marked[n].publishedAt == (if n in done then Some(at) else rows[n].publishedAt)
           && marked[n].(publishedAt := None) == rows[n].(publishedAt := None)
    ensures var counted := MarkFailed(rows, failed, reason);
      && counted.Keys == rows.Keys
      && (forall n :: n in rows && n != failed ==> counted[n] == rows[n])
      && (failed in rows ==>
            && counted[failed].attempts == rows[failed].attempts + 1 && counted[failed].lastError == reason
            && counted[failed].(attempts := 0, lastError := "") == rows[failed].(attempts := 0, lastError := ""))
  {
  }

  /** `outbox_id = ANY(ids)`: whatever the row said before. */
  function MarkPublished(rows: map<nat, Row>, done: set<nat>, at: int): map<nat, Row> {
    map n | n in rows :: if n in done then rows[n].(publishedAt := Some(at)) else rows[n]
  }

  function MarkFailed(rows: map<nat, Row>, n: nat, reason: string): map<nat, Row> {
    if n in rows then rows[n := rows[n].(attempts := rows[n].attempts + 1, lastError := reason)] else rows
  }

  /** Delivered before the cutoff. */
  predicate Prunable(r: Row, tenant: string, before: int) {
    r.tenantID == tenant && r.publishedAt.Some? && r.publishedAt.value < before
  }

  ghost predicate PruneChoice(rows: map<nat, Row>, tenant: string, before: int, doomed: set<nat>) {
    doomed <= rows.Keys && forall n :: n in doomed ==> Prunable(rows[n], tenant, before)
  }
}
