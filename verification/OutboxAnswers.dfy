/** What an answer of Recorded means: which events and which rows the tables hold after it,
    and that the bus gets them (internal/evidence/store.go). */
module OutboxAnswers {
  import opened Wrappers
  import opened Outbox
  import opened Delivery
  import opened DeliverySafety

  /** The first event of the batch with its key. */
  predicate FirstOfKey(events: seq<Event>, k: int) {
    0 <= k < |events| && forall j :: 0 <= j < k ==> events[j].eventID != events[k].eventID || events[j].occurredAt != events[k].occurredAt
  }

  /** The first event of the batch with its id. */
  predicate FirstOfId(events: seq<Event>, k: int) {
    0 <= k < |events| && forall j :: 0 <= j < k ==> events[j].eventID != events[k].eventID
  }

  /** The event table afterwards: what it held, unchanged, and under each new key the first
      event that brought it; nothing else. */
  ghost predicate EventsRecorded(t: Tables, events: seq<Event>, t': Tables) {
    && (forall key :: key in t.events ==> key in t'.events && t'.events[key] == t.events[key])
    && (forall k :: 0 <= k < |events| ==> Key(events[k].eventID, events[k].occurredAt) in t'.events)
    && (forall k :: FirstOfKey(events, k) && Key(events[k].eventID, events[k].occurredAt) !in t.events ==>
          t'.events[Key(events[k].eventID, events[k].occurredAt)] == events[k])
    && (forall key :: key in t'.events && key !in t.events ==> exists k :: FirstOfKey(events, k) && events[k].Id() == key)
  }

  /** A row nobody has taken yet, holding an event. */
  predicate NewRowFor(r: Row, e: Event, now: int) {
    && r.tenantID == e.tenantID && r.eventID == e.eventID && r.payload == Encoded(e) && r.createdAt == now
    && r.publishedAt.None? && r.claimedAt.None? && r.claimedBy == "" && r.attempts == 0 && r.lastError == ""
  }

  predicate HasRow(rows: map<nat, Row>, eventID: string) {
    exists n :: n in rows && rows[n].eventID == eventID
  }

  /** The row was added for the first event of the batch with an id that had no row. */
  ghost predicate AddedFor(t: Tables, events: seq<Event>, t': Tables, now: int, n: nat) {
    n in t'.rows && exists k :: FirstOfId(events, k) && !HasRow(t.rows, events[k].eventID) && NewRowFor(t'.rows[n], events[k], now)
  }

  /** The outbox afterwards: what it held, unchanged; a row for every event id; and a new one
      exactly for the first event of each id that had none, one for an id. */
  ghost predicate RowsQueued(t: Tables, events: seq<Event>, t': Tables, now: int) {
    && (forall n :: n in t.rows ==> n in t'.rows && t'.rows[n] == t.rows[n])
    && (forall k :: 0 <= k < |events| ==> HasRow(t'.rows, events[k].eventID))
    && (forall n :: n in t'.rows && n !in t.rows ==> AddedFor(t, events, t', now, n))
    && (forall m, n :: m in t'.rows && n in t'.rows && m !in t.rows && n !in t.rows && m != n ==> t'.rows[m].eventID != t'.rows[n].eventID)
  }

  predicate RowsNumbered(t: Tables) {
    forall n :: n in t.rows ==> n < t.next
  }

  // ---------------------------------------------------------------------------
  // One more event
  // ---------------------------------------------------------------------------

  lemma FirstsGrow(events: seq<Event>, e: Event, k: int)
    requires 0 <= k < |events|
    ensures FirstOfKey(events + [e], k) <==> FirstOfKey(events, k)
    ensures FirstOfId(events + [e], k) <==> FirstOfId(events, k)
  {
    assert forall j :: 0 <= j <= k ==> (events + [e])[j] == events[j];
  }

  lemma {:induction false} KeyHasFirst(events: seq<Event>, k: nat) returns (j: nat)
    requires k < |events|
    ensures j <= k && FirstOfKey(events, j) && events[j].Id() == events[k].Id()
    decreases k
  {
    j := k;
    if !FirstOfKey(events, k) {
      var i :| 0 <= i < k && events[i].Id() == events[k].Id();
      j := KeyHasFirst(events, i);
    }
  }

  lemma NewKeyUnseen(t: Tables, events: seq<Event>, u: Tables, e: Event)
    requires EventsRecorded(t, events, u) && FirstOfKey(events + [e], |events|) && e.Id() !in t.events
    ensures e.Id() !in u.events
  {
    assert forall j :: 0 <= j < |events| ==> (events + [e])[j] == events[j];
  }

  lemma InsertRecords(t: Tables, events: seq<Event>, u: Tables, e: Event)
    requires EventsRecorded(t, events, u)
    ensures EventsRecorded(t, events + [e], Insert(u, e))
  {
    var more, u' := events + [e], Insert(u, e);
    forall k | FirstOfKey(more, k) && more[k].Id() !in t.events ensures u'.events[more[k].Id()] == more[k] {
      if k < |events| {
        FirstsGrow(events, e, k);
      } else {
        NewKeyUnseen(t, events, u, e);
      }
    }
    forall key | key in u'.events && key !in t.events ensures exists k :: FirstOfKey(more, k) && more[k].Id() == key {
      if key in u.events {
        var j :| FirstOfKey(events, j) && events[j].Id() == key;
        FirstsGrow(events, e, j);
        assert FirstOfKey(more, j) && more[j].Id() == key;
      } else {
        assert more[|events|] == e;
        var j := KeyHasFirst(more, |events|);
      }
    }
    forall k | 0 <= k < |more| ensures Key(more[k].eventID, more[k].occurredAt) in u'.events {
      if k < |events| { assert more[k] == events[k]; }
    }
  }

  lemma {:induction false} InsertAllRecords(t: Tables, events: seq<Event>)
    ensures EventsRecorded(t, events, InsertAll(t, events))
    ensures InsertAll(t, events).rows == t.rows && InsertAll(t, events).next == t.next
    decreases |events|
  {
    if events != [] {
      var n := |events| - 1;
      InsertAllRecords(t, events[..n]);
      InsertRecords(t, events[..n], InsertAll(t, events[..n]), events[n]);
      assert events == events[..n] + [events[n]];
    }
  }

  lemma EnqueueHasRows(t: Tables, events: seq<Event>, u: Tables, e: Event, now: int, k: nat)
    requires RowsNumbered(u) && k <= |events|
    requires forall j :: 0 <= j < |events| ==> HasRow(u.rows, events[j].eventID)
    ensures HasRow(Enqueue(u, e, now).rows, (events + [e])[k].eventID)
  {
    var u' := Enqueue(u, e, now);
    if k < |events| {
      assert HasRow(u.rows, events[k].eventID);
      var n :| n in u.rows && u.rows[n].eventID == events[k].eventID;
      assert n in u'.rows && u'.rows[n] == u.rows[n];
    } else if Queued(u.rows, e.eventID) {
      var n :| n in u.rows && u.rows[n].eventID == e.eventID;
      assert n in u'.rows && u'.rows[n] == u.rows[n];
    } else {
      assert u'.rows[u.next].eventID == e.eventID;
    }
  }

  lemma EnqueueAdds(t: Tables, events: seq<Event>, u: Tables, e: Event, now: int, n: nat)
    requires RowsQueued(t, events, u, now) && RowsNumbered(u)
    requires n in Enqueue(u, e, now).rows && n !in t.rows
    ensures AddedFor(t, events + [e], Enqueue(u, e, now), now, n)
  {
    if n in u.rows {
      AddedStays(t, events, u, e, Enqueue(u, e, now), now, n);
    } else {
      NewIsAdded(t, events, u, e, now);
    }
  }

  ghost predicate AllAdded(t: Tables, events: seq<Event>, u: Tables, now: int) {
    forall n :: n in u.rows && n !in t.rows ==> AddedFor(t, events, u, now, n)
  }

  lemma EnqueueAddsAll(t: Tables, events: seq<Event>, u: Tables, e: Event, now: int)
    requires RowsQueued(t, events, u, now) && RowsNumbered(u)
    ensures AllAdded(t, events + [e], Enqueue(u, e, now), now)
  {
    forall n | n in Enqueue(u, e, now).rows && n !in t.rows ensures AddedFor(t, events + [e], Enqueue(u, e, now), now, n) {
      EnqueueAdds(t, events, u, e, now, n);
    }
  }

  ghost predicate AllHave(events: seq<Event>, u: Tables) {
    forall k :: 0 <= k < |events| ==> HasRow(u.rows, events[k].eventID)
  }

  lemma EnqueueHasAll(t: Tables, events: seq<Event>, u: Tables, e: Event, now: int)
    requires AllHave(events, u) && RowsNumbered(u)
    ensures AllHave(events + [e], Enqueue(u, e, now))
  {
    forall k | 0 <= k < |events + [e]| ensures HasRow(Enqueue(u, e, now).rows, (events + [e])[k].eventID) {
      EnqueueHasRows(t, events, u, e, now, k);
    }
  }

  lemma EnqueueKeeps(u: Tables, e: Event, now: int)
    requires RowsNumbered(u)
    ensures var u' := Enqueue(u, e, now);
      && u'.events == u.events && RowsNumbered(u')
      && forall n :: n in u.rows ==> n in u'.rows && u'.rows[n] == u.rows[n]
  {
  }

  lemma EnqueueQueues(t: Tables, events: seq<Event>, u: Tables, e: Event, now: int)
    requires RowsQueued(t, events, u, now) && RowsNumbered(u)
    ensures RowsQueued(t, events + [e], Enqueue(u, e, now), now)
    ensures RowsNumbered(Enqueue(u, e, now)) && Enqueue(u, e, now).events == u.events
  {
    EnqueueKeeps(u, e, now);
    EnqueueAddsAll(t, events, u, e, now);
    EnqueueHasAll(t, events, u, e, now);
    EnqueueDistinct(t, u, e, now);
    Assembled(t, events + [e], u, Enqueue(u, e, now), now);
  }

  lemma Assembled(t: Tables, events: seq<Event>, u: Tables, u': Tables, now: int)
    requires forall n :: n in t.rows ==> n in u.rows && u.rows[n] == t.rows[n]
    requires forall n :: n in u.rows ==> n in u'.rows && u'.rows[n] == u.rows[n]
    requires AllAdded(t, events, u', now) && AllHave(events, u')
    requires forall m, n :: m in u'.rows && n in u'.rows && m !in t.rows && n !in t.rows && m != n ==> u'.rows[m].eventID != u'.rows[n].eventID
    ensures RowsQueued(t, events, u', now)
  {
  }

  lemma EnqueueDistinct(t: Tables, u: Tables, e: Event, now: int)
    requires RowsNumbered(u)
    requires forall m, n :: m in u.rows && n in u.rows && m !in t.rows && n !in t.rows && m != n ==> u.rows[m].eventID != u.rows[n].eventID
    ensures var u' := Enqueue(u, e, now);
      forall m, n :: m in u'.rows && n in u'.rows && m !in t.rows && n !in t.rows && m != n ==> u'.rows[m].eventID != u'.rows[n].eventID
  {
  }

  lemma AddedStays(t: Tables, events: seq<Event>, u: Tables, e: Event, u': Tables, now: int, n: nat)
    requires AddedFor(t, events, u, now, n) && n in u'.rows && u'.rows[n] == u.rows[n]
    ensures AddedFor(t, events + [e], u', now, n)
  {
    var k :| FirstOfId(events, k) && !HasRow(t.rows, events[k].eventID) && NewRowFor(u.rows[n], events[k], now);
    FirstsGrow(events, e, k);
    assert (events + [e])[k] == events[k];
  }

  lemma NewIsAdded(t: Tables, events: seq<Event>, u: Tables, e: Event, now: int)
    requires RowsQueued(t, events, u, now) && !Queued(u.rows, e.eventID)
    ensures AddedFor(t, events + [e], Enqueue(u, e, now), now, u.next)
  {
    var more, k := events + [e], |events|;
    forall j | 0 <= j < k ensures more[j].eventID != e.eventID {
      assert HasRow(u.rows, events[j].eventID);
    }
    assert FirstOfId(more, k) && more[k] == e;
    assert !HasRow(t.rows, e.eventID);
  }

  /** What queueing a batch has come to. */
  ghost predicate QueuedSoFar(t: Tables, events: seq<Event>, u: Tables, now: int) {
    RowsQueued(t, events, u, now) && RowsNumbered(u) && u.events == t.events
  }

  lemma QueuesNext(t: Tables, events: seq<Event>, u: Tables, e: Event, all: seq<Event>, now: int)
    requires QueuedSoFar(t, events, u, now) && all == events + [e]
    ensures QueuedSoFar(t, all, Enqueue(u, e, now), now)
  {
    EnqueueQueues(t, events, u, e, now);
  }

  lemma QueuesNone(t: Tables, now: int)
    requires RowsNumbered(t)
    ensures QueuedSoFar(t, [], t, now)
  {
  }

  lemma {:induction false} EnqueueAllQueues(t: Tables, events: seq<Event>, now: int)
    requires RowsNumbered(t)
    ensures QueuedSoFar(t, events, EnqueueAll(t, events, now), now)
    decreases |events|
  {
    if events == [] {
      QueuesNone(t, now);
    } else {
      var n := |events| - 1;
      EnqueueAllQueues(t, events[..n], now);
      QueuesNext(t, events[..n], EnqueueAll(t, events[..n], now), events[n], events, now);
    }
  }

  /** Both tables at once; queueing reads only the rows. */
  lemma BothRecorded(t: Tables, events: seq<Event>, now: int)
    requires RowsNumbered(t)
    ensures var t' := EnqueueAll(InsertAll(t, events), events, now);
      EventsRecorded(t, events, t') && RowsQueued(t, events, t', now)
  {
    var u := InsertAll(t, events);
    InsertAllRecords(t, events);
    EnqueueAllQueues(u, events, now);
    var t' := EnqueueAll(u, events, now);
    forall n | n in t'.rows && n !in t.rows ensures AddedFor(t, events, t', now, n) {
      assert AddedFor(u, events, t', now, n);
    }
  }

  lemma OneEvent(t: Tables, e: Event, now: int)
    ensures InsertAll(t, [e]) == Insert(t, e) && EnqueueAll(t, [e], now) == Enqueue(t, e, now)
  {
    assert [e][..0] == [];
  }

  // ---------------------------------------------------------------------------
  // The four ways to record
  // ---------------------------------------------------------------------------

  predicate BlankText(s: string) {
    forall i :: 0 <= i < |s| ==> s[i] == ' ' || s[i] == '\t' || s[i] == '\n' || s[i] == '\r'
  }

  predicate Acceptable(e: Event) {
    !BlankText(e.eventID) && !BlankText(e.tenantID) && e.complete
  }

  lemma AcceptableIsValid(e: Event)
    ensures Acceptable(e) <==> Valid(e)
  {
    BlankIs(e.eventID);
    BlankIs(e.tenantID);
  }

  lemma BlankIs(s: string)
    ensures BlankText(s) <==> Blank(s)
  {
    if BlankText(s) {
      forall c | c in s ensures c in " \t\n\r" {
      }
    } else {
      var i :| 0 <= i < |s| && s[i] != ' ' && s[i] != '\t' && s[i] != '\n' && s[i] != '\r';
      assert s[i] in s && s[i] !in " \t\n\r";
    }
  }

  /** A batch is recorded exactly when its events are acceptable and of one tenant; then every
      event and a row for every id is there, and otherwise nothing has changed. */
  lemma BatchRecordedMeans(t: Tables, events: seq<Event>, now: int)
    requires RowsNumbered(t)
    ensures var (t', answer) := AppendBatch(t, events, now);
      && (answer == Recorded <==> forall k :: 0 <= k < |events| ==> Acceptable(events[k]) && events[k].tenantID == events[0].tenantID)
      && (answer == Recorded ==> EventsRecorded(t, events, t') && RowsQueued(t, events, t', now))
      && (answer != Recorded ==> t' == t)
  {
    if events != [] {
      BatchFaultless(events, events[0].tenantID);
      FaultIsNoRecord(events, events[0].tenantID);
      forall k | 0 <= k < |events| ensures Acceptable(events[k]) <==> Valid(events[k]) {
        AcceptableIsValid(events[k]);
      }
      BothRecorded(t, events, now);
    }
  }

  lemma {:induction false} FaultIsNoRecord(events: seq<Event>, tenant: string)
    ensures BatchFault(events, tenant) != Some(Recorded)
    decreases |events|
  {
    if events != [] { FaultIsNoRecord(events[1..], tenant); }
  }

  /** In a caller's transaction every acceptable event is recorded, new or not. */
  lemma InTxRecordedMeans(t: Tables, e: Event, now: int)
    requires RowsNumbered(t)
    ensures var (t', answer) := AppendInTx(t, e, now);
      && (answer == Recorded <==> Acceptable(e))
      && (answer == Recorded ==> EventsRecorded(t, [e], t') && RowsQueued(t, [e], t', now))
      && (answer != Recorded ==> t' == t)
  {
    AcceptableIsValid(e);
    OneEvent(t, e, now);
    OneEvent(Insert(t, e), e, now);
    BothRecorded(t, [e], now);
  }

  /** On its own an event is recorded exactly when its key is new. */
  lemma RecordedMeans(t: Tables, e: Event, now: int)
    requires RowsNumbered(t)
    ensures var (t', answer) := Append(t, e, now);
      && (answer == Recorded <==> Acceptable(e) && Key(e.eventID, e.occurredAt) !in t.events)
      && (answer == AlreadyRecorded <==> Acceptable(e) && Key(e.eventID, e.occurredAt) in t.events)
      && (answer == Recorded ==> EventsRecorded(t, [e], t') && RowsQueued(t, [e], t', now))
      && (answer != Recorded ==> t' == t)
  {
    InTxRecordedMeans(t, e, now);
    AcceptableIsValid(e);
  }

  /** An event that came from the bus is recorded alike and queues nothing. */
  lemma ConsumedRecordedMeans(t: Tables, e: Event)
    ensures var (t', answer) := AppendConsumed(t, e);
      && (answer == Recorded <==> Acceptable(e) && Key(e.eventID, e.occurredAt) !in t.events)
      && (answer == AlreadyRecorded <==> Acceptable(e) && Key(e.eventID, e.occurredAt) in t.events)
      && (answer == Recorded ==> EventsRecorded(t, [e], t') && t'.rows == t.rows)
      && (answer != Recorded ==> t' == t)
  {
    AcceptableIsValid(e);
    OneEvent(t, e, 0);
    InsertAllRecords(t, [e]);
  }

  // ---------------------------------------------------------------------------
  // Recorded, in runs
  // ---------------------------------------------------------------------------

  /** The events a recorder was told are recorded. */
  ghost function Told(s: System, l: Label): seq<Event> {
    match l
    case Record(e, now) => if Append(s.tables, e, now).1 == Recorded then [e] else []
    case RecordBatch(events, now) => if AppendBatch(s.tables, events, now).1 == Recorded then events else []
    case RecordInTx(e, now) => if AppendInTx(s.tables, e, now).1 == Recorded then [e] else []
    case _ => []
  }

  predicate Holds(t: Tables, e: Event) {
    Key(e.eventID, e.occurredAt) in t.events && t.events[Key(e.eventID, e.occurredAt)] == e
  }

  ghost predicate EventsKept(t: Tables, t': Tables) {
    forall key :: key in t.events ==> key in t'.events && t'.events[key] == t.events[key]
  }

  lemma SafeNumbered(s: System)
    requires Safe(s)
    ensures RowsNumbered(s.tables)
  {
    forall n | n in s.tables.rows ensures n < s.tables.next {
      assert RowSound(s.tables, s.bus, n);
    }
  }

  lemma ApplyKeepsEvents(s: System, l: Label)
    requires Safe(s)
    ensures EventsKept(s.tables, Apply(s, l).tables)
  {
    SafeNumbered(s);
    if Enabled(s, l) {
      match l
      case Record(e, now) => RecordedMeans(s.tables, e, now);
      case RecordBatch(events, now) => BatchRecordedMeans(s.tables, events, now);
      case RecordInTx(e, now) => InTxRecordedMeans(s.tables, e, now);
      case RecordConsumed(j) => ConsumedRecordedMeans(s.tables, s.bus[j].event);
      case _ =>
    }
  }

  lemma {:induction false} RunKeepsEvents(labels: seq<Label>, more: seq<Label>)
    ensures EventsKept(Run(labels).tables, Run(labels + more).tables)
    decreases |more|
  {
    if more == [] {
      assert labels + more == labels;
    } else {
      var init, last := more[..|more| - 1], more[|more| - 1];
      RunKeepsEvents(labels, init);
      assert (labels + more)[..|labels + more| - 1] == labels + init;
      SafeAlways(labels + init);
      ApplyKeepsEvents(Run(labels + init), last);
    }
  }

  lemma ToldIsRecorded(s: System, l: Label)
    requires Safe(s) && Told(s, l) != []
    ensures EventsRecorded(s.tables, Told(s, l), Apply(s, l).tables)
  {
    SafeNumbered(s);
    match l
    case Record(e, now) => RecordedMeans(s.tables, e, now);
    case RecordBatch(events, now) => BatchRecordedMeans(s.tables, events, now);
    case RecordInTx(e, now) => InTxRecordedMeans(s.tables, e, now);
    case _ =>
  }

  /** Whoever was told an event is recorded may rely on it: in every continuation its key
      holds an event, itself if it brought the key, and its id is on the bus or owed to it by
      an unpublished row. */
  lemma ToldIsDelivered(labels: seq<Label>, l: Label, more: seq<Label>, e: Event)
    requires e in Told(Run(labels), l)
    ensures var s, s' := Run(labels), Run(labels + [l] + more);
      && Key(e.eventID, e.occurredAt) in s'.tables.events
      && (Pending(s'.tables.rows, e.eventID) || OnBus(s'.bus, e.eventID))
      && (forall k :: FirstOfKey(Told(s, l), k) && Told(s, l)[k].Id() !in s.tables.events ==> Holds(s'.tables, Told(s, l)[k]))
  {
    var s := Run(labels);
    SafeAlways(labels);
    ToldIsRecorded(s, l);
    assert (labels + [l])[..|labels|] == labels;
    RunKeepsEvents(labels + [l], more);
    SafeAlways(labels + [l] + more);
    var s1, s' := Run(labels + [l]), Run(labels + [l] + more);
    assert s1 == Apply(s, l);
    var k :| 0 <= k < |Told(s, l)| && Told(s, l)[k] == e;
    assert e.Id() in s'.tables.events;
    assert Carried(s'.tables.rows, s'.bus, e.Id().eventID);
    forall k | FirstOfKey(Told(s, l), k) && Told(s, l)[k].Id() !in s.tables.events
      ensures Holds(s'.tables, Told(s, l)[k])
    {
    }
  }
}
