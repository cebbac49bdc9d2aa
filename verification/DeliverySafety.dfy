/** No committed event is lost between the event table and the projection, and nothing is
    published that was not committed. */
module DeliverySafety {
  import opened Outbox
  import opened Delivery

  predicate Pending(rows: map<nat, Row>, eventID: string) {
    exists n :: n in rows && rows[n].publishedAt.None? && rows[n].eventID == eventID
  }

  /** The bus has the event id, or is owed it. */
  predicate Carried(rows: map<nat, Row>, bus: seq<Payload>, eventID: string) {
    Pending(rows, eventID) || OnBus(bus, eventID)
  }

  predicate Committed(t: Tables, e: Event) {
    e.Id() in t.events
  }

  ghost predicate EventsCarried(s: System) {
    forall k :: k in s.tables.events ==> Carried(s.tables.rows, s.bus, k.eventID)
  }

  /** Every row holds a committed event under its own id, and a published one is on the bus. */
  predicate RowSound(t: Tables, bus: seq<Payload>, n: nat)
    requires n in t.rows
  {
    var r := t.rows[n];
    && n < t.next
    && r.payload.Encoded? && r.payload.event.eventID == r.eventID
    && Valid(r.payload.event) && Committed(t, r.payload.event)
    && (r.publishedAt.Some? ==> OnBus(bus, r.eventID))
  }

  ghost predicate RowsSound(s: System) {
    forall n :: n in s.tables.rows ==> RowSound(s.tables, s.bus, n)
  }

  ghost predicate WireCommitted(s: System) {
    forall e :: e in s.wire ==> Committed(s.tables, e)
  }

  ghost predicate BusCommitted(s: System) {
    forall j :: 0 <= j < |s.bus| && s.bus[j].Encoded? ==> Committed(s.tables, s.bus[j].event)
  }

  predicate EntrySound(t: Tables, e: Entry) {
    && Committed(t, e.event) && e.outboxID < t.next
    && (e.outboxID in t.rows ==> t.rows[e.outboxID].eventID == e.event.eventID)
  }

  ghost predicate FlightSound(t: Tables, bus: seq<Payload>, f: Flight) {
    && (forall k :: 0 <= k < |f.entries| ==> EntrySound(t, f.entries[k]))
    && (forall k :: k in f.acknowledged ==> k < |f.entries| && OnBus(bus, f.entries[k].event.eventID))
  }

  ghost predicate FlightsSound(s: System) {
    forall p :: p in s.flights ==> FlightSound(s.tables, s.bus, s.flights[p])
  }

  predicate Projected(s: System, j: nat) {
    j < |s.bus| && (s.bus[j].Encoded? ==> Place(s.bus[j].event) in s.projection)
  }

  ghost predicate SettledProjected(s: System) {
    forall j :: j in s.settled ==> Projected(s, j)
  }

  ghost predicate FetchesProjected(s: System) {
    forall c, k :: c in s.fetches && s.fetches[c].inserted && 0 <= k < |s.fetches[c].batch| ==> Projected(s, s.fetches[c].batch[k])
  }

  /** The projection holds committed events, each in its own place. */
  ghost predicate ProjectionCommitted(s: System) {
    forall p :: p in s.projection ==> Place(s.projection[p]) == p && Committed(s.tables, s.projection[p])
  }

  ghost predicate Safe(s: System) {
    && EventsCarried(s)
    && RowsSound(s)
    && WireCommitted(s)
    && BusCommitted(s)
    && FlightsSound(s)
    && SettledProjected(s)
    && FetchesProjected(s)
    && ProjectionCommitted(s)
  }

  // ---------------------------------------------------------------------------
  // Recording
  // ---------------------------------------------------------------------------

  /** Tables that only gained events and rows. */
  ghost predicate Extends(t: Tables, t': Tables) {
    && t.next <= t'.next
    && t.events.Keys <= t'.events.Keys
    && (forall n :: n in t.rows ==> n in t'.rows && t'.rows[n] == t.rows[n])
    && (forall n :: n in t'.rows && n !in t.rows ==> t.next <= n)
  }

  lemma ExtendsKeepsFlight(t: Tables, t': Tables, bus: seq<Payload>, f: Flight)
    requires Extends(t, t') && FlightSound(t, bus, f)
    ensures FlightSound(t', bus, f)
  {
    forall k | 0 <= k < |f.entries| ensures EntrySound(t', f.entries[k]) {
      assert EntrySound(t, f.entries[k]);
    }
  }

  lemma ExtendsSafe(s: System, t: Tables)
    requires Safe(s) && Extends(s.tables, t)
    requires EventsCarried(s.(tables := t)) && RowsSound(s.(tables := t))
    ensures Safe(s.(tables := t))
  {
    var s' := s.(tables := t);
    forall p | p in s'.flights ensures FlightSound(t, s.bus, s'.flights[p]) {
      ExtendsKeepsFlight(s.tables, t, s.bus, s.flights[p]);
    }
    forall e | e in s'.wire ensures Committed(t, e) {
      assert Committed(s.tables, e);
    }
    forall j | 0 <= j < |s'.bus| && s'.bus[j].Encoded? ensures Committed(t, s'.bus[j].event) {
      assert Committed(s.tables, s.bus[j].event);
    }
    forall j | j in s'.settled ensures Projected(s', j) {
      assert Projected(s, j);
    }
    forall c, k | c in s'.fetches && s'.fetches[c].inserted && 0 <= k < |s'.fetches[c].batch| ensures Projected(s', s'.fetches[c].batch[k]) {
      assert Projected(s, s.fetches[c].batch[k]);
    }
  }

  /** The part of safety that recording can break, with the ids still to be queued. */
  ghost predicate Recording(t: Tables, bus: seq<Payload>, owed: set<string>) {
    && (forall n :: n in t.rows ==> RowSound(t, bus, n))
    && (forall k :: k in t.events ==> k.eventID in owed || Carried(t.rows, bus, k.eventID))
  }

  lemma InsertRecording(t: Tables, bus: seq<Payload>, owed: set<string>, e: Event)
    requires Recording(t, bus, owed)
    ensures Recording(Insert(t, e), bus, owed + {e.eventID}) && Extends(t, Insert(t, e)) && Committed(Insert(t, e), e)
  {
    var t' := Insert(t, e);
    forall n | n in t'.rows ensures RowSound(t', bus, n) {
      assert RowSound(t, bus, n);
    }
  }

  lemma EnqueueRecording(t: Tables, bus: seq<Payload>, owed: set<string>, e: Event, now: int)
    requires Recording(t, bus, owed) && Committed(t, e) && Valid(e)
    ensures Recording(Enqueue(t, e, now), bus, owed - {e.eventID}) && Extends(t, Enqueue(t, e, now))
    ensures Enqueue(t, e, now).events == t.events
  {
    var t' := Enqueue(t, e, now);
    EnqueueRows(t, bus, e, now);
    EnqueueCarries(t, bus, e, now);
    forall k | k in t'.events ensures k.eventID in owed - {e.eventID} || Carried(t'.rows, bus, k.eventID) {
      if k.eventID != e.eventID && k.eventID !in owed { CarriedExtends(t, t', bus, k.eventID); }
    }
  }

  lemma EnqueueRows(t: Tables, bus: seq<Payload>, e: Event, now: int)
    requires (forall n :: n in t.rows ==> RowSound(t, bus, n)) && Committed(t, e) && Valid(e)
    ensures var t' := Enqueue(t, e, now);
      Extends(t, t') && t'.events == t.events && forall n :: n in t'.rows ==> RowSound(t', bus, n)
  {
    var t' := Enqueue(t, e, now);
    forall n | n in t.rows ensures n < t.next {
      assert RowSound(t, bus, n);
    }
    forall n | n in t'.rows ensures RowSound(t', bus, n) {
      if n in t.rows { assert RowSound(t, bus, n); }
    }
  }

  lemma CarriedExtends(t: Tables, t': Tables, bus: seq<Payload>, eventID: string)
    requires Extends(t, t') && Carried(t.rows, bus, eventID)
    ensures Carried(t'.rows, bus, eventID)
  {
    if Pending(t.rows, eventID) {
      var n :| n in t.rows && t.rows[n].publishedAt.None? && t.rows[n].eventID == eventID;
      assert n in t'.rows && t'.rows[n] == t.rows[n];
    }
  }

  lemma EnqueueCarries(t: Tables, bus: seq<Payload>, e: Event, now: int)
    requires forall n :: n in t.rows ==> RowSound(t, bus, n)
    ensures Carried(Enqueue(t, e, now).rows, bus, e.eventID)
  {
    var t' := Enqueue(t, e, now);
    if Queued(t.rows, e.eventID) {
      var n :| n in t.rows && t.rows[n].eventID == e.eventID;
      assert RowSound(t, bus, n);
    } else {
      assert t'.rows[t.next].publishedAt.None?;
    }
  }

  function Ids(events: seq<Event>): set<string> {
    set e | e in events :: e.eventID
  }

  lemma {:induction false} InsertAllRecording(t: Tables, bus: seq<Payload>, events: seq<Event>)
    requires Recording(t, bus, {})
    ensures Recording(InsertAll(t, events), bus, Ids(events)) && Extends(t, InsertAll(t, events))
    ensures forall e :: e in events ==> Committed(InsertAll(t, events), e)
    decreases |events|
  {
    if events != [] {
      var n := |events| - 1;
      InsertAllRecording(t, bus, events[..n]);
      InsertRecording(InsertAll(t, events[..n]), bus, Ids(events[..n]), events[n]);
      assert events == events[..n] + [events[n]];
      assert Ids(events[..n]) + {events[n].eventID} == Ids(events);
    }
  }

  lemma {:induction false} EnqueueAllRecording(t: Tables, bus: seq<Payload>, owed: set<string>, events: seq<Event>, now: int)
    requires Recording(t, bus, owed)
    requires forall e :: e in events ==> Valid(e) && Committed(t, e)
    ensures Recording(EnqueueAll(t, events, now), bus, owed - Ids(events))
    ensures Extends(t, EnqueueAll(t, events, now)) && EnqueueAll(t, events, now).events == t.events
    decreases |events|
  {
    if events == [] {
      assert owed - Ids(events) == owed;
    } else {
      var n := |events| - 1;
      EnqueueAllRecording(t, bus, owed, events[..n], now);
      assert Committed(t, events[n]);
      EnqueueRecording(EnqueueAll(t, events[..n], now), bus, owed - Ids(events[..n]), events[n], now);
      assert events == events[..n] + [events[n]];
      assert owed - Ids(events[..n]) - {events[n].eventID} == owed - Ids(events);
    }
  }

  lemma SafeRecorded(s: System, t: Tables)
    requires Safe(s) && Extends(s.tables, t) && Recording(t, s.bus, {})
    ensures Safe(s.(tables := t))
  {
    ExtendsSafe(s, t);
  }

  lemma SafeRecord(s: System, e: Event, now: int)
    requires Safe(s) && Valid(e)
    ensures Safe(s.(tables := Enqueue(Insert(s.tables, e), e, now)))
  {
    InsertRecording(s.tables, s.bus, {}, e);
    EnqueueRecording(Insert(s.tables, e), s.bus, {e.eventID}, e, now);
    assert {} + {e.eventID} == {e.eventID} && {e.eventID} - {e.eventID} == {};
    SafeRecorded(s, Enqueue(Insert(s.tables, e), e, now));
  }

  lemma SafeRecordBatch(s: System, events: seq<Event>, now: int)
    requires Safe(s) && forall e :: e in events ==> Valid(e)
    ensures Safe(s.(tables := EnqueueAll(InsertAll(s.tables, events), events, now)))
  {
    InsertAllRecording(s.tables, s.bus, events);
    EnqueueAllRecording(InsertAll(s.tables, events), s.bus, Ids(events), events, now);
    assert Ids(events) - Ids(events) == {};
    SafeRecorded(s, EnqueueAll(InsertAll(s.tables, events), events, now));
  }

  /** An event consumed from the bus needs no row: its id is there already. */
  lemma SafeRecordConsumed(s: System, j: nat)
    requires Safe(s) && j < |s.bus| && s.bus[j].Encoded?
    ensures Safe(s.(tables := Insert(s.tables, s.bus[j].event)))
  {
    var e := s.bus[j].event;
    InsertRecording(s.tables, s.bus, {}, e);
    assert OnBus(s.bus, e.eventID);
    SafeRecorded(s, Insert(s.tables, e));
  }

  lemma SafeRecording(s: System, l: Label)
    requires Safe(s) && Enabled(s, l) && (l.Record? || l.RecordBatch? || l.RecordInTx? || l.RecordConsumed?)
    ensures Safe(Apply(s, l))
  {
    match l
    case Record(e, now) => if Valid(e) { SafeRecord(s, e, now); }
    case RecordInTx(e, now) => if Valid(e) { SafeRecord(s, e, now); }
    case RecordConsumed(j) => SafeRecordConsumed(s, j);
    case RecordBatch(events, now) =>
      if events != [] {
        BatchFaultless(events, events[0].tenantID);
        if BatchFault(events, events[0].tenantID).None? { SafeRecordBatch(s, events, now); }
      }
  }

  // ---------------------------------------------------------------------------
  // Draining
  // ---------------------------------------------------------------------------

  /** Rows changed in place: a row newly published has its id on the bus. */
  ghost predicate Redrawn(rows: map<nat, Row>, rows': map<nat, Row>, bus: seq<Payload>) {
    && rows'.Keys == rows.Keys
    && forall n :: n in rows ==>
        && rows'[n].eventID == rows[n].eventID && rows'[n].payload == rows[n].payload
        && (rows'[n].publishedAt.None? ==> rows[n].publishedAt.None?)
        && (rows'[n].publishedAt.Some? ==> rows[n].publishedAt.Some? || OnBus(bus, rows[n].eventID))
  }

  lemma SafeRedrawn(s: System, rows: map<nat, Row>)
    requires Safe(s) && Redrawn(s.tables.rows, rows, s.bus)
    ensures Safe(s.(tables := s.tables.(rows := rows)))
  {
    var t := s.tables.(rows := rows);
    var s' := s.(tables := t);
    forall n | n in rows ensures RowSound(t, s.bus, n) {
      assert RowSound(s.tables, s.bus, n);
    }
    forall k | k in t.events ensures Carried(rows, s.bus, k.eventID) {
      if Pending(s.tables.rows, k.eventID) {
        var n :| n in s.tables.rows && s.tables.rows[n].publishedAt.None? && s.tables.rows[n].eventID == k.eventID;
        assert rows[n].eventID == k.eventID;
      }
    }
    SafeRowsElsewhere(s, rows);
  }

  /** What the rest of the invariant asks of the rows is only that ids keep their events. */
  lemma SafeRowsElsewhere(s: System, rows: map<nat, Row>)
    requires Safe(s) && rows.Keys <= s.tables.rows.Keys
    requires forall n :: n in rows ==> rows[n].eventID == s.tables.rows[n].eventID
    requires EventsCarried(s.(tables := s.tables.(rows := rows))) && RowsSound(s.(tables := s.tables.(rows := rows)))
    ensures Safe(s.(tables := s.tables.(rows := rows)))
  {
    var t := s.tables.(rows := rows);
    var s' := s.(tables := t);
    forall p | p in s'.flights ensures FlightSound(t, s.bus, s'.flights[p]) {
      assert FlightSound(s.tables, s.bus, s.flights[p]);
      forall k | 0 <= k < |s.flights[p].entries| ensures EntrySound(t, s.flights[p].entries[k]) {
        assert EntrySound(s.tables, s.flights[p].entries[k]);
      }
    }
    forall j | j in s'.settled ensures Projected(s', j) {
      assert Projected(s, j);
    }
    forall c, k | c in s'.fetches && s'.fetches[c].inserted && 0 <= k < |s'.fetches[c].batch| ensures Projected(s', s'.fetches[c].batch[k]) {
      assert Projected(s, s.fetches[c].batch[k]);
    }
  }

  /** Prune removes only published rows, whose ids are on the bus. */
  lemma SafePrune(s: System, tenant: string, before: int, doomed: set<nat>)
    requires Safe(s) && PruneChoice(s.tables.rows, tenant, before, doomed)
    ensures Safe(s.(tables := s.tables.(rows := s.tables.rows - doomed)))
  {
    var rows := s.tables.rows - doomed;
    var t := s.tables.(rows := rows);
    forall n | n in rows ensures RowSound(t, s.bus, n) {
      assert RowSound(s.tables, s.bus, n);
    }
    forall k | k in t.events ensures Carried(rows, s.bus, k.eventID) {
      if Pending(s.tables.rows, k.eventID) {
        var n :| n in s.tables.rows && s.tables.rows[n].publishedAt.None? && s.tables.rows[n].eventID == k.eventID;
        assert n in rows;
      }
    }
    SafeRowsElsewhere(s, rows);
  }

  lemma {:induction false} DecodedSound(t: Tables, bus: seq<Payload>, chosen: seq<nat>)
    requires forall n :: n in t.rows ==> RowSound(t, bus, n)
    requires forall n :: n in chosen ==> n in t.rows
    ensures forall k :: 0 <= k < |Decoded(t.rows, chosen)| ==> EntrySound(t, Decoded(t.rows, chosen)[k])
    decreases |chosen|
  {
    if chosen != [] {
      DecodedSound(t, bus, chosen[1..]);
      assert RowSound(t, bus, chosen[0]);
    }
  }

  lemma SafeFlight(s: System, p: nat, f: Flight)
    requires Safe(s) && FlightSound(s.tables, s.bus, f)
    ensures Safe(s.(flights := s.flights[p := f]))
  {
    var s' := s.(flights := s.flights[p := f]);
    forall j | j in s'.settled ensures Projected(s', j) {
      assert Projected(s, j);
    }
    forall c, k | c in s'.fetches && s'.fetches[c].inserted && 0 <= k < |s'.fetches[c].batch| ensures Projected(s', s'.fetches[c].batch[k]) {
      assert Projected(s, s.fetches[c].batch[k]);
    }
  }

  lemma SafeClaim(s: System, p: nat, chosen: seq<nat>, at: int, reclaimAfter: int, owner: string)
    requires Safe(s) && Enabled(s, Claim(p, chosen, at, reclaimAfter, owner))
    ensures Safe(Apply(s, Claim(p, chosen, at, reclaimAfter, owner)))
  {
    var f := Flight(Decoded(s.tables.rows, chosen), {});
    DecodedSound(s.tables, s.bus, chosen);
    SafeFlight(s, p, f);
    SafeRedrawn(s.(flights := s.flights[p := f]), Lease(s.tables.rows, (set n | n in chosen), at, owner));
  }

  lemma SafeAcknowledge(s: System, p: nat, k: nat)
    requires Safe(s) && Enabled(s, Acknowledge(p, k))
    ensures Safe(Apply(s, Acknowledge(p, k)))
  {
    var f := s.flights[p].(acknowledged := s.flights[p].acknowledged + {k});
    assert FlightSound(s.tables, s.bus, s.flights[p]);
    SafeFlight(s, p, f);
  }

  /** A row is marked only after its own acknowledgement. */
  lemma SafeMark(s: System, p: nat, at: int)
    requires Safe(s) && p in s.flights
    ensures Safe(Apply(s, Mark(p, at)))
  {
    var f := s.flights[p];
    var rows := MarkPublished(s.tables.rows, Done(f), at);
    assert FlightSound(s.tables, s.bus, f);
    forall n | n in s.tables.rows && n in Done(f) ensures OnBus(s.bus, s.tables.rows[n].eventID) {
      var k :| k in f.acknowledged && k < |f.entries| && f.entries[k].outboxID == n;
      assert EntrySound(s.tables, f.entries[k]);
    }
    SafeRedrawn(s, rows);
  }

  lemma SafeSend(s: System, p: nat, k: nat)
    requires Safe(s) && Enabled(s, Send(p, k))
    ensures Safe(Apply(s, Send(p, k)))
  {
    var s' := Apply(s, Send(p, k));
    assert FlightSound(s.tables, s.bus, s.flights[p]);
    assert EntrySound(s.tables, s.flights[p].entries[k]);
    forall j | j in s'.settled ensures Projected(s', j) {
      assert Projected(s, j);
    }
    forall c, i | c in s'.fetches && s'.fetches[c].inserted && 0 <= i < |s'.fetches[c].batch| ensures Projected(s', s'.fetches[c].batch[i]) {
      assert Projected(s, s.fetches[c].batch[i]);
    }
  }

  // ---------------------------------------------------------------------------
  // The bus and the projection
  // ---------------------------------------------------------------------------

  lemma OnBusGrows(bus: seq<Payload>, m: Payload, eventID: string)
    requires OnBus(bus, eventID)
    ensures OnBus(bus + [m], eventID)
  {
    var j :| 0 <= j < |bus| && bus[j].Encoded? && bus[j].event.eventID == eventID;
    assert (bus + [m])[j] == bus[j];
  }

  lemma SafeStored(s: System, m: Payload)
    requires Safe(s) && (m.Encoded? ==> Committed(s.tables, m.event))
    ensures Safe(s.(bus := s.bus + [m]))
  {
    var s' := s.(bus := s.bus + [m]);
    forall k | k in s'.tables.events ensures Carried(s'.tables.rows, s'.bus, k.eventID) {
      if OnBus(s.bus, k.eventID) { OnBusGrows(s.bus, m, k.eventID); }
    }
    forall n | n in s'.tables.rows ensures RowSound(s'.tables, s'.bus, n) {
      assert RowSound(s.tables, s.bus, n);
      if s.tables.rows[n].publishedAt.Some? { OnBusGrows(s.bus, m, s.tables.rows[n].eventID); }
    }
    forall p | p in s'.flights ensures FlightSound(s'.tables, s'.bus, s'.flights[p]) {
      assert FlightSound(s.tables, s.bus, s.flights[p]);
      forall k | k in s.flights[p].acknowledged ensures OnBus(s'.bus, s.flights[p].entries[k].event.eventID) {
        OnBusGrows(s.bus, m, s.flights[p].entries[k].event.eventID);
      }
    }
    forall j | j in s'.settled ensures Projected(s', j) {
      assert Projected(s, j);
    }
    forall c, k | c in s'.fetches && s'.fetches[c].inserted && 0 <= k < |s'.fetches[c].batch| ensures Projected(s', s'.fetches[c].batch[k]) {
      assert Projected(s, s.fetches[c].batch[k]);
    }
  }

  lemma {:induction false} InsertedHolds(t: Tables, projection: map<ProjectionKey, Event>, bus: seq<Payload>, batch: seq<nat>)
    requires forall p :: p in projection ==> Place(projection[p]) == p && Committed(t, projection[p])
    requires forall j :: 0 <= j < |bus| && bus[j].Encoded? ==> Committed(t, bus[j].event)
    ensures var after := Inserted(projection, bus, batch);
      && projection.Keys <= after.Keys
      && (forall p :: p in after ==> Place(after[p]) == p && Committed(t, after[p]))
      && (forall j :: j in batch && j < |bus| && bus[j].Encoded? ==> Place(bus[j].event) in after)
    decreases |batch|
  {
    if batch != [] {
      var n := |batch| - 1;
      InsertedHolds(t, projection, bus, batch[..n]);
      assert batch == batch[..n] + [batch[n]];
    }
  }

  lemma SafeProject(s: System, c: nat, part: nat, reported: bool)
    requires Safe(s) && Enabled(s, Project(c, part, reported)) && FetchesOnBus(s)
    ensures Safe(Apply(s, Project(c, part, reported)))
  {
    var s' := Apply(s, Project(c, part, reported));
    var batch := s.fetches[c].batch;
    InsertedHolds(s.tables, s.projection, s.bus, batch[..part]);
    forall j | j in s'.settled ensures Projected(s', j) {
      assert Projected(s, j);
    }
    forall d, k | d in s'.fetches && s'.fetches[d].inserted && 0 <= k < |s'.fetches[d].batch| ensures Projected(s', s'.fetches[d].batch[k]) {
      if d == c && reported {
        assert batch[..part] == batch;
        assert s'.fetches[d].batch[k] in batch;
      } else {
        assert Projected(s, s.fetches[d].batch[k]);
      }
    }
  }

  /** Fetched positions are positions of the stream. */
  ghost predicate FetchesOnBus(s: System) {
    forall c, k :: c in s.fetches && 0 <= k < |s.fetches[c].batch| ==> s.fetches[c].batch[k] < |s.bus|
  }

  lemma FetchesStay(s: System, l: Label)
    requires FetchesOnBus(s)
    ensures FetchesOnBus(Apply(s, l))
  {
    var s' := Apply(s, l);
    if l.Pull? && Enabled(s, l) {
      forall c, k | c in s'.fetches && 0 <= k < |s'.fetches[c].batch| ensures s'.fetches[c].batch[k] < |s'.bus| {
        if c == l.consumer { assert s'.fetches[c].batch[k] in l.batch; }
      }
    }
  }

  lemma SafePull(s: System, c: nat, batch: seq<nat>)
    requires Safe(s)
    ensures Safe(s.(fetches := s.fetches[c := Fetch(batch, false)]))
  {
    var s' := s.(fetches := s.fetches[c := Fetch(batch, false)]);
    forall j | j in s'.settled ensures Projected(s', j) {
      assert Projected(s, j);
    }
    forall d, k | d in s'.fetches && s'.fetches[d].inserted && 0 <= k < |s'.fetches[d].batch| ensures Projected(s', s'.fetches[d].batch[k]) {
      assert Projected(s, s.fetches[d].batch[k]);
    }
  }

  lemma SafeSettled(s: System, j: nat)
    requires Safe(s) && Projected(s, j)
    ensures Safe(s.(settled := s.settled + {j}))
  {
    var s' := s.(settled := s.settled + {j});
    forall i | i in s'.settled ensures Projected(s', i) {
      assert Projected(s, i);
    }
    forall d, k | d in s'.fetches && s'.fetches[d].inserted && 0 <= k < |s'.fetches[d].batch| ensures Projected(s', s'.fetches[d].batch[k]) {
      assert Projected(s, s.fetches[d].batch[k]);
    }
  }

  // ---------------------------------------------------------------------------
  // Runs
  // ---------------------------------------------------------------------------

  lemma SafeDraining(s: System, l: Label)
    requires Safe(s) && Enabled(s, l) && (l.Claim? || l.Send? || l.Acknowledge? || l.Mark? || l.CountFailure? || l.Prune?)
    ensures Safe(Apply(s, l))
  {
    match l
    case Claim(p, chosen, at, reclaimAfter, owner) => SafeClaim(s, p, chosen, at, reclaimAfter, owner);
    case Send(p, k) => SafeSend(s, p, k);
    case Acknowledge(p, k) => SafeAcknowledge(s, p, k);
    case Mark(p, at) => SafeMark(s, p, at);
    case CountFailure(n, reason) => SafeRedrawn(s, MarkFailed(s.tables.rows, n, reason));
    case Prune(tenant, before, doomed) => SafePrune(s, tenant, before, doomed);
  }

  lemma SafeApply(s: System, l: Label)
    requires Safe(s) && FetchesOnBus(s)
    ensures Safe(Apply(s, l)) && FetchesOnBus(Apply(s, l))
  {
    FetchesStay(s, l);
    if Enabled(s, l) {
      if l.Record? || l.RecordBatch? || l.RecordInTx? || l.RecordConsumed? {
        SafeRecording(s, l);
      } else if l.Claim? || l.Send? || l.Acknowledge? || l.Mark? || l.CountFailure? || l.Prune? {
        SafeDraining(s, l);
      } else {
        match l
        case Store(e) => SafeStored(s, Encoded(e));
        case Noise => SafeStored(s, Garbled);
        case Pull(c, batch) => SafePull(s, c, batch);
        case Project(c, part, reported) => SafeProject(s, c, part, reported);
        case Settle(c, k) => SafeSettled(s, s.fetches[c].batch[k]);
        case Discard(j) => SafeSettled(s, j);
      }
    }
  }

  lemma {:induction false} SafeAlways(labels: seq<Label>)
    ensures Safe(Run(labels)) && FetchesOnBus(Run(labels))
    decreases |labels|
  {
    if labels != [] {
      SafeAlways(labels[..|labels| - 1]);
      SafeApply(Run(labels[..|labels| - 1]), labels[|labels| - 1]);
    }
  }
}
