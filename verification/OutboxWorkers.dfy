/** The processes around the outbox: the batch publisher, one drain, the retention sweep and
    the projecting consumer, step by step. */
module OutboxWorkers {
  import opened Wrappers
  import opened Outbox
  import opened Delivery
  import opened DeliverySafety
  import opened OutboxStore

  /** What becomes of one message handed to the client: refused at once, lost on the way,
      or received, with or without its acknowledgement arriving. The server may recognise a
      repeated message id and store nothing. */
  datatype Fate = Refused | Lost | Received(acknowledged: bool, recognised: bool)

  predicate Delivered(e: Event, fate: Fate) {
    Valid(e) && fate.Received? && fate.acknowledged
  }

  /** The stored stream. */
  class Stream {
    var stored: seq<Payload>

    constructor ()
      ensures stored == []
    {
      stored := [];
    }

    method Receive(e: Event, recognised: bool)
      modifies this
      ensures old(stored) <= stored && OnBus(stored, e.eventID)
      ensures stored == old(stored) || stored == old(stored) + [Encoded(e)]
    {
      if recognised && OnBus(stored, e.eventID) { return; }
      stored := stored + [Encoded(e)];
      assert stored[|stored| - 1] == Encoded(e);
    }

    /** Sends a batch and collects every acknowledgement. An empty result is a success;
        `complete` false is a wait cut short, after which the results mean nothing. */
    method PublishBatch(events: seq<Event>, fates: seq<Fate>, cut: bool) returns (results: seq<string>, complete: bool)
      requires |fates| == |events|
      modifies this
      ensures old(stored) <= stored
      ensures forall j :: |old(stored)| <= j < |stored| ==> stored[j].Encoded? && stored[j].event in events
      ensures complete == !cut && |results| == |events|
      ensures complete ==> forall i :: 0 <= i < |events| ==> (results[i] == "" <==> Delivered(events[i], fates[i]))
      ensures forall i :: 0 <= i < |events| && Delivered(events[i], fates[i]) ==> OnBus(stored, events[i].eventID)
    {
      results := [];
      var futures: seq<Option<bool>> := [];
      for i := 0 to |events|
        invariant |results| == |futures| == i
        invariant old(stored) <= stored
        invariant forall j :: |old(stored)| <= j < |stored| ==> stored[j].Encoded? && stored[j].event in events
        invariant forall k :: 0 <= k < i ==> (results[k] == "" <==> Valid(events[k]) && !fates[k].Refused?)
        invariant forall k :: 0 <= k < i ==> futures[k] == Future(events[k], fates[k])
        invariant forall k :: 0 <= k < i && Delivered(events[k], fates[k]) ==> OnBus(stored, events[k].eventID)
      {
        futures := futures + [Future(events[i], fates[i])];
        if !Valid(events[i]) {
          results := results + ["invalid event"];
        } else if fates[i].Refused? {
          results := results + ["publish"];
        } else {
          results := results + [""];
          if fates[i].Received? {
            ghost var before := stored;
            Receive(events[i], fates[i].recognised);
            OnBusStays(before, stored);
          }
        }
      }
      if cut { return results, false; }
      for i := 0 to |futures|
        invariant |results| == |events|
        invariant forall k :: 0 <= k < i ==> (results[k] == "" <==> Delivered(events[k], fates[k]))
        invariant forall k :: i <= k < |events| ==> (results[k] == "" <==> Valid(events[k]) && !fates[k].Refused?)
      {
        if futures[i] == Some(false) {
          results := results[i := "no acknowledgement"];
        }
      }
      return results, true;
    }
  }

  /** The pending acknowledgement of a message that was handed over. */
  function Future(e: Event, fate: Fate): Option<bool> {
    if Valid(e) && !fate.Refused? then Some(fate.Received? && fate.acknowledged) else None
  }

  lemma OnBusStays(bus: seq<Payload>, bus': seq<Payload>)
    requires bus <= bus'
    ensures forall id :: OnBus(bus, id) ==> OnBus(bus', id)
  {
    forall id | OnBus(bus, id) ensures OnBus(bus', id) {
      var j :| 0 <= j < |bus| && bus[j].Encoded? && bus[j].event.eventID == id;
      assert bus'[j] == bus[j];
    }
  }

  // ---------------------------------------------------------------------------
  // Drain
  // ---------------------------------------------------------------------------

  /** Rows after some failures were counted against some of them. */
  ghost predicate Counted(rows: map<nat, Row>, rows': map<nat, Row>, failed: set<nat>, counting: bool) {
    && rows'.Keys == rows.Keys
    && forall n :: n in rows ==>
        if n in failed && counting then rows'[n] == rows[n].(attempts := rows[n].attempts + 1, lastError := rows'[n].lastError)
        else rows'[n] == rows[n]
  }

  lemma CountOne(rows: map<nat, Row>, rows': map<nat, Row>, failed: set<nat>, counting: bool, n: nat, reason: string)
    requires Counted(rows, rows', failed, counting) && n !in failed
    ensures Counted(rows, if counting then MarkFailed(rows', n, reason) else rows', failed + {n}, counting)
  {
  }

  /** The rows of a claimed batch whose text is an event the bus acknowledged. */
  function DeliveredRows(rows: map<nat, Row>, taken: set<nat>, fates: nat -> Fate): set<nat> {
    set n | n in taken && n in rows && rows[n].payload.Encoded? && Delivered(rows[n].payload.event, fates(n))
  }

  /** The rows of a claimed batch a failure is counted against: those that are not events,
      and, unless the wait was cut short, those not acknowledged. */
  function FailedRows(rows: map<nat, Row>, taken: set<nat>, fates: nat -> Fate, cut: bool): set<nat> {
    set n | n in taken && n in rows && (rows[n].payload.Garbled? || (!cut && !Delivered(rows[n].payload.event, fates(n))))
  }

  /** The whole effect of one drain on the rows. */
  ghost predicate Drained(rows: map<nat, Row>, rows': map<nat, Row>, taken: set<nat>, marked: set<nat>, failed: set<nat>,
                          at: int, later: int, owner: string, counting: bool)
  {
    && rows'.Keys == rows.Keys
    && forall n :: n in rows ==>
        var r := if n in taken then rows[n].(claimedAt := Some(at), claimedBy := owner) else rows[n];
        if n in marked then rows'[n] == r.(publishedAt := Some(later))
        else if n in failed && counting then rows'[n] == r.(attempts := r.attempts + 1, lastError := rows'[n].lastError)
        else rows'[n] == r
  }

  /** A decoded batch: the events in claimed order, each with its row. */
  ghost predicate DecodedBatch(entries: seq<OutboxEntry>, ids: seq<nat>, events: seq<Event>) {
    && |ids| == |events|
    && (forall i :: 0 <= i < |ids| ==> exists k :: 0 <= k < |entries| && entries[k].outboxID == ids[i] && entries[k].payload == Encoded(events[i]))
    && (forall k :: 0 <= k < |entries| && entries[k].payload.Encoded? ==> entries[k].outboxID in ids)
    && (forall i, j :: 0 <= i < j < |ids| ==> ids[i] != ids[j])
  }

  class OutboxPublisher {
    const store: EvidenceStore
    const stream: Stream
    const owner: string
    const reclaimAfter: int

    constructor (store: EvidenceStore, stream: Stream, owner: string, reclaimAfter: int)
      ensures this.store == store && this.stream == stream
    {
      this.store, this.stream := store, stream;
      this.owner := if owner != "" then owner else "assurance-gateway";
      this.reclaimAfter := if reclaimAfter > 0 then reclaimAfter else 120_000_000_000;
    }

    /** Separates the rows that are events from those that are not, counting the latter. */
    method Decode(entries: seq<OutboxEntry>, counting: bool) returns (ids: seq<nat>, events: seq<Event>)
      requires Faithful(store.rows, entries)
      modifies store`rows
      ensures DecodedBatch(entries, ids, events)
      ensures Counted(old(store.rows), store.rows, Garbling(entries), counting)
    {
      ids, events := [], [];
      for i := 0 to |entries|
        invariant DecodedBatch(entries[..i], ids, events)
        invariant Counted(old(store.rows), store.rows, Garbling(entries[..i]), counting)
      {
        EntriesDiffer(old(store.rows), entries);
        assert entries[..i + 1] == entries[..i] + [entries[i]];
        match entries[i].payload
        case Garbled =>
          CountOne(old(store.rows), store.rows, Garbling(entries[..i]), counting, entries[i].outboxID, "payload is not an event");
          store.MarkFailed(entries[i].outboxID, "payload is not an event", counting);
          assert Garbling(entries[..i + 1]) == Garbling(entries[..i]) + {entries[i].outboxID};
        case Encoded(e) =>
          DecodedOne(entries, i, ids, events);
          ids, events := ids + [entries[i].outboxID], events + [e];
          assert Garbling(entries[..i + 1]) == Garbling(entries[..i]);
      }
      assert entries[..|entries|] == entries;
    }

    /** Sorts a published batch into the rows to mark and the rows to count a failure for. */
    method Sort(ids: seq<nat>, results: seq<string>, counting: bool) returns (published: seq<nat>)
      requires |results| == |ids| && Distinct(ids)
      modifies store`rows
      ensures Counted(old(store.rows), store.rows, Where(ids, results, false), counting)
      ensures (set n | n in published) == Where(ids, results, true) && |published| == |Where(ids, results, true)|
    {
      published := [];
      for i := 0 to |ids|
        invariant Counted(old(store.rows), store.rows, Where(ids[..i], results[..i], false), counting)
        invariant (set n | n in published) == Where(ids[..i], results[..i], true)
        invariant |published| == |Where(ids[..i], results[..i], true)|
      {
        WhereOne(ids, results, i);
        if results[i] != "" {
          CountOne(old(store.rows), store.rows, Where(ids[..i], results[..i], false), counting, ids[i], results[i]);
          store.MarkFailed(ids[i], results[i], counting);
        } else {
          published := published + [ids[i]];
        }
      }
      assert ids[..|ids|] == ids && results[..|ids|] == results;
    }

    /** Claims one batch, publishes it, and marks what made it. `taken` is the batch. */
    method Drain(limit: int, at: int, later: int, locked: set<nat>, fates: nat -> Fate, cut: bool,
                 claimUp: bool, counting: bool, markUp: bool) returns (count: nat, ghost taken: set<nat>)
      modifies store`rows, stream
      ensures old(stream.stored) <= stream.stored
      ensures claimUp ==>
        ClaimChoice(old(store.rows), taken, if 0 < limit <= 2000 then limit else 500, at, reclaimAfter, locked)
      ensures !claimUp ==> taken == {}
      ensures var delivered := DeliveredRows(old(store.rows), taken, fates);
        && Drained(old(store.rows), store.rows, taken, if markUp && !cut then delivered else {},
                   FailedRows(old(store.rows), taken, fates, cut), at, later, owner, counting)
        && count == (if markUp && !cut then |delivered| else 0)
        && (forall n :: n in delivered ==> OnBus(stream.stored, old(store.rows)[n].payload.event.eventID))
    {
      ghost var rows0 := store.rows;
      var entries := store.Claim(if limit <= 0 then 500 else limit, owner, at, reclaimAfter, locked, claimUp);
      taken := IdSet(entries);
      if !claimUp { return 0, {}; }
      count := Process(entries, at, later, fates, cut, counting, markUp, rows0);
    }

    /** What follows the claim. */
    method Process(entries: seq<OutboxEntry>, ghost at: int, later: int, fates: nat -> Fate, cut: bool,
                   counting: bool, markUp: bool, ghost rows0: map<nat, Row>) returns (count: nat)
      requires Faithful(rows0, entries) && store.rows == Lease(rows0, IdSet(entries), at, owner)
      modifies store`rows, stream
      ensures old(stream.stored) <= stream.stored
      ensures var taken := IdSet(entries); var delivered := DeliveredRows(rows0, taken, fates);
        && Drained(rows0, store.rows, taken, if markUp && !cut then delivered else {},
                   FailedRows(rows0, taken, fates, cut), at, later, owner, counting)
        && count == (if markUp && !cut then |delivered| else 0)
        && (forall n :: n in delivered ==> OnBus(stream.stored, rows0[n].payload.event.eventID))
    {
      ghost var taken := IdSet(entries);
      LeaseIsFaithful(rows0, entries, at, owner);
      var ids, events := Decode(entries, counting);
      BatchIsTaken(rows0, entries, ids, events);
      ghost var rows2 := store.rows;
      var published, complete := Deliver(ids, events, fates, cut, counting, rows0, taken);
      if !complete {
        CutShort(rows0, rows2, taken, Garbling(entries), fates, at, later, owner, counting);
        return 0;
      }
      count := Finish(published, at, later, fates, cut, counting, markUp, rows0, rows2, taken, Garbling(entries));
    }

    /** Marks what was acknowledged. */
    method Finish(published: seq<nat>, ghost at: int, later: int, ghost fates: nat -> Fate, ghost cut: bool, ghost counting: bool, markUp: bool,
                  ghost rows0: map<nat, Row>, ghost rows2: map<nat, Row>, ghost taken: set<nat>, ghost garbled: set<nat>) returns (count: nat)
      requires Counted(Lease(rows0, taken, at, owner), rows2, garbled, counting)
      requires Counted(rows2, store.rows, UnansweredRows(rows0, taken, fates), counting)
      requires garbled == set n | n in taken && n in rows0 && rows0[n].payload.Garbled?
      requires (set n | n in published) == DeliveredRows(rows0, taken, fates) && |published| == |DeliveredRows(rows0, taken, fates)|
      requires cut ==> UnansweredRows(rows0, taken, fates) == {} && DeliveredRows(rows0, taken, fates) == {}
      modifies store`rows
      ensures var delivered := DeliveredRows(rows0, taken, fates);
        && Drained(rows0, store.rows, taken, if markUp && !cut then delivered else {}, FailedRows(rows0, taken, fates, cut), at, later, owner, counting)
        && count == (if markUp && !cut then |delivered| else 0)
    {
      ghost var rows3 := store.rows;
      ghost var delivered := DeliveredRows(rows0, taken, fates);
      var ok := store.MarkPublishedBatch(published, later, markUp);
      ghost var marked := if ok then delivered else {};
      NothingMarked(rows3, later);
      assert store.rows == MarkPublished(rows3, marked, later);
      DrainAssembles(rows0, rows2, rows3, taken, garbled, fates, cut, marked, at, later, owner, counting);
      NoneDelivered(delivered);
      assert marked == if markUp && !cut then delivered else {};
      return if ok then |published| else 0;
    }

    /** Publishes the decoded batch and sorts its results; an empty batch is complete. */
    method Deliver(ids: seq<nat>, events: seq<Event>, fates: nat -> Fate, cut: bool, counting: bool,
                   ghost rows: map<nat, Row>, ghost taken: set<nat>) returns (published: seq<nat>, complete: bool)
      requires BatchOf(rows, taken, ids, events)
      modifies store`rows, stream
      ensures old(stream.stored) <= stream.stored
      ensures forall n :: n in DeliveredRows(rows, taken, fates) ==> OnBus(stream.stored, rows[n].payload.event.eventID)
      ensures complete == (!cut || events == [])
      ensures complete && cut ==> UnansweredRows(rows, taken, fates) == {} && DeliveredRows(rows, taken, fates) == {}
      ensures !complete ==> store.rows == old(store.rows)
      ensures complete ==>
        && Counted(old(store.rows), store.rows, UnansweredRows(rows, taken, fates), counting)
        && (set n | n in published) == DeliveredRows(rows, taken, fates)
        && |published| == |DeliveredRows(rows, taken, fates)|
    {
      published := [];
      if events == [] {
        SortedByFate(rows, taken, ids, events, fates, []);
        return [], true;
      }
      var fated := seq(|ids|, i requires 0 <= i < |ids| => fates(ids[i]));
      var results: seq<string>;
      results, complete := stream.PublishBatch(events, fated, cut);
      BusHolds(rows, taken, ids, events, fates, fated, stream.stored);
      if complete {
        SortedByFate(rows, taken, ids, events, fates, results);
        published := Sort(ids, results, counting);
      }
    }
  }

  lemma LeaseIsFaithful(rows: map<nat, Row>, entries: seq<OutboxEntry>, at: int, owner: string)
    requires Faithful(rows, entries)
    ensures Faithful(Lease(rows, IdSet(entries), at, owner), entries)
  {
  }

  lemma NoneDelivered(delivered: set<nat>)
    ensures |delivered| == 0 <==> delivered == {}
  {
  }

  lemma NothingMarked(rows: map<nat, Row>, later: int)
    ensures MarkPublished(rows, {}, later) == rows
  {
  }

  predicate Distinct(ids: seq<nat>) {
    forall i, j :: 0 <= i < j < |ids| ==> ids[i] != ids[j]
  }

  /** The ids whose result is a success, or is not. */
  function Where(ids: seq<nat>, results: seq<string>, success: bool): set<nat>
    requires |ids| == |results|
  {
    set k | 0 <= k < |ids| && (results[k] == "") == success :: ids[k]
  }

  lemma WhereOne(ids: seq<nat>, results: seq<string>, i: nat)
    requires |ids| == |results| && i < |ids| && Distinct(ids)
    ensures ids[i] !in Where(ids[..i], results[..i], true) && ids[i] !in Where(ids[..i], results[..i], false)
    ensures Where(ids[..i + 1], results[..i + 1], results[i] == "") == Where(ids[..i], results[..i], results[i] == "") + {ids[i]}
    ensures Where(ids[..i + 1], results[..i + 1], results[i] != "") == Where(ids[..i], results[..i], results[i] != "")
  {
    forall success: bool, n | n in Where(ids[..i], results[..i], success) ensures n in Where(ids[..i + 1], results[..i + 1], success) {
      var k :| 0 <= k < i && (results[..i][k] == "") == success && ids[..i][k] == n;
      assert ids[..i + 1][k] == n && results[..i + 1][k] == results[k];
    }
    assert ids[..i + 1][i] == ids[i] && results[..i + 1][i] == results[i];
  }

  /** The decoded batch is exactly the taken rows that hold events. */
  lemma BatchIsTaken(rows: map<nat, Row>, entries: seq<OutboxEntry>, ids: seq<nat>, events: seq<Event>)
    requires Faithful(rows, entries) && DecodedBatch(entries, ids, events)
    ensures BatchOf(rows, IdSet(entries), ids, events)
    ensures forall n :: n in IdSet(entries) ==> n in rows
    ensures Garbling(entries) == set n | n in IdSet(entries) && n in rows && rows[n].payload.Garbled?
  {
    forall n | n in IdSet(entries) ensures n in rows && (rows[n].payload.Encoded? ==> n in ids) && (rows[n].payload.Garbled? ==> n in Garbling(entries)) {
      var k :| 0 <= k < |entries| && entries[k].outboxID == n;
      assert entries[k] == EntryOf(rows, n);
    }
  }

  function Garbling(entries: seq<OutboxEntry>): set<nat> {
    set k | 0 <= k < |entries| && entries[k].payload.Garbled? :: entries[k].outboxID
  }

  lemma EntriesDiffer(rows: map<nat, Row>, entries: seq<OutboxEntry>)
    requires Faithful(rows, entries)
    ensures forall j, k :: 0 <= j < k < |entries| ==> entries[j].outboxID != entries[k].outboxID
  {
    forall j, k | 0 <= j < k < |entries| ensures entries[j].outboxID != entries[k].outboxID {
      if entries[j].outboxID == entries[k].outboxID {
        var fewer := entries[..j] + entries[j + 1..];
        assert IdSet(fewer) == IdSet(entries) by {
          forall n | n in IdSet(entries) ensures n in IdSet(fewer) {
            var i :| 0 <= i < |entries| && entries[i].outboxID == n;
            var at := if i < j then i else if i == j then k - 1 else i - 1;
            assert fewer[at].outboxID == n;
          }
        }
        IdSetBound(fewer);
      }
    }
  }

  lemma {:induction false} IdSetBound(entries: seq<OutboxEntry>)
    ensures |IdSet(entries)| <= |entries|
    decreases |entries|
  {
    if entries != [] {
      IdSetBound(entries[1..]);
      assert entries == [entries[0]] + entries[1..];
      assert IdSet(entries) == {entries[0].outboxID} + IdSet(entries[1..]);
    }
  }

  lemma DecodedOne(entries: seq<OutboxEntry>, i: nat, ids: seq<nat>, events: seq<Event>)
    requires i < |entries| && entries[i].payload.Encoded? && DecodedBatch(entries[..i], ids, events)
    requires forall j, k :: 0 <= j < k < |entries| ==> entries[j].outboxID != entries[k].outboxID
    ensures DecodedBatch(entries[..i + 1], ids + [entries[i].outboxID], events + [entries[i].payload.event])
  {
    var ids', events' := ids + [entries[i].outboxID], events + [entries[i].payload.event];
    var before, after := entries[..i], entries[..i + 1];
    forall j | 0 <= j < |ids'|
      ensures exists k :: 0 <= k < |after| && after[k].outboxID == ids'[j] && after[k].payload == Encoded(events'[j])
    {
      if j < |ids| {
        var k :| 0 <= k < i && before[k].outboxID == ids[j] && before[k].payload == Encoded(events[j]);
        assert after[k] == before[k];
      } else {
        assert after[i].outboxID == ids'[j];
      }
    }
    forall k | 0 <= k < |after| && after[k].payload.Encoded? ensures after[k].outboxID in ids' {
      if k < i { assert before[k] == after[k]; }
    }
  }

  /** The decoded batch, seen from the rows. */
  ghost predicate BatchOf(rows: map<nat, Row>, taken: set<nat>, ids: seq<nat>, events: seq<Event>) {
    && |ids| == |events| && Distinct(ids)
    && (forall i :: 0 <= i < |ids| ==> ids[i] in taken && ids[i] in rows && rows[ids[i]].payload == Encoded(events[i]))
    && (forall n :: n in taken && n in rows && rows[n].payload.Encoded? ==> n in ids)
  }

  lemma BusHolds(rows: map<nat, Row>, taken: set<nat>, ids: seq<nat>, events: seq<Event>, fates: nat -> Fate, fated: seq<Fate>, bus: seq<Payload>)
    requires BatchOf(rows, taken, ids, events)
    requires |fated| == |ids| && forall i :: 0 <= i < |ids| ==> fated[i] == fates(ids[i])
    requires forall i :: 0 <= i < |events| && Delivered(events[i], fated[i]) ==> OnBus(bus, events[i].eventID)
    ensures forall n :: n in DeliveredRows(rows, taken, fates) ==> OnBus(bus, rows[n].payload.event.eventID)
  {
    forall n | n in DeliveredRows(rows, taken, fates) ensures OnBus(bus, rows[n].payload.event.eventID) {
      var i :| 0 <= i < |ids| && ids[i] == n;
    }
  }

  /** The claimed events the bus did not acknowledge. */
  function UnansweredRows(rows: map<nat, Row>, taken: set<nat>, fates: nat -> Fate): set<nat> {
    set n | n in taken && n in rows && rows[n].payload.Encoded? && !Delivered(rows[n].payload.event, fates(n))
  }

  lemma SortedByFate(rows: map<nat, Row>, taken: set<nat>, ids: seq<nat>, events: seq<Event>, fates: nat -> Fate, results: seq<string>)
    requires BatchOf(rows, taken, ids, events) && |results| == |ids|
    requires forall i :: 0 <= i < |ids| ==> (results[i] == "" <==> Delivered(events[i], fates(ids[i])))
    ensures Where(ids, results, true) == DeliveredRows(rows, taken, fates)
    ensures Where(ids, results, false) == UnansweredRows(rows, taken, fates)
  {
    forall n | n in taken && n in rows && rows[n].payload.Encoded?
      ensures Delivered(rows[n].payload.event, fates(n)) ==> n in Where(ids, results, true)
      ensures !Delivered(rows[n].payload.event, fates(n)) ==> n in Where(ids, results, false)
    {
      var i :| 0 <= i < |ids| && ids[i] == n;
    }
  }

  lemma CutShort(rows: map<nat, Row>, rows': map<nat, Row>, taken: set<nat>, garbled: set<nat>, fates: nat -> Fate,
                 at: int, later: int, owner: string, counting: bool)
    requires Counted(Lease(rows, taken, at, owner), rows', garbled, counting)
    requires garbled == set n | n in taken && n in rows && rows[n].payload.Garbled?
    ensures Drained(rows, rows', taken, {}, FailedRows(rows, taken, fates, true), at, later, owner, counting)
  {
    assert FailedRows(rows, taken, fates, true) == garbled;
  }

  lemma DrainAssembles(rows: map<nat, Row>, rows2: map<nat, Row>, rows3: map<nat, Row>, taken: set<nat>, garbled: set<nat>,
                       fates: nat -> Fate, cut: bool, marked: set<nat>,
                       at: int, later: int, owner: string, counting: bool)
    requires Counted(Lease(rows, taken, at, owner), rows2, garbled, counting)
    requires Counted(rows2, rows3, UnansweredRows(rows, taken, fates), counting)
    requires garbled == set n | n in taken && n in rows && rows[n].payload.Garbled?
    requires marked <= DeliveredRows(rows, taken, fates)
    requires cut ==> UnansweredRows(rows, taken, fates) == {}
    ensures Drained(rows, MarkPublished(rows3, marked, later), taken, marked, FailedRows(rows, taken, fates, cut), at, later, owner, counting)
  {
    assert FailedRows(rows, taken, fates, cut) == garbled + UnansweredRows(rows, taken, fates);
  }

  /** Whatever fate its messages meet and wherever it is cut short, a drain leaves every id
      the outbox carried still carried: it publishes no row before that row's own
      acknowledgement. */
  lemma DrainKeepsCarried(rows: map<nat, Row>, rows': map<nat, Row>, taken: set<nat>, marked: set<nat>, fates: nat -> Fate, failed: set<nat>,
                          at: int, later: int, owner: string, counting: bool, bus: seq<Payload>, bus': seq<Payload>)
    requires forall n :: n in rows && rows[n].payload.Encoded? ==> rows[n].payload.event.eventID == rows[n].eventID
    requires bus <= bus' && marked <= DeliveredRows(rows, taken, fates)
    requires Drained(rows, rows', taken, marked, failed, at, later, owner, counting)
    requires forall n :: n in DeliveredRows(rows, taken, fates) ==> OnBus(bus', rows[n].payload.event.eventID)
    ensures Redrawn(rows, rows', bus')
    ensures forall id :: Carried(rows, bus, id) ==> Carried(rows', bus', id)
  {
    OnBusStays(bus, bus');
    forall id | Carried(rows, bus, id) ensures Carried(rows', bus', id) {
      if Pending(rows, id) {
        var n :| n in rows && rows[n].publishedAt.None? && rows[n].eventID == id;
        assert n in rows' && rows'[n].eventID == id;
      }
    }
  }

  // ---------------------------------------------------------------------------
  // Retention
  // ---------------------------------------------------------------------------

  ghost predicate Swept(rows: map<nat, Row>, tenants: seq<string>, before: int) {
    forall k, n :: 0 <= k < |tenants| && n in rows ==> !Prunable(rows[n], tenants[k], before)
  }

  /** Rows only left, and only delivered ones of the listed tenants, older than the cutoff. */
  ghost predicate OnlyPruned(rows: map<nat, Row>, rows': map<nat, Row>, tenants: seq<string>, before: int) {
    && rows'.Keys <= rows.Keys
    && (forall n :: n in rows' ==> rows'[n] == rows[n])
    && (forall n :: n in rows && n !in rows' ==> rows[n].tenantID in tenants && Prunable(rows[n], rows[n].tenantID, before))
  }

  class OutboxSweeper {
    const store: EvidenceStore
    const keep: int
    const batch: int

    constructor (store: EvidenceStore, keep: int, batch: int)
      ensures this.store == store && this.batch > 0 && this.keep > 0
    {
      this.store := store;
      this.keep := if keep <= 0 then 86_400_000_000_000 else keep;
      this.batch := if batch <= 0 then 5000 else batch;
    }

    /** Prunes every tenant until a pass deletes less than a full batch. `ups` is whether the
        database answers each call. */
    method Sweep(tenants: seq<string>, now: int, ups: (nat, nat) -> bool) returns (total: nat)
      modifies store`rows
      ensures OnlyPruned(old(store.rows), store.rows, tenants, now - keep)
      ensures total == |old(store.rows)| - |store.rows|
      ensures batch > 0 && "" !in tenants && (forall k, round :: ups(k, round)) ==> Swept(store.rows, tenants, now - keep)
    {
      var before := now - keep;
      total := 0;
      for k := 0 to |tenants|
        invariant OnlyPruned(old(store.rows), store.rows, tenants, before)
        invariant total == |old(store.rows)| - |store.rows|
        invariant batch > 0 && "" !in tenants && (forall k, round :: ups(k, round)) ==> Swept(store.rows, tenants[..k], before)
      {
        var done := SweepTenant(tenants, k, before, ups);
        total := total + done;
        assert tenants[..k + 1] == tenants[..k] + [tenants[k]];
      }
      assert tenants[..|tenants|] == tenants;
    }

    method SweepTenant(tenants: seq<string>, k: nat, before: int, ups: (nat, nat) -> bool) returns (total: nat)
      requires k < |tenants|
      modifies store`rows
      ensures OnlyPruned(old(store.rows), store.rows, [tenants[k]], before)
      ensures total == |old(store.rows)| - |store.rows|
      ensures batch > 0 && tenants[k] != "" && (forall round :: ups(k, round)) ==> Swept(store.rows, [tenants[k]], before)
    {
      total := 0;
      var more, round := true, 0;
      while more
        invariant OnlyPruned(old(store.rows), store.rows, [tenants[k]], before)
        invariant total == |old(store.rows)| - |store.rows|
        invariant !more && batch > 0 && tenants[k] != "" && (forall r :: ups(k, r)) ==> Swept(store.rows, [tenants[k]], before)
        decreases |store.rows|, more
      {
        ghost var rows := store.rows;
        var deleted, doomed := store.PrunePublished(tenants[k], before, batch, ups(k, round));
        if deleted.None? {
          more := false;
        } else {
          assert store.rows.Keys == rows.Keys - doomed && |rows.Keys - doomed| == |rows.Keys| - |doomed|;
          total := total + deleted.value;
          more := deleted.value >= batch && deleted.value > 0;
        }
        round := round + 1;
      }
    }
  }

  // ---------------------------------------------------------------------------
  // The projecting consumer
  // ---------------------------------------------------------------------------

  class Consumer {
    const stream: Stream
    var settled: set<nat>
    var projection: map<ProjectionKey, Event>

    constructor (stream: Stream)
      ensures this.stream == stream && settled == {} && projection == map[]
    {
      this.stream := stream;
      settled, projection := {}, map[];
    }

    /** The handler: one insert for the whole batch. A failure may have stored a part. */
    method InsertEvidence(batch: seq<nat>, stored: nat, ok: bool) returns (failed: bool)
      modifies this`projection
      ensures failed == !ok
      ensures var part := if ok then batch else if stored <= |batch| then batch[..stored] else batch;
        projection == Inserted(old(projection), stream.stored, part)
    {
      var part := if ok then batch else if stored <= |batch| then batch[..stored] else batch;
      for i := 0 to |part|
        invariant projection == Inserted(old(projection), stream.stored, part[..i])
      {
        assert part[..i + 1][..i] == part[..i];
        var j := part[i];
        if j < |stream.stored| && stream.stored[j].Encoded? {
          projection := projection[Place(stream.stored[j].event) := stream.stored[j].event];
        }
      }
      assert part[..|part|] == part;
      failed := !ok;
    }

    /** Reads a batch: text that is not an event is terminated and counted. */
    method Read(batch: seq<nat>) returns (messages: seq<nat>, poison: nat)
      modifies this`settled
      ensures forall j :: j in messages <==> j in EventsOf(stream.stored, batch)
      ensures settled == old(settled) + PoisonOf(stream.stored, batch)
    {
      messages, poison := [], 0;
      for i := 0 to |batch|
        invariant forall j :: j in messages <==> j in EventsOf(stream.stored, batch[..i])
        invariant settled == old(settled) + PoisonOf(stream.stored, batch[..i])
      {
        assert batch[..i + 1] == batch[..i] + [batch[i]];
        assert forall j :: j in EventsOf(stream.stored, batch[..i]) ==> j in EventsOf(stream.stored, batch[..i + 1]);
        if batch[i] < |stream.stored| {
          if stream.stored[batch[i]].Garbled? {
            settled, poison := settled + {batch[i]}, poison + 1;
          } else {
            messages := messages + [batch[i]];
          }
        }
      }
      assert batch[..|batch|] == batch;
    }

    /** Acknowledges messages one by one, as far as it gets. */
    method AcknowledgeAll(messages: seq<nat>, lost: nat) returns (acked: Option<nat>)
      modifies this`settled
      ensures old(settled) <= settled <= old(settled) + set j | j in messages
      ensures lost >= |messages| ==> settled == old(settled) + (set j | j in messages) && acked == Some(|messages|)
      ensures lost < |messages| ==> acked.None?
    {
      for i := 0 to |messages|
        invariant settled == old(settled) + set j | j in messages[..i]
        invariant i <= lost
      {
        if i == lost { return None; }
        assert messages[..i + 1] == messages[..i] + [messages[i]];
        settled := settled + {messages[i]};
      }
      assert messages[..|messages|] == messages;
      return Some(|messages|);
    }

    /** Pulls a batch, projects it whole, and acknowledges only then. `lost` is where
        acknowledging breaks off. */
    method FetchBatch(batch: seq<nat>, stored: nat, ok: bool, lost: nat) returns (acked: Option<nat>, poison: nat)
      requires SettledProjected(Machine()) && Placed(projection)
      modifies this`settled, this`projection
      ensures SettledProjected(Machine()) && Placed(projection)
      ensures old(projection).Keys <= projection.Keys && old(settled) <= settled
      ensures settled <= old(settled) + PoisonOf(stream.stored, batch) + EventsOf(stream.stored, batch)
      ensures PoisonOf(stream.stored, batch) <= settled
      ensures acked.Some? ==> EventsOf(stream.stored, batch) <= settled
      ensures !ok ==> settled == old(settled) + PoisonOf(stream.stored, batch)
    {
      var messages: seq<nat>;
      messages, poison := Read(batch);
      if messages == [] {
        PoisonSettles(old(Machine()), Machine(), batch);
        assert EventsOf(stream.stored, batch) == {};
        return Some(0), poison;
      }
      var failed := InsertEvidence(messages, stored, ok);
      InsertKeeps(old(projection), stream.stored, if ok then messages else if stored <= |messages| then messages[..stored] else messages);
      PoisonSettles(old(Machine()), Machine(), batch);
      if failed { return None, poison; }
      ghost var before := Machine();
      assert forall j :: j in EventsOf(stream.stored, batch) ==> j in messages;
      acked := AcknowledgeAll(messages, lost);
      EventsSettle(before, Machine(), batch);
    }

    /** This consumer's part of the machine. */
    ghost function Machine(): System
      reads this, stream
    {
      System(EMPTY, {}, stream.stored, settled, projection, map[], map[])
    }
  }

  function PoisonOf(text: seq<Payload>, batch: seq<nat>): set<nat> {
    set j | j in batch && j < |text| && text[j].Garbled?
  }

  function EventsOf(text: seq<Payload>, batch: seq<nat>): set<nat> {
    set j | j in batch && j < |text| && text[j].Encoded?
  }

  predicate Placed(projection: map<ProjectionKey, Event>) {
    forall p :: p in projection ==> Place(projection[p]) == p
  }

  lemma PoisonSettles(s: System, s': System, batch: seq<nat>)
    requires SettledProjected(s) && s'.bus == s.bus && s.projection.Keys <= s'.projection.Keys
    requires s'.settled == s.settled + PoisonOf(s.bus, batch)
    ensures SettledProjected(s')
  {
    forall j | j in s'.settled ensures Projected(s', j) {
      if j in s.settled { assert Projected(s, j); }
    }
  }

  lemma EventsSettle(s: System, s': System, batch: seq<nat>)
    requires SettledProjected(s) && s'.bus == s.bus && s'.projection == s.projection
    requires s'.settled <= s.settled + EventsOf(s.bus, batch)
    requires forall j :: j in EventsOf(s.bus, batch) ==> Place(s.bus[j].event) in s.projection
    ensures SettledProjected(s')
  {
    forall j | j in s'.settled ensures Projected(s', j) {
      if j in s.settled { assert Projected(s, j); }
    }
  }

  lemma {:induction false} InsertKeeps(projection: map<ProjectionKey, Event>, bus: seq<Payload>, batch: seq<nat>)
    requires Placed(projection)
    ensures var after := Inserted(projection, bus, batch);
      && projection.Keys <= after.Keys
      && Placed(after)
      && (forall j :: j in batch && j < |bus| && bus[j].Encoded? ==> Place(bus[j].event) in after)
    decreases |batch|
  {
    if batch != [] {
      InsertKeeps(projection, bus, batch[..|batch| - 1]);
      assert batch == batch[..|batch| - 1] + [batch[|batch| - 1]];
    }
  }
}
