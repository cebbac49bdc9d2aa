/** The outbox, the bus and the projection as one machine: any number of recorders, outbox
    publishers and projecting consumers, each of which may stop at any point. */
module Delivery {
  import opened Outbox

  /** One decoded row of a claimed batch. */
  datatype Entry = Entry(outboxID: nat, event: Event)

  /** A publisher's batch, and the positions the bus has acknowledged so far. */
  datatype Flight = Flight(entries: seq<Entry>, acknowledged: set<nat>)

  /** A consumer's fetched messages, and whether its batch insert was reported done. */
  datatype Fetch = Fetch(batch: seq<nat>, inserted: bool)

  /** The projection's deduplication key. */
  datatype ProjectionKey = ProjectionKey(tenantID: string, eventID: string)

  function Place(e: Event): ProjectionKey {
    ProjectionKey(e.tenantID, e.eventID)
  }

  /** `wire` is everything ever handed to the client library, `bus` the stored stream,
      `settled` the stream positions the durable consumer has acknowledged or terminated. */
  datatype System = System(
    tables: Tables,
    wire: set<Event>,
    bus: seq<Payload>,
    settled: set<nat>,
    projection: map<ProjectionKey, Event>,
    flights: map<nat, Flight>,
    fetches: map<nat, Fetch>)

  const INITIAL := System(EMPTY, {}, [], {}, map[], map[], map[])

  predicate OnBus(bus: seq<Payload>, eventID: string) {
    exists j :: 0 <= j < |bus| && bus[j].Encoded? && bus[j].event.eventID == eventID
  }

  /** What may happen next. A batch insert that was not reported done may have stored any
      part of the batch. A process that stops simply takes no further step; its batch is
      replaced when it is started again. A step that failed without effect is not a step. */
  datatype Label =
    | Record(event: Event, now: int)
    | RecordBatch(events: seq<Event>, now: int)
    | RecordInTx(event: Event, now: int)
    | RecordConsumed(position: nat)
    | Claim(publisher: nat, chosen: seq<nat>, at: int, reclaimAfter: int, owner: string)
    | Send(publisher: nat, k: nat)
    | Store(event: Event)
    | Acknowledge(publisher: nat, k: nat)
    | Mark(publisher: nat, at: int)
    | CountFailure(row: nat, reason: string)
    | Prune(tenant: string, before: int, doomed: set<nat>)
    | Noise
    | Pull(consumer: nat, batch: seq<nat>)
    | Project(consumer: nat, part: nat, reported: bool)
    | Settle(consumer: nat, k: nat)
    | Discard(position: nat)

  predicate InFlight(s: System, p: nat, k: nat) {
    p in s.flights && k < |s.flights[p].entries|
  }

  ghost predicate Enabled(s: System, l: Label) {
    match l
    case RecordConsumed(j) => j < |s.bus| && s.bus[j].Encoded?
    case Claim(_, chosen, at, reclaimAfter, _) =>
      forall n :: n in chosen ==> n in s.tables.rows && Claimable(s.tables.rows[n], at, reclaimAfter)
    case Send(p, k) => InFlight(s, p, k) && Valid(s.flights[p].entries[k].event)
    case Store(e) => e in s.wire
    // The server acknowledges what it holds, and a repeated message id at once.
    case Acknowledge(p, k) => InFlight(s, p, k) && OnBus(s.bus, s.flights[p].entries[k].event.eventID)
    case Mark(p, _) => p in s.flights
    case Prune(tenant, before, doomed) => PruneChoice(s.tables.rows, tenant, before, doomed)
    case Pull(_, batch) => forall j :: j in batch ==> j < |s.bus| && s.bus[j].Encoded?
    case Project(c, part, reported) =>
      c in s.fetches && part <= |s.fetches[c].batch| && (reported ==> part == |s.fetches[c].batch|)
    case Settle(c, k) => c in s.fetches && s.fetches[c].inserted && k < |s.fetches[c].batch|
    case Discard(j) => j < |s.bus| && s.bus[j].Garbled?
    case _ => true
  }

  /** Rows whose text is an event, in the claimed order. */
  function Decoded(rows: map<nat, Row>, chosen: seq<nat>): seq<Entry>
    requires forall n :: n in chosen ==> n in rows
    decreases |chosen|
  {
    if chosen == [] then []
    else
      var rest := Decoded(rows, chosen[1..]);
      match rows[chosen[0]].payload
      case Encoded(e) => [Entry(chosen[0], e)] + rest
      case Garbled => rest
  }

  function Done(f: Flight): set<nat> {
    set k | k in f.acknowledged && k < |f.entries| :: f.entries[k].outboxID
  }

  /** The projection after an insert: a later row replaces an earlier one. */
  function Inserted(projection: map<ProjectionKey, Event>, bus: seq<Payload>, batch: seq<nat>): map<ProjectionKey, Event>
    decreases |batch|
  {
    if batch == [] then projection
    else
      var before := Inserted(projection, bus, batch[..|batch| - 1]);
      var j := batch[|batch| - 1];
      if j < |bus| && bus[j].Encoded? then before[Place(bus[j].event) := bus[j].event] else before
  }

  ghost function Apply(s: System, l: Label): System {
    if !Enabled(s, l) then s else
    match l
    case Record(e, now) => s.(tables := Append(s.tables, e, now).0)
    case RecordBatch(events, now) => s.(tables := AppendBatch(s.tables, events, now).0)
    case RecordInTx(e, now) => s.(tables := AppendInTx(s.tables, e, now).0)
    case RecordConsumed(j) => s.(tables := AppendConsumed(s.tables, s.bus[j].event).0)
    case Claim(p, chosen, at, _, owner) =>
      s.(tables := s.tables.(rows := Lease(s.tables.rows, (set n | n in chosen), at, owner)),
         flights := s.flights[p := Flight(Decoded(s.tables.rows, chosen), {})])
    case Send(p, k) => s.(wire := s.wire + {s.flights[p].entries[k].event})
    case Store(e) => s.(bus := s.bus + [Encoded(e)])
    case Acknowledge(p, k) =>
      s.(flights := s.flights[p := s.flights[p].(acknowledged := s.flights[p].acknowledged + {k})])
    case Mark(p, at) =>
      s.(tables := s.tables.(rows := MarkPublished(s.tables.rows, Done(s.flights[p]), at)))
    case CountFailure(n, reason) => s.(tables := s.tables.(rows := MarkFailed(s.tables.rows, n, reason)))
    case Prune(_, _, doomed) => s.(tables := s.tables.(rows := s.tables.rows - doomed))
    case Noise => s.(bus := s.bus + [Garbled])
    case Pull(c, batch) => s.(fetches := s.fetches[c := Fetch(batch, false)])
    case Project(c, part, reported) =>
      s.(projection := Inserted(s.projection, s.bus, s.fetches[c].batch[..part]),
         fetches := s.fetches[c := s.fetches[c].(inserted := s.fetches[c].inserted || reported)])
    case Settle(c, k) => s.(settled := s.settled + {s.fetches[c].batch[k]})
    case Discard(j) => s.(settled := s.settled + {j})
  }

  ghost function Run(labels: seq<Label>): System
    decreases |labels|
  {
    if labels == [] then INITIAL
    else Apply(Run(labels[..|labels| - 1]), labels[|labels| - 1])
  }
}
