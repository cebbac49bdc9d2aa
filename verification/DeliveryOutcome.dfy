/** What the outbox promises: nothing committed is lost, nothing uncommitted is published,
    nothing is stuck, and what the projection holds when everything has been delivered. */
module DeliveryOutcome {
  import opened Outbox
  import opened Delivery
  import opened DeliverySafety

  /** In every run: every committed event's id is on the bus or owed to it by an unpublished
      row, and every event on the bus or in the projection was committed. */
  lemma NoEventLost(labels: seq<Label>)
    ensures var s := Run(labels);
      && (forall k :: k in s.tables.events ==> Pending(s.tables.rows, k.eventID) || OnBus(s.bus, k.eventID))
      && (forall n :: n in s.tables.rows && s.tables.rows[n].publishedAt.Some? ==> OnBus(s.bus, s.tables.rows[n].eventID))
      && (forall j :: 0 <= j < |s.bus| && s.bus[j].Encoded? ==> s.bus[j].event.Id() in s.tables.events)
      && (forall p :: p in s.projection ==> s.projection[p].Id() in s.tables.events)
  {
    SafeAlways(labels);
    var s := Run(labels);
    forall n | n in s.tables.rows && s.tables.rows[n].publishedAt.Some? ensures OnBus(s.bus, s.tables.rows[n].eventID) {
      assert RowSound(s.tables, s.bus, n);
    }
    forall k | k in s.tables.events ensures Pending(s.tables.rows, k.eventID) || OnBus(s.bus, k.eventID) {
      assert Carried(s.tables.rows, s.bus, k.eventID);
    }
  }

  // ---------------------------------------------------------------------------
  // When everything has been delivered
  // ---------------------------------------------------------------------------

  /** No row is waiting and the consumer has settled the whole stream. */
  ghost predicate Quiescent(s: System) {
    && (forall n :: n in s.tables.rows ==> s.tables.rows[n].publishedAt.Some?)
    && (forall j: nat :: j < |s.bus| ==> j in s.settled)
  }

  /** Event ids name events: no two committed events share one. */
  predicate IdsNameEvents(t: Tables) {
    forall k, k' :: k in t.events && k' in t.events && k.eventID == k'.eventID ==> k == k'
  }

  ghost function ProjectedIds(s: System): set<string> {
    set p | p in s.projection :: s.projection[p].eventID
  }

  ghost function ProjectedKeys(s: System): set<Key> {
    set p | p in s.projection :: s.projection[p].Id()
  }

  lemma QuiescentIds(s: System)
    requires Safe(s) && Quiescent(s)
    ensures forall k :: k in s.tables.events ==> k.eventID in ProjectedIds(s)
  {
    forall k | k in s.tables.events ensures k.eventID in ProjectedIds(s) {
      assert Carried(s.tables.rows, s.bus, k.eventID);
      var j: nat :| j < |s.bus| && s.bus[j].Encoded? && s.bus[j].event.eventID == k.eventID;
      assert j in s.settled && Projected(s, j);
      var p := Place(s.bus[j].event);
      assert Place(s.projection[p]) == p;
    }
  }

  /** At quiescence the deduplicated projection is exactly the committed events, if ids name
      events; without that, still every committed id. */
  lemma QuiescentProjectionIsTheRecord(labels: seq<Label>)
    requires Quiescent(Run(labels))
    ensures var s := Run(labels);
      && (forall k :: k in s.tables.events ==> k.eventID in ProjectedIds(s))
      && (IdsNameEvents(s.tables) ==> ProjectedKeys(s) == s.tables.events.Keys)
  {
    SafeAlways(labels);
    var s := Run(labels);
    QuiescentIds(s);
    if IdsNameEvents(s.tables) {
      forall k | k in s.tables.events ensures k in ProjectedKeys(s) {
        var p :| p in s.projection && s.projection[p].eventID == k.eventID;
        assert Committed(s.tables, s.projection[p]);
      }
      forall k | k in ProjectedKeys(s) ensures k in s.tables.events {
        var p :| p in s.projection && s.projection[p].Id() == k;
        assert Committed(s.tables, s.projection[p]);
      }
    }
  }

  /** The outbox is unique by event id alone while the record is unique by id and instant:
      a new event is given a row of its own exactly when no row holds its id. */
  lemma OwnRowExactly(t: Tables, e: Event, now: int)
    requires Append(t, e, now).1 == Recorded && t.next !in t.rows
    requires forall n :: n in t.rows && t.rows[n].payload.Encoded? ==> t.rows[n].payload.event.Id() in t.events
    ensures var t' := Append(t, e, now).0;
      && e.Id() in t'.events
      && ((exists n :: n in t'.rows && t'.rows[n].payload == Encoded(e)) <==> !Queued(t.rows, e.eventID))
  {
    var t' := Append(t, e, now).0;
    if !Queued(t.rows, e.eventID) {
      assert t'.rows[t.next].payload == Encoded(e);
    } else {
      forall n | n in t'.rows ensures t'.rows[n].payload != Encoded(e) {
        assert t.rows[n] == t'.rows[n];
      }
    }
  }

  // ---------------------------------------------------------------------------
  // Nothing is stuck
  // ---------------------------------------------------------------------------

  ghost function Waiting(s: System): set<nat> {
    set n | n in s.tables.rows && s.tables.rows[n].publishedAt.None?
  }

  ghost function Unsettled(s: System): set<nat> {
    set j: nat | 0 <= j < |s.bus| && j !in s.settled
  }

  lemma RunOne(labels: seq<Label>, l: Label)
    ensures Run(labels + [l]) == Apply(Run(labels), l)
  {
    assert (labels + [l])[..|labels|] == labels;
  }

  /** An instant at which a row's lease, if it has one, has run out. */
  function LeaseOver(r: Row): int {
    if r.claimedAt.Some? then r.claimedAt.value + 1 else 0
  }

  /** Publisher 0 has the row's event alone in hand and has handed it over. */
  predicate Aloft(s: System, n: nat, e: Event) {
    0 in s.flights && s.flights[0] == Flight([Entry(n, e)], {}) && e in s.wire
  }

  lemma ClaimAndSend(s: System, n: nat)
    requires Safe(s) && n in Waiting(s)
    ensures var e := s.tables.rows[n].payload; e.Encoded?
    ensures var e := s.tables.rows[n].payload.event;
      var s1 := Apply(s, Claim(0, [n], LeaseOver(s.tables.rows[n]), 0, ""));
      var s2 := Apply(s1, Send(0, 0));
      Aloft(s2, n, e) && s2.tables.events == s.tables.events && Waiting(s2) == Waiting(s)
  {
    assert RowSound(s.tables, s.bus, n);
    ClaimOne(s, n, LeaseOver(s.tables.rows[n]));
  }

  lemma ClaimOne(s: System, n: nat, at: int)
    requires n in Waiting(s) && Claimable(s.tables.rows[n], at, 0) && s.tables.rows[n].payload.Encoded?
    requires Valid(s.tables.rows[n].payload.event)
    ensures var e := s.tables.rows[n].payload.event;
      var s2 := Apply(Apply(s, Claim(0, [n], at, 0, "")), Send(0, 0));
      Aloft(s2, n, e) && s2.tables.events == s.tables.events && Waiting(s2) == Waiting(s)
  {
    var e := s.tables.rows[n].payload.event;
    DecodedAlone(s.tables.rows, n, e);
    assert Enabled(s, Claim(0, [n], at, 0, ""));
    var s1 := Apply(s, Claim(0, [n], at, 0, ""));
    assert s1.flights[0] == Flight([Entry(n, e)], {});
    assert Waiting(s1) == Waiting(s);
  }

  lemma DecodedAlone(rows: map<nat, Row>, n: nat, e: Event)
    requires n in rows && rows[n].payload == Encoded(e)
    ensures Decoded(rows, [n]) == [Entry(n, e)]
  {
    assert [n][1..] == [];
  }

  lemma StoreAndMark(s: System, n: nat, e: Event)
    requires Aloft(s, n, e) && n in Waiting(s)
    ensures var s1 := Apply(s, Store(e));
      var s2 := Apply(s1, Acknowledge(0, 0));
      var s3 := Apply(s2, Mark(0, 0));
      s3.tables.events == s.tables.events && Waiting(s3) == Waiting(s) - {n}
  {
    var s1 := Apply(s, Store(e));
    assert s1.bus[|s.bus|] == Encoded(e);
    assert OnBus(s1.bus, e.eventID);
    var s2 := Apply(s1, Acknowledge(0, 0));
    assert s2.flights[0] == Flight([Entry(n, e)], {0});
    assert Done(s2.flights[0]) == {n};
  }

  /** A waiting row can be delivered, however it came to be waiting. */
  lemma PublishRow(labels: seq<Label>, n: nat) returns (more: seq<Label>)
    requires n in Waiting(Run(labels))
    ensures Run(labels + more).tables.events == Run(labels).tables.events
    ensures Waiting(Run(labels + more)) == Waiting(Run(labels)) - {n}
  {
    var claim, e := LeaseAndSend(labels, n);
    StoreAndMark(Run(labels + [claim, Send(0, 0)]), n, e);
    RunThree(labels + [claim, Send(0, 0)], Store(e), Acknowledge(0, 0), Mark(0, 0));
    more := [claim, Send(0, 0)] + [Store(e), Acknowledge(0, 0), Mark(0, 0)];
    assert labels + more == labels + [claim, Send(0, 0)] + [Store(e), Acknowledge(0, 0), Mark(0, 0)];
  }

  lemma LeaseAndSend(labels: seq<Label>, n: nat) returns (claim: Label, e: Event)
    requires n in Waiting(Run(labels))
    ensures var s := Run(labels + [claim, Send(0, 0)]);
      && Aloft(s, n, e) && n in Waiting(s)
      && s.tables.events == Run(labels).tables.events && Waiting(s) == Waiting(Run(labels))
  {
    SafeAlways(labels);
    var s := Run(labels);
    claim := Claim(0, [n], LeaseOver(s.tables.rows[n]), 0, "");
    ClaimAndSend(s, n);
    e := s.tables.rows[n].payload.event;
    RunTwo(labels, claim, Send(0, 0));
  }

  lemma RunTwo(labels: seq<Label>, a: Label, b: Label)
    ensures Run(labels + [a, b]) == Apply(Apply(Run(labels), a), b)
  {
    RunOne(labels, a);
    RunOne(labels + [a], b);
    assert labels + [a, b] == labels + [a] + [b];
  }

  lemma RunThree(labels: seq<Label>, a: Label, b: Label, c: Label)
    ensures Run(labels + [a, b, c]) == Apply(Apply(Apply(Run(labels), a), b), c)
  {
    RunTwo(labels, a, b);
    RunOne(labels + [a, b], c);
    assert labels + [a, b, c] == labels + [a, b] + [c];
  }

  lemma ProjectSteps(s: System, j: nat)
    requires j in Unsettled(s) && s.bus[j].Encoded?
    ensures var s1 := Apply(s, Pull(0, [j]));
      var s2 := Apply(s1, Project(0, 1, true));
      var s3 := Apply(s2, Settle(0, 0));
      s3.tables == s.tables && Unsettled(s3) == Unsettled(s) - {j}
  {
    var s1 := Apply(s, Pull(0, [j]));
    assert s1.fetches[0] == Fetch([j], false);
    var s2 := Apply(s1, Project(0, 1, true));
    assert s2.fetches[0] == Fetch([j], true);
    assert Apply(s2, Settle(0, 0)) == s2.(settled := s.settled + {j});
  }

  lemma SettleMessage(labels: seq<Label>, j: nat) returns (more: seq<Label>)
    requires j in Unsettled(Run(labels))
    ensures Run(labels + more).tables == Run(labels).tables
    ensures Unsettled(Run(labels + more)) == Unsettled(Run(labels)) - {j}
  {
    var s := Run(labels);
    if s.bus[j].Garbled? {
      more := [Discard(j)];
      RunOne(labels, Discard(j));
    } else {
      ProjectSteps(s, j);
      RunThree(labels, Pull(0, [j]), Project(0, 1, true), Settle(0, 0));
      more := [Pull(0, [j]), Project(0, 1, true), Settle(0, 0)];
    }
  }

  lemma Associate(labels: seq<Label>, first: seq<Label>, rest: seq<Label>)
    ensures labels + (first + rest) == labels + first + rest
  {
  }

  lemma {:induction false} PublishAll(labels: seq<Label>) returns (more: seq<Label>)
    ensures Run(labels + more).tables.events == Run(labels).tables.events
    ensures Waiting(Run(labels + more)) == {}
    decreases |Waiting(Run(labels))|
  {
    more := [];
    assert labels + [] == labels;
    if Waiting(Run(labels)) != {} {
      var n :| n in Waiting(Run(labels));
      var first := PublishRow(labels, n);
      var rest := PublishAll(labels + first);
      more := first + rest;
      Associate(labels, first, rest);
    }
  }

  lemma {:induction false} SettleAll(labels: seq<Label>) returns (more: seq<Label>)
    ensures Run(labels + more).tables == Run(labels).tables
    ensures Unsettled(Run(labels + more)) == {}
    decreases |Unsettled(Run(labels))|
  {
    more := [];
    assert labels + [] == labels;
    if Unsettled(Run(labels)) != {} {
      var j :| j in Unsettled(Run(labels));
      var first := SettleMessage(labels, j);
      var rest := SettleAll(labels + first);
      more := first + rest;
      Associate(labels, first, rest);
    }
  }

  /** `more` records nothing and ends with every committed event delivered. */
  ghost predicate Delivers(labels: seq<Label>, more: seq<Label>) {
    var s, s' := Run(labels), Run(labels + more);
    && s'.tables.events == s.tables.events
    && Quiescent(s')
    && (forall k :: k in s.tables.events ==> k.eventID in ProjectedIds(s'))
    && (IdsNameEvents(s.tables) ==> ProjectedKeys(s') == s.tables.events.Keys)
  }

  /** From every reachable state, whatever has crashed or timed out in it, the publishers and
      the consumer can still deliver every committed event: no row and no message is ever
      stranded. */
  lemma NothingIsStranded(labels: seq<Label>)
    ensures exists more :: Delivers(labels, more)
  {
    var first := PublishAll(labels);
    var rest := SettleAll(labels + first);
    assert labels + (first + rest) == labels + first + rest;
    EmptyIsQuiescent(Run(labels + first + rest));
    QuiescentProjectionIsTheRecord(labels + first + rest);
    assert Delivers(labels, first + rest);
  }

  lemma EmptyIsQuiescent(s: System)
    requires Waiting(s) == {} && Unsettled(s) == {}
    ensures Quiescent(s)
  {
    forall n | n in s.tables.rows ensures s.tables.rows[n].publishedAt.Some? {
      assert n !in Waiting(s);
    }
    forall j: nat | j < |s.bus| ensures j in s.settled {
      assert j !in Unsettled(s);
    }
  }
}
