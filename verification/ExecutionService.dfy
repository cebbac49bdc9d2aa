/** The service as the object a replica holds: store, cache, venue
    (internal/execution/service.go). Submit is proved to be one uninterrupted run of the
    attempt of Attempts.dfy, so everything proved of all interleavings holds of it. */
module ExecutionService {
  import opened Wrappers
  import opened Broker
  import opened FakeBroker
  import opened Idempotency
  import opened Attempts
  import opened ExecutionRuns
  import opened ExecutionOutcomes
  import opened ExecutionStores
  import opened MemoryStores
  import opened SubmissionAnswers

  /** Several steps of one attempt with nothing in between. */
  ghost function Drive(w: World, a: Attempt, cs: seq<Choice>): (World, Attempt)
    decreases |cs|
  {
    if cs == [] then (w, a)
    else var (w', a') := Step(w, a, cs[0]); Drive(w', a', cs[1..])
  }

  lemma {:induction false} DriveThen(w: World, a: Attempt, cs: seq<Choice>, ds: seq<Choice>)
    ensures var (w', a') := Drive(w, a, cs); Drive(w, a, cs + ds) == Drive(w', a', ds)
    decreases |cs|
  {
    if cs == [] {
      assert cs + ds == ds;
    } else {
      var (w1, a1) := Step(w, a, cs[0]);
      DriveThen(w1, a1, cs[1..], ds);
      assert (cs + ds)[1..] == cs[1..] + ds;
    }
  }

  lemma DriveOne(w: World, a: Attempt, c: Choice)
    ensures Drive(w, a, [c]) == Step(w, a, c)
  {
    assert [c][1..] == [];
  }

  /** Driving one attempt alone, whatever its environment chooses, keeps the invariant of
      recorded outcomes and forgets no identity and no outcome. */
  lemma {:induction false} DriveSound(w: World, a: Attempt, cs: seq<Choice>)
    requires Sound(System(w, [a]))
    ensures var (w', a') := Drive(w, a, cs);
      Sound(System(w', [a'])) && Grows(w, w')
    decreases |cs|
  {
    if cs != [] {
      var s := System(w, [a]);
      var (w1, a1) := Step(w, a, cs[0]);
      SoundStep(s, 0, cs[0]);
      assert Apply(s, Advance(0, cs[0])) == System(w1, [a1]);
      ApplyGrows(s, Advance(0, cs[0]));
      DriveSound(w1, a1, cs[1..]);
    }
  }

  /** How many of the calls carried a client order id. */
  ghost function CallsOf(sends: seq<Request>, coid: string): nat {
    if sends == [] then 0
    else CallsOf(sends[..|sends| - 1], coid) + (if sends[|sends| - 1].clientOrderID == coid then 1 else 0)
  }

  class Service {
    const store: PostgresStore
    const cache: MemoryCache
    const venue: Venue
    // Every call of the venue's SubmitOrder, and the first outcome recorded for each key.
    ghost var sends: seq<Request>
    ghost var decided: map<Ident, Outcome>

    constructor (store: PostgresStore, cache: MemoryCache, venue: Venue)
      requires store.State() == EMPTY_TABLES && cache.records == map[] && venue.submissions == map[]
      ensures Valid() && this.store == store && this.cache == cache && this.venue == venue
      ensures State() == EMPTY_WORLD
    {
      this.store, this.cache, this.venue := store, cache, venue;
      sends, decided := [], map[];
    }

    ghost function State(): World
      reads this, store, cache
    {
      World(store.State(), cache.records, sends, decided)
    }

    /** What the call finds around it: which stores answer. */
    ghost function Here(now: int): Surroundings
      reads store, cache
    {
      Surroundings(!store.down, !cache.disabled, now)
    }

    ghost predicate Valid()
      reads this, store, cache, venue
    {
      && Sound(System(State(), []))
      && (forall coid :: coid != "" ==> FakeBroker.Submissions(venue.State(), coid) == CallsOf(sends, coid))
    }

    /** Executes an authorized request at most once. */
    method Submit(req: Request, now: int) returns (result: Result, ghost cs: seq<Choice>)
      requires Valid()
      modifies this, store, cache, venue
      ensures Valid()
      ensures Drive(old(State()), Entering(req), cs) == (State(), Finished(req, result))
      ensures Played(old(State()), old(venue.State()), Entering(req), old(Here(now))) == (State(), venue.State(), result)
      ensures Honest(cs, old(Here(now)))
      ensures result.Success? && !result.outcome.replayed ==> AsTheVenueHolds(venue.State(), result.outcome)
      ensures result.Success? ==> Agrees(State(), req.Id(), result.outcome)
      ensures Grows(old(State()), State())
    {
      ghost var w0 := State();
      assert Sound(System(w0, [Entering(req)])) by {
        assert Truthful(w0, Entering(req));
      }
      PlayedHolds(w0, venue.State(), Entering(req), Here(now));
      result, cs := Run(req, now);
      DriveSound(w0, Entering(req), cs);
      assert Truthful(State(), Finished(req, result)) by {
        assert System(State(), [Finished(req, result)]).attempts[0] == Finished(req, result);
      }
      SoundWithout(State(), Finished(req, result));
    }

    /** The body of Submit. */
    method Run(req: Request, now: int) returns (result: Result, ghost cs: seq<Choice>)
      requires store.Valid() && Counted()
      modifies this, store, cache, venue
      ensures store.Valid() && Counted()
      ensures Drive(old(State()), Entering(req), cs) == (State(), Finished(req, result))
      ensures Played(old(State()), old(venue.State()), Entering(req), old(Here(now))) == (State(), venue.State(), result)
      ensures Here(now) == old(Here(now)) && Honest(cs, old(Here(now)))
    {
      ghost var w0 := State();
      ghost var c := Choice(now, !store.down, false, !cache.disabled, NotFound);
      DriveOne(w0, Entering(req), c);
      if req.tenantID == "" || req.key == "" || req.clientOrderID == "" {
        return Failure(Invalid, NO_OUTCOME), [c];
      }
      var cached := cache.Get(req.tenantID, req.key);
      if cached.Some? && cached.value.state.Resolved? {
        if cached.value.envelopeID != "" && cached.value.envelopeID != req.envelopeID {
          return Failure(KeyReused, NO_OUTCOME), [c];
        }
        return Success(Replay(cached.value.outcome)), [c];
      }
      assert Drive(w0, Entering(req), [c]) == (w0, Claiming(req));
      ghost var rest;
      result, rest := ClaimAndGo(req, now);
      cs := [c] + rest;
      DriveThen(w0, Entering(req), [c], rest);
    }

    /** The venue's counter agrees with the calls made. */
    ghost predicate Counted()
      reads this, venue
    {
      forall coid :: coid != "" ==> FakeBroker.Submissions(venue.State(), coid) == CallsOf(sends, coid)
    }

    method ClaimAndGo(req: Request, now: int) returns (result: Result, ghost cs: seq<Choice>)
      requires store.Valid() && Counted()
      modifies this, store, cache, venue
      ensures store.Valid() && Counted()
      ensures Drive(old(State()), Claiming(req), cs) == (State(), Finished(req, result))
      ensures Played(old(State()), old(venue.State()), Claiming(req), old(Here(now))) == (State(), venue.State(), result)
      ensures Here(now) == old(Here(now)) && Honest(cs, old(Here(now)))
    {
      ghost var w0 := State();
      ghost var c := Choice(now, !store.down, false, !cache.disabled, NotFound);
      DriveOne(w0, Claiming(req), c);
      var answer := store.Claim(NewRecord(req, now));
      if answer.None? {
        return Failure(StoreUnavailable, NO_OUTCOME), [c];
      }
      ghost var w1 := State();
      assert Drive(w0, Claiming(req), [c]) == (w1, AfterClaim(req, answer.value));
      ghost var rest := [];
      match answer.value {
        case Refused(e) =>
          result := Failure(ClaimRefused(e), NO_OUTCOME);
        case Existing(r) =>
          if r.envelopeID != "" && r.envelopeID != req.envelopeID {
            result := Failure(KeyReused, NO_OUTCOME);
          } else {
            result, rest := ResumeExisting(req, r, now);
          }
        case Claimed =>
          result, rest := SubmitOnce(req, now);
      }
      cs := [c] + rest;
      DriveThen(w0, Claiming(req), [c], rest);
    }

    /** A key already claimed: replay what it resolved to, or ask the venue. */
    method ResumeExisting(req: Request, r: Record, now: int) returns (result: Result, ghost cs: seq<Choice>)
      requires store.Valid() && Counted()
      requires r.envelopeID == "" || r.envelopeID == req.envelopeID
      modifies this, store, cache
      ensures store.Valid() && Counted()
      ensures Drive(old(State()), AfterClaim(req, Existing(r)), cs) == (State(), Finished(req, result))
      ensures Played(old(State()), old(venue.State()), AfterClaim(req, Existing(r)), old(Here(now))) == (State(), venue.State(), result)
      ensures Here(now) == old(Here(now)) && Honest(cs, old(Here(now)))
    {
      if r.state.Resolved? {
        result := Success(Replay(r.outcome));
        cs := PutInCache(req, r, result, now);
      } else {
        result, cs := ReconcileAndResolve(req, r.clientOrderID, now);
      }
    }

    method PutInCache(req: Request, entry: Record, result: Result, now: int) returns (ghost cs: seq<Choice>)
      requires store.Valid() && Counted()
      modifies cache
      ensures store.Valid() && Counted()
      ensures Drive(old(State()), Caching(req, entry, result), cs) == (State(), Finished(req, result))
      ensures Played(old(State()), old(venue.State()), Caching(req, entry, result), old(Here(now))) == (State(), venue.State(), result)
      ensures Here(now) == old(Here(now)) && Honest(cs, old(Here(now)))
    {
      ghost var c := Choice(now, !store.down, false, !cache.disabled, NotFound);
      DriveOne(State(), Caching(req, entry, result), c);
      cache.Put(entry);
      cs := [c];
    }

    /** Sends the order: one call, no loop. */
    method SubmitOnce(req: Request, now: int) returns (result: Result, ghost cs: seq<Choice>)
      requires store.Valid() && Counted()
      modifies this, store, cache, venue
      ensures store.Valid() && Counted()
      ensures Drive(old(State()), Sending(req), cs) == (State(), Finished(req, result))
      ensures Played(old(State()), old(venue.State()), Sending(req), old(Here(now))) == (State(), venue.State(), result)
      ensures Here(now) == old(Here(now)) && Honest(cs, old(Here(now)))
    {
      ghost var w0 := State();
      var answer := venue.SubmitOrder(OrderRequest(req.clientOrderID, None));
      sends := sends + [req];
      assert Counted() by {
        assert sends[..|sends| - 1] == w0.sends;
      }
      ghost var c := ChoiceOf(Here(now), answer);
      DriveOne(w0, Sending(req), c);
      ghost var rest;
      result, rest := TakeAnswer(req, answer, now);
      cs := [c] + rest;
      DriveThen(w0, Sending(req), [c], rest);
    }

    /** What the venue's answer to a send leads to. */
    method TakeAnswer(req: Request, answer: Answer, now: int) returns (result: Result, ghost cs: seq<Choice>)
      requires store.Valid() && Counted()
      modifies this, store, cache
      ensures store.Valid() && Counted()
      ensures Drive(old(State()), AfterSend(req, answer), cs) == (State(), Finished(req, result))
      ensures Played(old(State()), old(venue.State()), AfterSend(req, answer), old(Here(now))) == (State(), venue.State(), result)
      ensures Here(now) == old(Here(now)) && Honest(cs, old(Here(now)))
    {
      if answer.Timeout? || (answer.Order? && !Usable(req.clientOrderID, answer.order)) {
        result, cs := ReconcileAndResolve(req, req.clientOrderID, now);
      } else if answer.Order? {
        result, cs := ResolveAndCache(req, OutcomeFrom(answer.order), false, now);
      } else {
        var reason := if answer.Failed? then answer.reason else "not found";
        result, cs := ResolveAndCache(req, RejectedOutcome(req.clientOrderID, reason), false, now);
      }
    }

    /** Asks the venue what happened, once; an answer it cannot use leaves the record
        PENDING. */
    method ReconcileAndResolve(req: Request, coid: string, now: int) returns (result: Result, ghost cs: seq<Choice>)
      requires store.Valid() && Counted()
      modifies this, store, cache
      ensures store.Valid() && Counted()
      ensures Drive(old(State()), Reconciling(req, coid), cs) == (State(), Finished(req, result))
      ensures Played(old(State()), old(venue.State()), Reconciling(req, coid), old(Here(now))) == (State(), venue.State(), result)
      ensures Here(now) == old(Here(now)) && Honest(cs, old(Here(now)))
    {
      ghost var w0 := State();
      var answer := venue.GetOrder(coid);
      ghost var c := Choice(now, !store.down, false, !cache.disabled, answer);
      DriveOne(w0, Reconciling(req, coid), c);
      ghost var rest := [];
      if answer.Order? && Usable(coid, answer.order) {
        result, rest := ResolveAndCache(req, OutcomeFrom(answer.order), true, now);
      } else {
        result := Failure(Unresolved, UnknownOutcome(coid));
      }
      cs := [c] + rest;
      DriveThen(w0, Reconciling(req, coid), [c], rest);
    }

    method ResolveAndCache(req: Request, o: Outcome, asked: bool, now: int) returns (result: Result, ghost cs: seq<Choice>)
      requires store.Valid() && Counted()
      modifies this, store, cache
      ensures store.Valid() && Counted()
      ensures Drive(old(State()), Resolving(req, o, asked), cs) == (State(), Finished(req, result))
      ensures Played(old(State()), old(venue.State()), Resolving(req, o, asked), old(Here(now))) == (State(), venue.State(), result)
      ensures Here(now) == old(Here(now)) && Honest(cs, old(Here(now)))
    {
      ghost var w0 := State();
      ghost var c := Choice(now, !store.down, false, !cache.disabled, NotFound);
      DriveOne(w0, Resolving(req, o, asked), c);
      var ok := store.Resolve(req.tenantID, req.key, o, now);
      if !ok {
        return Failure(NotRecorded, o), [c];
      }
      decided := RecordDecision(decided, store.State(), req.Id());
      result := Success(o.(reconciled := asked));
      ghost var rest := PutInCache(req, ResolvedEntry(req, o, now), result, now);
      cs := [c] + rest;
      DriveThen(w0, Resolving(req, o, asked), [c], rest);
    }
  }

  // ---------------------------------------------------------------------------
  // The venue's counter
  // ---------------------------------------------------------------------------

  lemma {:induction false} CallsAtMostOne(sends: seq<Request>, coid: string)
    requires forall j, k :: 0 <= j < k < |sends| ==> sends[j].clientOrderID != sends[k].clientOrderID
    ensures CallsOf(sends, coid) <= 1
    ensures CallsOf(sends, coid) == 1 ==> exists k :: 0 <= k < |sends| && sends[k].clientOrderID == coid
  {
    if sends != [] {
      var before := sends[..|sends| - 1];
      CallsAtMostOne(before, coid);
      if CallsOf(before, coid) == 1 {
        var k :| 0 <= k < |before| && before[k].clientOrderID == coid;
        assert sends[k].clientOrderID == coid;
      }
    }
  }

  lemma {:induction false} CallsTwice(sends: seq<Request>, j: nat, k: nat)
    requires j < k < |sends| && sends[j].clientOrderID == sends[k].clientOrderID
    ensures CallsOf(sends, sends[j].clientOrderID) >= 2
  {
    var before := sends[..|sends| - 1];
    if k < |sends| - 1 {
      CallsTwice(before, j, k);
    } else {
      CallsOnce(before, j);
    }
  }

  lemma {:induction false} CallsOnce(sends: seq<Request>, j: nat)
    requires j < |sends|
    ensures CallsOf(sends, sends[j].clientOrderID) >= 1
  {
    if j < |sends| - 1 {
      CallsOnce(sends[..|sends| - 1], j);
    }
  }

  /** The gateway's client order id carries the key and no tenant. So in every run the
      venue's own counter stays at one per client order id exactly as long as no two tenants
      send the same key. */
  lemma CounterAtMostOneExactly(labels: seq<Label>)
    requires forall k :: 0 <= k < |Run(labels).world.sends| ==>
               Run(labels).world.sends[k].clientOrderID == "coid-" + Run(labels).world.sends[k].key
    ensures var sends := Run(labels).world.sends;
      (forall coid :: CallsOf(sends, coid) <= 1) <==>
        (forall j, k :: 0 <= j < k < |sends| && sends[j].tenantID != sends[k].tenantID ==> sends[j].key != sends[k].key)
  {
    var sends := Run(labels).world.sends;
    AtMostOnce(labels);
    if forall j, k :: 0 <= j < k < |sends| && sends[j].tenantID != sends[k].tenantID ==> sends[j].key != sends[k].key {
      forall j, k | 0 <= j < k < |sends| ensures sends[j].clientOrderID != sends[k].clientOrderID {
        assert sends[j].key != sends[k].key;
        SamePrefix(sends[j].key, sends[k].key);
      }
      forall coid ensures CallsOf(sends, coid) <= 1 {
        CallsAtMostOne(sends, coid);
      }
    } else {
      var j, k :| 0 <= j < k < |sends| && sends[j].tenantID != sends[k].tenantID && sends[j].key == sends[k].key;
      CallsTwice(sends, j, k);
    }
  }

  lemma SamePrefix(a: string, b: string)
    requires a != b
    ensures "coid-" + a != "coid-" + b
  {
    assert ("coid-" + a)[5..] == a && ("coid-" + b)[5..] == b;
  }

  lemma SoundWithout(w: World, a: Attempt)
    requires Sound(System(w, [a]))
    ensures Sound(System(w, []))
  {
  }
}
