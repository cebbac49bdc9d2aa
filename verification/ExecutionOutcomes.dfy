/** Outcomes refine a write-once map: what a key resolved to never changes, and every
    answer given for it, from the store, the cache or the venue, is that outcome. */
module ExecutionOutcomes {
  import opened Broker
  import opened Idempotency
  import opened Attempts
  import opened ExecutionRuns

  /** The recorded decisions are exactly the outcomes of resolved or retired identities. */
  ghost predicate Recorded(w: World) {
    && (forall id :: id in w.decided <==> id in w.tables.tombstones || (id in w.tables.records && w.tables.records[id].state.Resolved?))
    && (forall id :: id in w.tables.records && w.tables.records[id].state.Resolved? ==>
          id in w.decided && w.tables.records[id].outcome == w.decided[id])
    && (forall id :: id in w.tables.tombstones ==>
          id in w.decided && w.tables.tombstones[id].finalState == w.decided[id].state)
    && (forall id :: id in w.decided ==> w.decided[id] == w.decided[id].Core())
  }

  ghost predicate Agrees(w: World, id: Ident, o: Outcome) {
    id in w.decided && o.Core() == w.decided[id]
  }

  /** A cache entry is a resolved answer of its own identity; it names no envelope, or the
      one the identity was spent under. */
  ghost predicate EntryTrue(w: World, id: Ident, r: Record) {
    && r.Id() == id
    && r.state.Resolved?
    && Agrees(w, id, r.outcome)
    && (r.envelopeID == "" || (Spent(w.tables, id) && r.envelopeID == EnvelopeOf(w.tables, id)))
  }

  ghost predicate CacheTrue(w: World) {
    forall id :: id in w.cache ==> EntryTrue(w, id, w.cache[id])
  }

  /** What an attempt past its claim knows is true of its identity. */
  ghost predicate Truthful(w: World, a: Attempt) {
    match a
    case Entering(_) => true
    case Claiming(_) => true
    case Crashed(_) => true
    case Sending(req) => FiledUnder(w.tables, req)
    case Reconciling(req, coid) => Spent(w.tables, req.Id()) && coid == ClientOrderOf(w.tables, req.Id())
    case Resolving(req, o, _) =>
      Spent(w.tables, req.Id()) && o.clientOrderID == ClientOrderOf(w.tables, req.Id()) && o == o.Core()
    case Caching(req, entry, result) =>
      && EntryTrue(w, req.Id(), entry)
      && result.Success? && Agrees(w, req.Id(), result.outcome)
    case Finished(req, result) => result.Success? ==> Agrees(w, req.Id(), result.outcome)
  }

  ghost predicate AllTruthful(s: System) {
    forall i :: 0 <= i < |s.attempts| ==> Truthful(s.world, s.attempts[i])
  }

  /** The attempt whose own Resolve wrote the outcome: it answers without the replay flag. */
  predicate Decider(a: Attempt) {
    (a.Caching? || a.Finished?) && a.result.Success? && !a.result.outcome.replayed
  }

  ghost predicate DecidersDistinct(s: System) {
    forall i, j :: 0 <= i < j < |s.attempts| && Decider(s.attempts[i]) && Decider(s.attempts[j]) ==>
      s.attempts[i].req.Id() != s.attempts[j].req.Id()
  }

  ghost predicate Sound(s: System) {
    && SafeSends(s)
    && Recorded(s.world)
    && CacheTrue(s.world)
    && AllTruthful(s)
    && DecidersDistinct(s)
  }

  /** `w'` is `w` grown: nothing remembered or decided is lost or changed. */
  ghost predicate Grows(w: World, w': World) {
    && Remembers(w.tables, w'.tables)
    && (forall id :: id in w.decided ==> id in w'.decided && w'.decided[id] == w.decided[id])
  }

  lemma GrowsKeepsTruth(w: World, w': World, a: Attempt)
    requires Grows(w, w') && Truthful(w, a)
    ensures Truthful(w', a)
  {
  }

  lemma GrowsKeepsAllTruth(s: System, w': World)
    requires Grows(s.world, w') && AllTruthful(s)
    ensures AllTruthful(s.(world := w'))
  {
    forall i | 0 <= i < |s.attempts| ensures Truthful(w', s.attempts[i]) {
      assert Truthful(s.world, s.attempts[i]);
      GrowsKeepsTruth(s.world, w', s.attempts[i]);
    }
  }

  lemma GrowsKeepsCache(w: World, w': World)
    requires Grows(w, w') && CacheTrue(w)
    requires forall id :: id in w'.cache ==> id in w.cache && w'.cache[id] == w.cache[id]
    ensures CacheTrue(w')
  {
  }

  /** The world part of one step. */
  lemma StepWorld(w: World, a: Attempt, c: Choice)
    requires Consistent(w.tables) && Recorded(w) && CacheTrue(w) && Truthful(w, a)
    ensures var (w', a') := Step(w, a, c);
      && Consistent(w'.tables)
      && Grows(w, w')
      && Recorded(w')
      && CacheTrue(w')
  {
    var (w', a') := Step(w, a, c);
    match a
    case Claiming(req) =>
      if c.storeUp {
        ClaimKeeps(w.tables, NewRecord(req, c.now));
        ClaimInserts(w.tables, NewRecord(req, c.now));
        GrowsKeepsCache(w, w');
      }
    case Resolving(req, o, _) =>
      if c.storeUp {
        ResolveKeeps(w.tables, req.Id(), o, c.now);
        ResolveRecords(w, req.Id(), o, c.now);
        GrowsKeepsCache(w, w');
      }
    case Caching(req, entry, _) =>
    case _ =>
  }

  /** A successful Resolve decides an identity that was undecided. */
  lemma ResolveRecords(w: World, id: Ident, o: Outcome, at: int)
    requires Consistent(w.tables) && Recorded(w)
    ensures var (t, ok) := Resolve(w.tables, id, o, at);
      ok ==>
        && id !in w.decided
        && id in t.records
        && t.records[id].outcome == Stored(w.tables.records[id], o)
        && ClientOrderOf(w.tables, id) == w.tables.records[id].clientOrderID
        && Recorded(w.(tables := t, decided := RecordDecision(w.decided, t, id)))
  {
    var (t, ok) := Resolve(w.tables, id, o, at);
    if ok {
      assert id !in w.tables.tombstones;
      assert forall i :: i in w.tables.records && i != id ==> t.records[i] == w.tables.records[i];
    }
  }

  lemma ClaimTruthful(w: World, req: Request, c: Choice)
    requires Consistent(w.tables) && Recorded(w)
    ensures var (t, result) := Claim(w.tables, NewRecord(req, c.now));
      Truthful(w.(tables := t), AfterClaim(req, result))
  {
    ClaimKeeps(w.tables, NewRecord(req, c.now));
    ClaimInserts(w.tables, NewRecord(req, c.now));
    var (t, result) := Claim(w.tables, NewRecord(req, c.now));
    match result
    case Claimed => assert FiledUnder(t, req);
    case Refused(_) =>
    case Existing(r) =>
      assert req.Id() in w.tables.records && r == w.tables.records[req.Id()] && r.Id() == req.Id();
  }

  /** The attempt part of one step. */
  lemma StepTruthful(w: World, a: Attempt, c: Choice)
    requires Consistent(w.tables) && Recorded(w) && CacheTrue(w) && Truthful(w, a)
    ensures var (w', a') := Step(w, a, c); Truthful(w', a')
  {
    if a.Claiming? {
      if c.storeUp {
        ClaimTruthful(w, a.req, c);
      }
    } else if a.Resolving? {
      if c.storeUp {
        ResolveRecords(w, a.req.Id(), a.outcome, c.now);
      }
    } else {
      StepTruthfulElsewhere(w, a, c);
    }
  }

  lemma StepTruthfulElsewhere(w: World, a: Attempt, c: Choice)
    requires CacheTrue(w) && Truthful(w, a) && !a.Claiming? && !a.Resolving?
    ensures var (w', a') := Step(w, a, c); Truthful(w', a')
  {
  }

  /** A step makes an attempt a decider only by deciding its identity. */
  lemma StepDecides(w: World, a: Attempt, c: Choice)
    requires Consistent(w.tables) && Recorded(w) && CacheTrue(w) && Truthful(w, a)
    ensures var (w', a') := Step(w, a, c);
      && a'.req == a.req
      && (Decider(a') ==> Decider(a) || a.req.Id() !in w.decided)
  {
    match a
    case Resolving(req, o, _) =>
      if c.storeUp {
        ResolveRecords(w, req.Id(), o, c.now);
      }
    case _ =>
  }

  lemma DeciderDecided(s: System, i: nat)
    requires AllTruthful(s) && i < |s.attempts| && Decider(s.attempts[i])
    ensures s.attempts[i].req.Id() in s.world.decided
  {
    assert Truthful(s.world, s.attempts[i]);
  }

  lemma SoundStep(s: System, i: nat, c: Choice)
    requires Sound(s) && i < |s.attempts|
    ensures Sound(Apply(s, Advance(i, c)))
  {
    var s' := Apply(s, Advance(i, c));
    var a := s.attempts[i];
    assert Truthful(s.world, a);
    SafeSendsStep(s, i, c);
    StepWorld(s.world, a, c);
    StepTruthful(s.world, a, c);
    GrowsKeepsAllTruth(s, s'.world);
    StepDecides(s.world, a, c);
    assert forall j :: 0 <= j < |s.attempts| && j != i ==> s'.attempts[j] == s.attempts[j];
    forall j | 0 <= j < |s.attempts| && j != i && Decider(s'.attempts[j]) && Decider(s'.attempts[i])
      ensures s'.attempts[j].req.Id() != s'.attempts[i].req.Id()
    {
      DeciderDecided(s, j);
    }
  }

  lemma SoundRetain(s: System, tenant: string, before: int, doomed: set<Ident>)
    requires Sound(s) && Enabled(s, Retain(tenant, before, doomed))
    ensures Sound(Apply(s, Retain(tenant, before, doomed)))
  {
    var s' := Apply(s, Retain(tenant, before, doomed));
    SafeSendsApply(s, Retain(tenant, before, doomed));
    PruneKeeps(s.world.tables, tenant, before, doomed);
    PruneMoves(s.world.tables, tenant, before, doomed);
    assert Grows(s.world, s'.world);
    GrowsKeepsAllTruth(s, s'.world);
    GrowsKeepsCache(s.world, s'.world);
  }

  lemma SoundApply(s: System, l: Label)
    requires Sound(s)
    ensures Sound(Apply(s, l))
  {
    if Enabled(s, l) {
      match l
      case Start(req) => SafeSendsStart(s, req);
      case Advance(i, c) => SoundStep(s, i, c);
      case Crash(i) => SafeSendsMove(s, i, Crashed(s.attempts[i].req));
      case CacheLoss(lost) =>
        GrowsKeepsCache(s.world, s.world.(cache := s.world.cache - lost));
        GrowsKeepsAllTruth(s, s.world.(cache := s.world.cache - lost));
        SafeSendsApply(s, l);
      case Retain(tenant, before, doomed) => SoundRetain(s, tenant, before, doomed);
    }
  }

  lemma {:induction false} SoundAlways(labels: seq<Label>)
    ensures Sound(Run(labels))
  {
    if labels != [] {
      SoundAlways(labels[..|labels| - 1]);
      SoundApply(Run(labels[..|labels| - 1]), labels[|labels| - 1]);
    }
  }

  // ---------------------------------------------------------------------------
  // What callers may rely on
  // ---------------------------------------------------------------------------

  lemma {:induction false} RunGrows(labels: seq<Label>, more: seq<Label>)
    ensures Grows(Run(labels).world, Run(labels + more).world)
  {
    if more == [] {
      assert labels + more == labels;
    } else {
      var shorter := labels + more[..|more| - 1];
      RunGrows(labels, more[..|more| - 1]);
      assert (labels + more)[..|labels + more| - 1] == shorter;
      SoundAlways(shorter);
      ApplyGrows(Run(shorter), more[|more| - 1]);
    }
  }

  lemma ApplyGrows(s: System, l: Label)
    requires Sound(s)
    ensures Grows(s.world, Apply(s, l).world)
  {
    if Enabled(s, l) {
      match l
      case Advance(i, c) =>
        assert Truthful(s.world, s.attempts[i]);
        StepWorld(s.world, s.attempts[i], c);
      case Retain(tenant, before, doomed) =>
        PruneKeeps(s.world.tables, tenant, before, doomed);
      case _ =>
    }
  }

  /** Write-once. In every run and every continuation of it, an outcome once recorded for
      a key is there unchanged, or the key is retired with that outcome's state: no
      continuation records another one or makes the key claimable again. */
  lemma WriteOnce(labels: seq<Label>, more: seq<Label>, id: Ident)
    requires var t := Run(labels).world.tables; id in t.records && t.records[id].state.Resolved?
    ensures var t := Run(labels).world.tables;
      var t' := Run(labels + more).world.tables;
      || (id in t'.records && t'.records[id].state.Resolved? && t'.records[id].outcome == t.records[id].outcome)
      || (id in t'.tombstones && t'.tombstones[id].finalState == t.records[id].outcome.state)
  {
    SoundAlways(labels);
    SoundAlways(labels + more);
    RunGrows(labels, more);
  }

  /** Determinism. In every run, any two error-free answers for one key, however obtained
      and by whichever replica, are the same outcome up to the two flags; while the record
      lives it is the stored one; and at most one attempt answers it as its own. */
  lemma OneAnswer(labels: seq<Label>, i: nat, j: nat)
    requires var a := Run(labels).attempts;
      && i < |a| && a[i].Finished? && a[i].result.Success?
      && j < |a| && a[j].Finished? && a[j].result.Success?
      && a[i].req.Id() == a[j].req.Id()
    ensures var s := Run(labels);
      var (o, p) := (s.attempts[i].result.outcome, s.attempts[j].result.outcome);
      var id := s.attempts[i].req.Id();
      && o.Core() == p.Core()
      && (id in s.world.tables.records ==> s.world.tables.records[id].outcome == o.Core())
      && (i != j ==> o.replayed || p.replayed)
  {
    SoundAlways(labels);
    var s := Run(labels);
    assert Truthful(s.world, s.attempts[i]) && Truthful(s.world, s.attempts[j]);
  }

  /** An error-free answer given after its key was pruned can only be the outcome recorded
      before the prune. */
  lemma AnswersAfterPrune(labels: seq<Label>, more: seq<Label>, id: Ident, j: nat)
    requires var t := Run(labels).world.tables; id in t.records && t.records[id].state.Resolved?
    requires var s := Run(labels + more);
      j < |s.attempts| && s.attempts[j].Finished? && s.attempts[j].result.Success? && s.attempts[j].req.Id() == id
    ensures Run(labels + more).attempts[j].result.outcome.Core() == Run(labels).world.tables.records[id].outcome
  {
    SoundAlways(labels);
    SoundAlways(labels + more);
    RunGrows(labels, more);
    var s := Run(labels + more);
    assert Truthful(s.world, s.attempts[j]);
  }

  // ---------------------------------------------------------------------------
  // A key presented under another envelope
  // ---------------------------------------------------------------------------

  /** A request for a key that was spent under another envelope. */
  ghost predicate Foreign(w: World, req: Request) {
    Spent(w.tables, req.Id()) && EnvelopeOf(w.tables, req.Id()) != req.envelopeID && EnvelopeOf(w.tables, req.Id()) != ""
  }

  /** The store never answers a foreign request, and never lets it reach the venue. */
  lemma ForeignRefusedByStore(w: World, req: Request, c: Choice)
    requires Consistent(w.tables) && Foreign(w, req)
    ensures var (w', a) := Step(w, Claiming(req), c);
      w' == w && a.Finished? && a.result.Failure?
  {
    ClaimInserts(w.tables, NewRecord(req, c.now));
  }

  /** Exactly when a foreign request is answered with the other envelope's outcome: the
      cache holds an entry that names no envelope, which is what a first resolution puts
      there. */
  lemma ForeignAnsweredExactly(s: System, req: Request, c: Choice)
    requires Sound(s) && Foreign(s.world, req)
    requires req.tenantID != "" && req.key != "" && req.clientOrderID != ""
    ensures var a := Enter(s.world, req, c);
      (a.Finished? && a.result.Success?) <==>
        (c.cacheUp && req.Id() in s.world.cache && s.world.cache[req.Id()].envelopeID == "")
  {
    if req.Id() in s.world.cache {
      assert EntryTrue(s.world, req.Id(), s.world.cache[req.Id()]);
    }
  }

  lemma RunOne(labels: seq<Label>, l: Label)
    ensures Run(labels + [l]) == Apply(Run(labels), l)
  {
    assert (labels + [l])[..|labels|] == labels;
  }

  const MINE := Request("tenant", "key", "envelope-1", "coid-key")
  const OTHER := Request("tenant", "key", "envelope-2", "coid-key")
  const ACCEPTED := BrokerOrder("coid-key", "venue-1", ExecutionState.Accepted, 0.0, "")
  const CALM := Choice(0, true, false, true, Order(ACCEPTED))

  /** The six steps of an undisturbed submission. */
  ghost function Undisturbed(): seq<Label> {
    [Start(MINE), Advance(0, CALM), Advance(0, CALM), Advance(0, CALM), Advance(0, CALM), Advance(0, CALM)]
  }

  lemma UndisturbedEnds()
    ensures var s := Run(Undisturbed());
      && s.attempts == [Finished(MINE, Success(OutcomeFrom(ACCEPTED)))]
      && s.world.cache == map[MINE.Id() := ResolvedEntry(MINE, OutcomeFrom(ACCEPTED), 0)]
      && s.world.sends == [MINE]
  {
    var r := NewRecord(MINE, 0);
    var o := OutcomeFrom(ACCEPTED);
    var s1 := Apply(INITIAL, Start(MINE));
    assert s1 == System(EMPTY_WORLD, [Entering(MINE)]);
    var s2 := Apply(s1, Advance(0, CALM));
    assert s2 == System(EMPTY_WORLD, [Claiming(MINE)]);
    var s3 := Apply(s2, Advance(0, CALM));
    assert Claim(EMPTY_TABLES, r).1 == Claimed;
    assert s3.attempts == [Sending(MINE)];
    var s4 := Apply(s3, Advance(0, CALM));
    assert s4.attempts == [Resolving(MINE, o, false)];
    var s5 := Apply(s4, Advance(0, CALM));
    assert s5.attempts == [Caching(MINE, ResolvedEntry(MINE, o, 0), Success(o))];
    var s6 := Apply(s5, Advance(0, CALM));
    assert s6.attempts == [Finished(MINE, Success(o))];
    var l := Undisturbed();
    assert l[..1] == [] + [Start(MINE)] && l[..2] == l[..1] + [Advance(0, CALM)] && l[..3] == l[..2] + [Advance(0, CALM)];
    assert l[..4] == l[..3] + [Advance(0, CALM)] && l[..5] == l[..4] + [Advance(0, CALM)] && l == l[..5] + [Advance(0, CALM)];
    RunOne([], Start(MINE));
    RunOne(l[..1], Advance(0, CALM));
    RunOne(l[..2], Advance(0, CALM));
    RunOne(l[..3], Advance(0, CALM));
    RunOne(l[..4], Advance(0, CALM));
    RunOne(l[..5], Advance(0, CALM));
  }

  /** The gap is reachable: after one undisturbed submission, a second envelope presenting
      the same key is told the first one's order succeeded. */
  lemma ForeignAnswerReachable()
    ensures var s := Run(Undisturbed() + [Start(OTHER), Advance(1, CALM)]);
      && OTHER.envelopeID != MINE.envelopeID
      && |s.attempts| == 2
      && s.attempts[1] == Finished(OTHER, Success(Replay(OutcomeFrom(ACCEPTED))))
      && s.world.sends == [MINE]
  {
    UndisturbedEnds();
    var l := Undisturbed();
    assert l + [Start(OTHER), Advance(1, CALM)] == (l + [Start(OTHER)]) + [Advance(1, CALM)];
    RunOne(l, Start(OTHER));
    RunOne(l + [Start(OTHER)], Advance(1, CALM));
  }
}
