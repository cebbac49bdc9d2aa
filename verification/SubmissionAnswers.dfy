/** One submission with nothing in between, against the in-memory venue: the answer it comes to,
    and what that says of the order the venue holds (internal/execution/service.go:57-232). */
module SubmissionAnswers {
  import opened Wrappers
  import opened Broker
  import opened FakeBroker
  import opened Idempotency
  import opened Attempts
  import opened VenueAnswers

  /** What a replica's surroundings are for the length of one call. */
  datatype Surroundings = Surroundings(storeUp: bool, cacheUp: bool, now: int)

  function Left(a: Attempt): nat {
    match a
    case Entering(_) => 6
    case Claiming(_) => 5
    case Sending(_) => 4
    case Reconciling(_, _) => 3
    case Resolving(_, _, _) => 2
    case Caching(_, _, _) => 1
    case _ => 0
  }

  /** The venue's part of a step. */
  function VenueStep(b: Book, a: Attempt): (Book, Answer) {
    match a
    case Sending(req) => SubmitStep(b, OrderRequest(req.clientOrderID, None))
    case Reconciling(_, coid) => (b, LookUp(b, coid))
    case _ => (b, NotFound)
  }

  function ChoiceOf(e: Surroundings, answer: Answer): Choice {
    Choice(e.now, e.storeUp, false, e.cacheUp, answer)
  }

  /** Choices that are the surroundings' own: nothing failed that did not fail. */
  predicate Honest(cs: seq<Choice>, e: Surroundings) {
    forall k :: 0 <= k < |cs| ==> cs[k] == ChoiceOf(e, cs[k].answer)
  }

  /** Stepping an attempt to its end. */
  function Played(w: World, b: Book, a: Attempt, e: Surroundings): (World, Book, Result)
    decreases Left(a)
  {
    match a
    case Finished(_, result) => (w, b, result)
    case Crashed(_) => (w, b, Failure(StoreUnavailable, NO_OUTCOME))
    case _ =>
      var (b', answer) := VenueStep(b, a);
      var (w', a') := Step(w, a, ChoiceOf(e, answer));
      Played(w', b', a', e)
  }

  // ---------------------------------------------------------------------------
  // Success
  // ---------------------------------------------------------------------------

  /** The outcome is the order the venue holds under its client order id, field by field. A
      venue told to lag reports, to whoever asks, the order as it was first accepted. */
  predicate AsTheVenueHolds(b: Book, o: Outcome) {
    || (o.clientOrderID == "" && o.state == ExecutionState.Rejected && o.rejectReason == "client order id is required")
    || (&& o.clientOrderID in b.orders
        && o.brokerOrderID == b.orders[o.clientOrderID].brokerOrderID
        && o.rejectReason == b.orders[o.clientOrderID].rejectReason
        && (|| (o.state == b.orders[o.clientOrderID].state && o.filledQuantity == b.orders[o.clientOrderID].filledQuantity)
            || (o.reconciled && o.state == ExecutionState.Accepted && o.filledQuantity == 0.0
                && o.clientOrderID in b.faults && b.faults[o.clientOrderID] == StaleStatus)))
  }

  /** What an attempt has learned of its own order is what the venue holds. */
  predicate Carries(b: Book, a: Attempt) {
    match a
    case Resolving(_, o, asked) => AsTheVenueHolds(b, o.(reconciled := asked)) && !o.replayed
    case Caching(_, _, Success(o)) => !o.replayed ==> AsTheVenueHolds(b, o)
    case Finished(_, Success(o)) => !o.replayed ==> AsTheVenueHolds(b, o)
    case _ => true
  }

  lemma SendCarries(b: Book, req: Request)
    ensures var (b', answer) := SubmitStep(b, OrderRequest(req.clientOrderID, None)); Carries(b', AfterSend(req, answer))
  {
  }

  lemma AskCarries(b: Book, req: Request, coid: string)
    ensures Carries(b, AfterReconcile(req, coid, LookUp(b, coid)))
  {
  }

  lemma StepCarries(w: World, b: Book, a: Attempt, e: Surroundings)
    requires Carries(b, a)
    ensures var (b', answer) := VenueStep(b, a); Carries(b', Step(w, a, ChoiceOf(e, answer)).1)
  {
    match a
    case Sending(req) => SendCarries(b, req);
    case Reconciling(req, coid) => AskCarries(b, req, coid);
    case _ =>
  }

  /** An error-free answer that is not a replay is the order the venue holds. */
  lemma {:induction false} PlayedHolds(w: World, b: Book, a: Attempt, e: Surroundings)
    requires Carries(b, a)
    ensures var (_, b', result) := Played(w, b, a, e);
      result.Success? && !result.outcome.replayed ==> AsTheVenueHolds(b', result.outcome)
    decreases Left(a)
  {
    if !a.Finished? && !a.Crashed? {
      var (b', answer) := VenueStep(b, a);
      var (w', a') := Step(w, a, ChoiceOf(e, answer));
      StepCarries(w, b, a, e);
      PlayedHolds(w', b', a', e);
    }
  }

  // ---------------------------------------------------------------------------
  // Exactly when
  // ---------------------------------------------------------------------------

  /** Every order the venue holds can be recorded. */
  ghost predicate Recordable(b: Book) {
    forall c :: c in b.orders ==>
      b.orders[c].clientOrderID == c && Named(b.orders[c].state) && b.orders[c].filledQuantity >= 0.0
  }

  lemma SubmitKeepsRecordable(b: Book, coid: string)
    requires Recordable(b)
    ensures Recordable(SubmitStep(b, OrderRequest(coid, None)).0)
  {
  }

  /** The cache answers nothing for the request. */
  predicate Uncached(w: World, req: Request, e: Surroundings) {
    e.cacheUp && req.Id() in w.cache ==> w.cache[req.Id()].state == Pending
  }

  predicate Proper(req: Request) {
    req.tenantID != "" && req.key != "" && req.clientOrderID != ""
  }

  /** A send is answered with the order held, or leads to asking; then nothing hides an order
      that was there before, and nothing lags. */
  lemma SendFacts(b: Book, req: Request)
    requires Recordable(b) && req.clientOrderID != ""
    ensures var (b', answer) := SubmitStep(b, OrderRequest(req.clientOrderID, None));
      var a, coid := AfterSend(req, answer), req.clientOrderID;
      && b'.faults == b.faults
      && (a.Resolving? || a == Reconciling(req, coid))
      && (a.Resolving? ==>
            && coid in b'.orders && a == Resolving(req, OutcomeFrom(b'.orders[coid]), false) && b'.orders[coid].clientOrderID == coid
            && (coid in b.orders || coid !in b.faults || b.faults[coid] != Unreconcilable))
      && (a.Reconciling? && coid in b'.faults ==> b.faults[coid] != StaleStatus && (coid in b.orders ==> b.faults[coid] != Unreconcilable))
  {
    SubmitKeepsRecordable(b, req.clientOrderID);
  }

  /** From the claim in hand to the end. */
  lemma SentAnswers(w: World, b: Book, req: Request, e: Surroundings)
    requires Recordable(b) && req.clientOrderID != "" && e.storeUp
    requires Resolvable(w.tables, req.Id()) && w.tables.records[req.Id()].clientOrderID == req.clientOrderID
    ensures var (w', b', result) := Played(w, b, Sending(req), e);
      var coid := req.clientOrderID;
      && w'.sends == w.sends + [req]
      && (result.Success? <==> coid in b'.orders && (coid in b.orders || coid !in b.faults || b.faults[coid] != Unreconcilable))
      && (result.Success? ==> Confirmed(w', b', req, result.outcome))
      && (result.Failure? ==> result.error == Unresolved && w'.tables == w.tables)
  {
    var (b', answer) := SubmitStep(b, OrderRequest(req.clientOrderID, None));
    SubmitKeepsRecordable(b, req.clientOrderID);
    SendFacts(b, req);
    var w1, a1 := w.(sends := w.sends + [req]), AfterSend(req, answer);
    assert Step(w, Sending(req), ChoiceOf(e, answer)) == (w1, a1);
    if a1.Resolving? {
      ResolvedAnswers(w1, b', a1, e);
    } else {
      AskedAnswers(w1, b', req, req.clientOrderID, e);
    }
  }

  /** The answer is the recorded outcome and the order the venue holds now. */
  ghost predicate Confirmed(w: World, b: Book, req: Request, o: Outcome) {
    && !o.replayed
    && req.Id() in w.decided && w.decided[req.Id()] == o.Core()
    && o.clientOrderID in b.orders
    && o.state == b.orders[o.clientOrderID].state
    && o.filledQuantity == b.orders[o.clientOrderID].filledQuantity
    && o.brokerOrderID == b.orders[o.clientOrderID].brokerOrderID
    && o.rejectReason == b.orders[o.clientOrderID].rejectReason
  }

  lemma ResolvedAnswers(w: World, b: Book, a: Attempt, e: Surroundings)
    requires a.Resolving? && e.storeUp && a.outcome == a.outcome.Core()
    requires Resolvable(w.tables, a.req.Id()) && w.tables.records[a.req.Id()].clientOrderID == a.outcome.clientOrderID
    ensures var (w', b', result) := Played(w, b, a, e);
      && b' == b && w'.sends == w.sends
      && result == Success(a.outcome.(reconciled := a.asked))
      && a.req.Id() in w'.decided && w'.decided[a.req.Id()] == a.outcome
  {
    var (t, ok) := Resolve(w.tables, a.req.Id(), a.outcome, e.now);
    var w1 := w.(tables := t, decided := RecordDecision(w.decided, t, a.req.Id()));
    var result := Success(a.outcome.(reconciled := a.asked));
    var entry := ResolvedEntry(a.req, a.outcome, e.now);
    assert Step(w, a, ChoiceOf(e, NotFound)) == (w1, Caching(a.req, entry, result));
    CachedAnswers(w1, b, a.req, entry, result, e);
  }

  lemma CachedAnswers(w: World, b: Book, req: Request, entry: Record, result: Result, e: Surroundings)
    ensures var (w', b', r) := Played(w, b, Caching(req, entry, result), e);
      b' == b && w'.sends == w.sends && w'.decided == w.decided && w'.tables == w.tables && r == result
  {
    var (w', a') := Step(w, Caching(req, entry, result), ChoiceOf(e, NotFound));
    assert Played(w', b, a', e) == (w', b, result);
  }

  /** Asking sends nothing, and succeeds exactly when the venue holds the order and says so. */
  lemma AskedAnswers(w: World, b: Book, req: Request, coid: string, e: Surroundings)
    requires Recordable(b) && e.storeUp
    requires Resolvable(w.tables, req.Id()) && w.tables.records[req.Id()].clientOrderID == coid
    ensures var (w', b', result) := Played(w, b, Reconciling(req, coid), e);
      && b' == b && w'.sends == w.sends
      && (result.Success? <==> coid in b.orders && (coid !in b.faults || b.faults[coid] != Unreconcilable))
      && (result.Success? ==>
            && result.outcome.reconciled && !result.outcome.replayed && result.outcome.clientOrderID == coid
            && AsTheVenueHolds(b, result.outcome)
            && req.Id() in w'.decided && w'.decided[req.Id()] == result.outcome.Core())
      && (result.Failure? ==> result.error == Unresolved && w'.tables == w.tables)
  {
    var a1 := AfterReconcile(req, coid, LookUp(b, coid));
    assert Step(w, Reconciling(req, coid), ChoiceOf(e, LookUp(b, coid))) == (w, a1);
    AskCarries(b, req, coid);
    if a1.Resolving? {
      ResolvedAnswers(w, b, a1, e);
    }
  }

  /** A key and envelope never seen, with the database up: one order is sent, and the call
      succeeds exactly when the venue then holds the order and its answers can get through.
      The answer is that order and is what is recorded; otherwise the record stays pending. */
  lemma FreshSubmissionExactly(w: World, b: Book, req: Request, e: Surroundings)
    requires Recordable(b) && Proper(req) && e.storeUp && Uncached(w, req, e)
    requires Claim(w.tables, NewRecord(req, e.now)).1 == Claimed
    ensures var (w', b', result) := Played(w, b, Entering(req), e);
      var coid := req.clientOrderID;
      && w'.sends == w.sends + [req]
      && (result.Success? <==> coid in b'.orders && (coid in b.orders || coid !in b.faults || b.faults[coid] != Unreconcilable))
      && (result.Success? ==> Confirmed(w', b', req, result.outcome))
      && (result.Failure? ==> result.error == Unresolved && Resolvable(w'.tables, req.Id()))
  {
    var t := Claim(w.tables, NewRecord(req, e.now)).0;
    assert Step(w, Entering(req), ChoiceOf(e, NotFound)) == (w, Claiming(req));
    assert Step(w, Claiming(req), ChoiceOf(e, NotFound)) == (w.(tables := t), Sending(req));
    SentAnswers(w.(tables := t), b, req, e);
  }

  /** A retry of a key still pending under its own envelope sends nothing; it asks. */
  lemma PendingRetryExactly(w: World, b: Book, req: Request, e: Surroundings)
    requires Recordable(b) && Proper(req) && e.storeUp && Uncached(w, req, e)
    requires Resolvable(w.tables, req.Id()) && req.Id() !in w.tables.tombstones
    requires w.tables.records[req.Id()].envelopeID == "" || w.tables.records[req.Id()].envelopeID == req.envelopeID
    ensures var (w', b', result) := Played(w, b, Entering(req), e);
      var coid := w.tables.records[req.Id()].clientOrderID;
      && b' == b && w'.sends == w.sends
      && (result.Success? <==> coid in b.orders && (coid !in b.faults || b.faults[coid] != Unreconcilable))
      && (result.Success? ==> result.outcome.reconciled && AsTheVenueHolds(b, result.outcome))
      && (result.Failure? ==> result.error == Unresolved && w'.tables == w.tables)
  {
    var coid := w.tables.records[req.Id()].clientOrderID;
    assert Step(w, Entering(req), ChoiceOf(e, NotFound)) == (w, Claiming(req));
    assert Step(w, Claiming(req), ChoiceOf(e, NotFound)) == (w, Reconciling(req, coid));
    AskedAnswers(w, b, req, coid, e);
  }
}
