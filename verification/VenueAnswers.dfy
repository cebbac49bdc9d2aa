/** What is recorded is what the venue said (internal/execution/service.go:123-266): the
    history of its answers, and that every recorded outcome and every answer given carries the
    fields of one of them. */
module VenueAnswers {
  import opened Broker
  import opened Idempotency
  import opened Attempts
  import opened ExecutionRuns
  import opened ExecutionOutcomes

  /** One answer of the venue: for which identity it was called, whether to send or to ask,
      and under which client order id. */
  datatype Heard = Heard(id: Ident, sent: bool, clientOrderID: string, answer: Answer)

  ghost function HeardAt(s: System, l: Label): seq<Heard> {
    if !Enabled(s, l) || !l.Advance? then []
    else
      match s.attempts[l.i]
      case Sending(req) => [Heard(req.Id(), true, req.clientOrderID, l.choice.answer)]
      case Reconciling(req, coid) => [Heard(req.Id(), false, coid, l.choice.answer)]
      case _ => []
  }

  /** Everything the venue answered in a run, in order. */
  ghost function History(labels: seq<Label>): seq<Heard>
    decreases |labels|
  {
    if labels == [] then []
    else History(labels[..|labels| - 1]) + HeardAt(Run(labels[..|labels| - 1]), labels[|labels| - 1])
  }

  /** A state the platform has a name for. */
  predicate Named(state: ExecutionState) {
    || state == ExecutionState.Unknown || state == ExecutionState.Accepted || state == ExecutionState.Rejected
    || state == ExecutionState.PartiallyFilled || state == ExecutionState.Filled
    || state == ExecutionState.Cancelled || state == ExecutionState.Expired
  }

  /** The venue reported an order under the client order id it was called with, fit to be
      recorded, and the outcome is that order, field by field. */
  predicate Reports(h: Heard, o: Outcome) {
    && h.answer.Order?
    && h.answer.order.clientOrderID == h.clientOrderID
    && Named(h.answer.order.state)
    && h.answer.order.filledQuantity >= 0.0
    && o.state == h.answer.order.state
    && o.clientOrderID == h.answer.order.clientOrderID
    && o.brokerOrderID == h.answer.order.brokerOrderID
    && o.filledQuantity == h.answer.order.filledQuantity
    && o.rejectReason == h.answer.order.rejectReason
  }

  /** The venue refused the order it was sent with a definite error, and the outcome says so
      in the venue's words. */
  predicate Refuses(h: Heard, o: Outcome) {
    && h.sent && (h.answer.Failed? || h.answer.NotFound?)
    && o.state == ExecutionState.Rejected
    && o.clientOrderID == h.clientOrderID
    && o.brokerOrderID == ""
    && o.filledQuantity == 0.0
    && o.rejectReason == (if h.answer.Failed? then h.answer.reason else "not found")
  }

  predicate Backs(h: Heard, id: Ident, o: Outcome) {
    h.id == id && (Reports(h, o) || Refuses(h, o))
  }

  /** Some answer for the identity backs the outcome. */
  ghost predicate Backed(heard: seq<Heard>, id: Ident, o: Outcome) {
    exists k :: 0 <= k < |heard| && Backs(heard[k], id, o)
  }

  /** And was given to a call of the one kind or the other. */
  ghost predicate BackedBy(heard: seq<Heard>, id: Ident, o: Outcome, sent: bool) {
    exists k :: 0 <= k < |heard| && Backs(heard[k], id, o) && heard[k].sent == sent
  }

  /** What an attempt has in hand is backed, and its flag says how it was learned. */
  ghost predicate Informed(a: Attempt, heard: seq<Heard>) {
    match a
    case Resolving(req, o, asked) => BackedBy(heard, req.Id(), o, !asked)
    case Caching(req, _, Success(o)) => !o.replayed ==> BackedBy(heard, req.Id(), o, !o.reconciled)
    case Finished(req, Success(o)) => !o.replayed ==> BackedBy(heard, req.Id(), o, !o.reconciled)
    case _ => true
  }

  ghost predicate AllInformed(s: System, heard: seq<Heard>) {
    forall i :: 0 <= i < |s.attempts| ==> Informed(s.attempts[i], heard)
  }

  ghost predicate DecidedBacked(w: World, heard: seq<Heard>) {
    forall id :: id in w.decided ==>
      && Spent(w.tables, id) && w.decided[id].clientOrderID == ClientOrderOf(w.tables, id)
      && Backed(heard, id, w.decided[id])
  }

  lemma BackedMore(heard: seq<Heard>, more: seq<Heard>, id: Ident, o: Outcome)
    ensures Backed(heard, id, o) ==> Backed(heard + more, id, o)
    ensures forall sent :: BackedBy(heard, id, o, sent) ==> BackedBy(heard + more, id, o, sent)
  {
    forall k | 0 <= k < |heard| ensures (heard + more)[k] == heard[k] {
    }
    if Backed(heard, id, o) {
      var k :| 0 <= k < |heard| && Backs(heard[k], id, o);
      assert Backs((heard + more)[k], id, o);
    }
    forall sent | BackedBy(heard, id, o, sent) ensures BackedBy(heard + more, id, o, sent) {
      var k :| 0 <= k < |heard| && Backs(heard[k], id, o) && heard[k].sent == sent;
      assert Backs((heard + more)[k], id, o);
    }
  }

  lemma InformedMore(a: Attempt, heard: seq<Heard>, more: seq<Heard>)
    requires Informed(a, heard)
    ensures Informed(a, heard + more)
  {
    match a
    case Resolving(req, o, _) => BackedMore(heard, more, req.Id(), o);
    case Caching(req, _, Success(o)) => BackedMore(heard, more, req.Id(), o);
    case Finished(req, Success(o)) => BackedMore(heard, more, req.Id(), o);
    case _ =>
  }

  /** Flags apart, an answer backs the stored outcome as it backs the answered one. */
  lemma BacksCore(heard: seq<Heard>, id: Ident, o: Outcome, sent: bool)
    requires BackedBy(heard, id, o, sent)
    ensures Backed(heard, id, o.Core())
    ensures BackedBy(heard, id, o.(reconciled := !sent), sent)
  {
    var k :| 0 <= k < |heard| && Backs(heard[k], id, o) && heard[k].sent == sent;
    assert Backs(heard[k], id, o.Core());
    assert Backs(heard[k], id, o.(reconciled := !sent));
  }

  /** The last answer heard. */
  lemma LastHeard(heard: seq<Heard>, h: Heard, id: Ident, o: Outcome)
    requires Backs(h, id, o)
    ensures BackedBy(heard + [h], id, o, h.sent)
  {
    assert (heard + [h])[|heard|] == h;
  }

  lemma SendInforms(req: Request, answer: Answer, heard: seq<Heard>)
    ensures Informed(AfterSend(req, answer), heard + [Heard(req.Id(), true, req.clientOrderID, answer)])
  {
    var h, a := Heard(req.Id(), true, req.clientOrderID, answer), AfterSend(req, answer);
    if a.Resolving? {
      LastHeard(heard, h, req.Id(), a.outcome);
    }
  }

  lemma AskInforms(req: Request, coid: string, answer: Answer, heard: seq<Heard>)
    ensures Informed(AfterReconcile(req, coid, answer), heard + [Heard(req.Id(), false, coid, answer)])
  {
    var h, a := Heard(req.Id(), false, coid, answer), AfterReconcile(req, coid, answer);
    if a.Resolving? {
      LastHeard(heard, h, req.Id(), a.outcome);
    }
  }

  lemma ResolveInforms(w: World, a: Attempt, c: Choice, heard: seq<Heard>)
    requires a.Resolving? && Informed(a, heard) && Truthful(w, a)
    ensures Informed(Step(w, a, c).1, heard)
  {
    BacksCore(heard, a.req.Id(), a.outcome, !a.asked);
  }

  lemma EnterInforms(w: World, req: Request, c: Choice, heard: seq<Heard>)
    ensures Informed(Enter(w, req, c), heard)
  {
  }

  lemma ClaimInforms(w: World, req: Request, c: Choice, heard: seq<Heard>)
    ensures Informed(Step(w, Claiming(req), c).1, heard)
  {
  }

  /** One step of an attempt, and what the venue said in it. */
  lemma StepInforms(s: System, i: nat, c: Choice, heard: seq<Heard>)
    requires i < |s.attempts| && Informed(s.attempts[i], heard) && Truthful(s.world, s.attempts[i])
    ensures Informed(Step(s.world, s.attempts[i], c).1, heard + HeardAt(s, Advance(i, c)))
  {
    var a := s.attempts[i];
    match a
    case Entering(req) => EnterInforms(s.world, req, c, heard + []);
    case Claiming(req) => ClaimInforms(s.world, req, c, heard + []);
    case Sending(req) => SendInforms(req, c.answer, heard);
    case Reconciling(req, coid) => AskInforms(req, coid, c.answer, heard);
    case Resolving(req, _, _) =>
      ResolveInforms(s.world, a, c, heard);
      assert heard + [] == heard;
    case _ => assert heard + [] == heard;
  }

  lemma DecidedMore(w: World, w': World, heard: seq<Heard>, more: seq<Heard>)
    requires DecidedBacked(w, heard) && Remembers(w.tables, w'.tables) && w'.decided == w.decided
    ensures DecidedBacked(w', heard + more)
  {
    forall id | id in w'.decided ensures Backed(heard + more, id, w'.decided[id]) {
      BackedMore(heard, more, id, w.decided[id]);
    }
  }

  /** Resolving records what the attempt has in hand. */
  lemma ResolveBacks(w: World, a: Attempt, c: Choice, heard: seq<Heard>)
    requires a.Resolving? && Informed(a, heard) && Truthful(w, a) && Consistent(w.tables) && Recorded(w) && DecidedBacked(w, heard)
    ensures DecidedBacked(Step(w, a, c).0, heard)
  {
    var id, o := a.req.Id(), a.outcome;
    var (t, ok) := Resolve(w.tables, id, o, c.now);
    ResolveKeeps(w.tables, id, o, c.now);
    ResolveRecords(w, id, o, c.now);
    if c.storeUp && ok {
      BacksCore(heard, id, o, !a.asked);
      assert RecordDecision(w.decided, t, id)[id] == o.Core();
    }
  }

  lemma StepBacks(s: System, i: nat, c: Choice, heard: seq<Heard>)
    requires Sound(s) && i < |s.attempts| && Informed(s.attempts[i], heard) && DecidedBacked(s.world, heard)
    ensures DecidedBacked(Step(s.world, s.attempts[i], c).0, heard + HeardAt(s, Advance(i, c)))
  {
    var a, w' := s.attempts[i], Step(s.world, s.attempts[i], c).0;
    assert Truthful(s.world, a);
    if a.Resolving? {
      ResolveBacks(s.world, a, c, heard);
      assert heard + [] == heard;
    } else {
      StepWorld(s.world, a, c);
      DecidedMore(s.world, w', heard, HeardAt(s, Advance(i, c)));
    }
  }

  ghost predicate Faithful(s: System, heard: seq<Heard>) {
    AllInformed(s, heard) && DecidedBacked(s.world, heard)
  }

  lemma FaithfulStep(s: System, i: nat, c: Choice, heard: seq<Heard>)
    requires Sound(s) && Faithful(s, heard) && i < |s.attempts|
    ensures Faithful(Apply(s, Advance(i, c)), heard + HeardAt(s, Advance(i, c)))
  {
    var s', more := Apply(s, Advance(i, c)), HeardAt(s, Advance(i, c));
    assert Truthful(s.world, s.attempts[i]);
    StepInforms(s, i, c, heard);
    StepBacks(s, i, c, heard);
    forall j | 0 <= j < |s'.attempts| ensures Informed(s'.attempts[j], heard + more) {
      if j != i { InformedMore(s.attempts[j], heard, more); }
    }
  }

  lemma FaithfulApply(s: System, l: Label, heard: seq<Heard>)
    requires Sound(s) && Faithful(s, heard)
    ensures Faithful(Apply(s, l), heard + HeardAt(s, l))
  {
    if Enabled(s, l) && l.Advance? {
      FaithfulStep(s, l.i, l.choice, heard);
    } else {
      assert heard + HeardAt(s, l) == heard;
      if Enabled(s, l) && l.Retain? { PruneKeeps(s.world.tables, l.tenant, l.before, l.doomed); }
    }
  }

  lemma {:induction false} FaithfulAlways(labels: seq<Label>)
    ensures Faithful(Run(labels), History(labels))
    decreases |labels|
  {
    if labels != [] {
      var before := labels[..|labels| - 1];
      FaithfulAlways(before);
      SoundAlways(before);
      FaithfulApply(Run(before), labels[|labels| - 1], History(before));
    }
  }

  /** In every run: the outcome recorded for a key is one the venue gave for it, under the
      client order id the key was claimed with. Either it is an order the venue reported, with
      that order's state, identifier, filled quantity and reason, or it is the definite refusal
      of a send, in the venue's words. */
  lemma RecordedIsWhatTheVenueSaid(labels: seq<Label>, id: Ident)
    requires id in Run(labels).world.decided
    ensures var w := Run(labels).world;
      && Spent(w.tables, id) && w.decided[id].clientOrderID == ClientOrderOf(w.tables, id)
      && Backed(History(labels), id, w.decided[id])
  {
    FaithfulAlways(labels);
  }

  /** And so is every error-free answer; one given as the attempt's own is marked reconciled
      exactly when it was learned by asking. */
  lemma AnsweredIsWhatTheVenueSaid(labels: seq<Label>, i: nat)
    requires var a := Run(labels).attempts; i < |a| && a[i].Finished? && a[i].result.Success?
    ensures var a := Run(labels).attempts[i];
      && Backed(History(labels), a.req.Id(), a.result.outcome)
      && (!a.result.outcome.replayed ==> BackedBy(History(labels), a.req.Id(), a.result.outcome, !a.result.outcome.reconciled))
  {
    FaithfulAlways(labels);
    SoundAlways(labels);
    var s := Run(labels);
    var a := s.attempts[i];
    assert Truthful(s.world, a) && Informed(a, History(labels));
    var o := a.result.outcome;
    var k :| 0 <= k < |History(labels)| && Backs(History(labels)[k], a.req.Id(), o.Core());
    assert Backs(History(labels)[k], a.req.Id(), o);
  }

  // ---------------------------------------------------------------------------
  // One answer to one send
  // ---------------------------------------------------------------------------

  /** The identities sent for, by the answers. */
  ghost function SentFor(heard: seq<Heard>): seq<Ident>
    decreases |heard|
  {
    if heard == [] then []
    else
      var h := heard[|heard| - 1];
      SentFor(heard[..|heard| - 1]) + if h.sent then [h.id] else []
  }

  ghost function IdsOf(sends: seq<Request>): seq<Ident> {
    seq(|sends|, k requires 0 <= k < |sends| => sends[k].Id())
  }

  lemma SentForMore(heard: seq<Heard>, h: Heard)
    ensures SentFor(heard + [h]) == SentFor(heard) + if h.sent then [h.id] else []
  {
    assert (heard + [h])[..|heard|] == heard;
  }

  /** A step is heard as a send exactly when it sends. */
  lemma HeardIsSend(s: System, l: Label)
    ensures var heard := HeardAt(s, l); var sends, sends' := s.world.sends, Apply(s, l).world.sends;
      && |heard| <= 1
      && (heard == [] || !heard[0].sent ==> sends' == sends)
      && (heard != [] && heard[0].sent ==> l.Advance? && l.i < |s.attempts| && sends' == sends + [s.attempts[l.i].req] && heard[0].id == s.attempts[l.i].req.Id())
  {
  }

  lemma IdsOfMore(sends: seq<Request>, req: Request)
    ensures IdsOf(sends + [req]) == IdsOf(sends) + [req.Id()]
  {
  }

  lemma SendIsHeard(s: System, l: Label, heard: seq<Heard>)
    requires SentFor(heard) == IdsOf(s.world.sends)
    ensures SentFor(heard + HeardAt(s, l)) == IdsOf(Apply(s, l).world.sends)
  {
    HeardIsSend(s, l);
    var more := HeardAt(s, l);
    if more == [] {
      assert heard + more == heard;
    } else {
      SentForMore(heard, more[0]);
      assert more == [more[0]];
      if more[0].sent { IdsOfMore(s.world.sends, s.attempts[l.i].req); }
    }
  }

  /** Every call that sent is in the history once, in order; so by at-most-once there is at
      most one answer to a send for each identity. */
  lemma {:induction false} SendsAreHeard(labels: seq<Label>)
    ensures SentFor(History(labels)) == IdsOf(Run(labels).world.sends)
    ensures forall j, k :: 0 <= j < k < |SentFor(History(labels))| ==> SentFor(History(labels))[j] != SentFor(History(labels))[k]
    decreases |labels|
  {
    if labels != [] {
      var before := labels[..|labels| - 1];
      SendsAreHeard(before);
      SendIsHeard(Run(before), labels[|labels| - 1], History(before));
    }
    SafeSendsAlways(labels);
  }
}
