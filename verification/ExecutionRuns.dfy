/** Any number of replicas running any number of attempts, interleaved with crashes,
    cache loss and retention: the runs over which at-most-once execution is proved. */
module ExecutionRuns {
  import opened Broker
  import opened Idempotency
  import opened Attempts

  datatype System = System(world: World, attempts: seq<Attempt>)

  const INITIAL := System(EMPTY_WORLD, [])

  /** What the environment may do next. `Start` is a request reaching some replica,
      `Advance` one step of one attempt, `Crash` the death of the process running it,
      `CacheLoss` the loss of any cache entries, `Retain` one pruning transaction. */
  datatype Label =
    | Start(req: Request)
    | Advance(i: nat, choice: Choice)
    | Crash(i: nat)
    | CacheLoss(lost: set<Ident>)
    | Retain(tenant: string, before: int, doomed: set<Ident>)

  ghost predicate Enabled(s: System, l: Label) {
    match l
    case Start(_) => true
    case Advance(i, _) => i < |s.attempts|
    case Crash(i) => i < |s.attempts| && !s.attempts[i].Finished?
    case CacheLoss(_) => true
    case Retain(tenant, before, doomed) => PruneBatch(s.world.tables, tenant, before, doomed)
  }

  ghost function Apply(s: System, l: Label): System {
    if !Enabled(s, l) then s else
    match l
    case Start(req) => s.(attempts := s.attempts + [Entering(req)])
    case Advance(i, c) =>
      var (w, a) := Step(s.world, s.attempts[i], c);
      System(w, s.attempts[i := a])
    case Crash(i) => s.(attempts := s.attempts[i := Crashed(s.attempts[i].req)])
    case CacheLoss(lost) => s.(world := s.world.(cache := s.world.cache - lost))
    case Retain(_, _, doomed) => s.(world := s.world.(tables := Prune(s.world.tables, doomed)))
  }

  ghost function Run(labels: seq<Label>): System {
    if labels == [] then INITIAL else Apply(Run(labels[..|labels| - 1]), labels[|labels| - 1])
  }

  // ---------------------------------------------------------------------------
  // At most once
  // ---------------------------------------------------------------------------

  /** Whether an attempt has the identity's claim in hand and has not called the venue. */
  predicate Holds(a: Attempt, id: Ident) {
    a.Sending? && a.req.Id() == id
  }

  ghost predicate Sent(w: World, id: Ident) {
    exists k :: 0 <= k < |w.sends| && w.sends[k].Id() == id
  }

  /** The request was let through under the identity's own envelope and client order id. */
  predicate FiledUnder(t: Tables, req: Request) {
    && Spent(t, req.Id())
    && EnvelopeOf(t, req.Id()) == req.envelopeID
    && ClientOrderOf(t, req.Id()) == req.clientOrderID
  }

  ghost predicate SendsFiled(w: World) {
    forall k :: 0 <= k < |w.sends| ==> FiledUnder(w.tables, w.sends[k])
  }

  ghost predicate SendsDistinct(w: World) {
    forall j, k :: 0 <= j < k < |w.sends| ==> w.sends[j].Id() != w.sends[k].Id()
  }

  ghost predicate HoldersFiled(s: System) {
    forall i :: 0 <= i < |s.attempts| && s.attempts[i].Sending? ==>
      FiledUnder(s.world.tables, s.attempts[i].req) && !Sent(s.world, s.attempts[i].req.Id())
  }

  ghost predicate HoldersDistinct(s: System) {
    forall i, j :: 0 <= i < j < |s.attempts| && s.attempts[i].Sending? && s.attempts[j].Sending? ==>
      s.attempts[i].req.Id() != s.attempts[j].req.Id()
  }

  ghost predicate SafeSends(s: System) {
    && Consistent(s.world.tables)
    && SendsFiled(s.world)
    && SendsDistinct(s.world)
    && HoldersFiled(s)
    && HoldersDistinct(s)
  }

  lemma SafeSendsRemembers(s: System, t: Tables)
    requires SafeSends(s) && Consistent(t) && Remembers(s.world.tables, t)
    ensures SafeSends(s.(world := s.world.(tables := t)))
  {
    var s' := s.(world := s.world.(tables := t));
    forall k | 0 <= k < |s.world.sends| ensures FiledUnder(t, s'.world.sends[k]) {
      assert FiledUnder(s.world.tables, s.world.sends[k]);
    }
    forall i | 0 <= i < |s.attempts| && s.attempts[i].Sending?
      ensures FiledUnder(t, s.attempts[i].req) && !Sent(s'.world, s.attempts[i].req.Id())
    {
      assert FiledUnder(s.world.tables, s.attempts[i].req);
      assert !Sent(s.world, s.attempts[i].req.Id());
    }
  }

  /** Replacing one attempt by one that does not hold a claim keeps the invariant. */
  lemma SafeSendsMove(s: System, i: nat, a: Attempt)
    requires SafeSends(s) && i < |s.attempts| && !a.Sending?
    ensures SafeSends(s.(attempts := s.attempts[i := a]))
  {
  }

  lemma SafeSendsStep(s: System, i: nat, c: Choice)
    requires SafeSends(s) && i < |s.attempts|
    ensures SafeSends(Apply(s, Advance(i, c)))
  {
    var a := s.attempts[i];
    var (w', a') := Step(s.world, a, c);
    if a.Sending? {
      SendKeeps(s, i, c);
    } else if a.Claiming? && c.storeUp {
      ClaimKeepsSafe(s, i, c);
    } else if a.Resolving? && c.storeUp {
      ResolveKeeps(s.world.tables, a.req.Id(), a.outcome, c.now);
      SafeSendsRemembers(s, w'.tables);
      var s1 := s.(world := w');
      assert SafeSends(s1);
      SafeSendsMove(s1, i, a');
    } else {
      var s1 := s.(world := w');
      assert SafeSends(s1);
      SafeSendsMove(s1, i, a');
    }
  }

  lemma SendKeeps(s: System, i: nat, c: Choice)
    requires SafeSends(s) && i < |s.attempts| && s.attempts[i].Sending?
    ensures SafeSends(Apply(s, Advance(i, c)))
  {
    var s' := Apply(s, Advance(i, c));
    var req := s.attempts[i].req;
    assert s'.world.sends == s.world.sends + [req];
    assert !Sent(s.world, req.Id());
    forall j | 0 <= j < |s'.attempts| && s'.attempts[j].Sending?
      ensures FiledUnder(s'.world.tables, s'.attempts[j].req) && !Sent(s'.world, s'.attempts[j].req.Id())
    {
      assert j != i && s.attempts[j] == s'.attempts[j];
      assert !Sent(s.world, s.attempts[j].req.Id());
    }
  }

  lemma ClaimKeepsSafe(s: System, i: nat, c: Choice)
    requires SafeSends(s) && i < |s.attempts| && s.attempts[i].Claiming? && c.storeUp
    ensures SafeSends(Apply(s, Advance(i, c)))
  {
    var req := s.attempts[i].req;
    var r := NewRecord(req, c.now);
    var (t', result) := Claim(s.world.tables, r);
    ClaimKeeps(s.world.tables, r);
    ClaimInserts(s.world.tables, r);
    SafeSendsRemembers(s, t');
    var s1 := s.(world := s.world.(tables := t'));
    var s' := Apply(s, Advance(i, c));
    assert s' == s1.(attempts := s1.attempts[i := s'.attempts[i]]);
    if s'.attempts[i].Sending? {
      assert result.Claimed? && r.Id() == req.Id();
      assert FiledUnder(t', req);
      forall k | 0 <= k < |s.world.sends| ensures s.world.sends[k].Id() != req.Id() {
        assert FiledUnder(s.world.tables, s.world.sends[k]);
      }
      assert !Sent(s'.world, req.Id());
      forall j | 0 <= j < |s.attempts| && s.attempts[j].Sending? ensures s.attempts[j].req.Id() != req.Id() {
        assert FiledUnder(s.world.tables, s.attempts[j].req);
      }
    } else {
      SafeSendsMove(s1, i, s'.attempts[i]);
    }
  }

  lemma SafeSendsApply(s: System, l: Label)
    requires SafeSends(s)
    ensures SafeSends(Apply(s, l))
  {
    if Enabled(s, l) {
      match l
      case Start(req) => SafeSendsStart(s, req);
      case Advance(i, c) => SafeSendsStep(s, i, c);
      case Crash(i) => SafeSendsMove(s, i, Crashed(s.attempts[i].req));
      case CacheLoss(lost) =>
      case Retain(tenant, before, doomed) =>
        PruneKeeps(s.world.tables, tenant, before, doomed);
        SafeSendsRemembers(s, Prune(s.world.tables, doomed));
    }
  }

  lemma SafeSendsStart(s: System, req: Request)
    requires SafeSends(s)
    ensures SafeSends(Apply(s, Start(req)))
  {
  }

  lemma {:induction false} SafeSendsAlways(labels: seq<Label>)
    ensures SafeSends(Run(labels))
  {
    if labels != [] {
      SafeSendsAlways(labels[..|labels| - 1]);
      SafeSendsApply(Run(labels[..|labels| - 1]), labels[|labels| - 1]);
    }
  }

  /** The central claim. In every run of any number of replicas, with crashes at any
      point, timeouts, retries, lost replies, cache loss and pruning, the venue's
      SubmitOrder is called at most once per tenant and idempotency key, and at most once
      per tenant and envelope id. */
  lemma AtMostOnce(labels: seq<Label>)
    ensures var sends := Run(labels).world.sends;
      forall j, k :: 0 <= j < k < |sends| && sends[j].tenantID == sends[k].tenantID ==>
        && sends[j].key != sends[k].key
        && sends[j].envelopeID != sends[k].envelopeID
  {
    SafeSendsAlways(labels);
    var w := Run(labels).world;
    forall j, k | 0 <= j < k < |w.sends| && w.sends[j].tenantID == w.sends[k].tenantID
      ensures w.sends[j].key != w.sends[k].key && w.sends[j].envelopeID != w.sends[k].envelopeID
    {
      assert w.sends[j].Id() != w.sends[k].Id();
      assert FiledUnder(w.tables, w.sends[j]) && FiledUnder(w.tables, w.sends[k]);
    }
  }
}
