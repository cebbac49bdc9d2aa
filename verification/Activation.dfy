/** Which policy is in force (internal/policy/activation_store.go): transitions accepted under
    one lock per tenant, each naming the bundle it replaces. */
module Activation {
  import opened Wrappers

  /** A bundle by the name its customer chose and by what its rules are. */
  datatype Bundle = Bundle(id: string, hash: string)

  datatype Authorization = Authorization(
    nonce: string,
    bundle: Bundle,
    prior: Bundle,
    action: string,
    actor: string,
    reason: string,
    keyID: string,
    authorizedAt: int)

  const NO_BUNDLE := Bundle("", "")

  /** An accepted transition as it is stored. */
  datatype Transition = Transition(auth: Authorization, prior: Bundle, order: int, acceptedAt: int)

  datatype Current = Current(nonce: string, bundle: Bundle, order: int, acceptedAt: int)

  /** One tenant's accepted transitions, by nonce, and the row naming the one in force. */
  datatype Tables = Tables(transitions: map<string, Transition>, current: Option<Current>)

  const EMPTY := Tables(map[], None)

  datatype Refusal = StalePredecessor | PredecessorMissing | OrderTaken | Replayed | EventInvalid

  datatype Answer = Accepted(t: Transition) | Refused(why: Refusal)

  /** Compares what the customer signed against what is in force. */
  function CheckPredecessor(a: Authorization, current: Option<Current>): Option<Refusal> {
    match current
    case None => if a.prior.id != "" || a.prior.hash != "" then Some(StalePredecessor) else None
    case Some(c) =>
      if a.prior.id == "" || a.prior.hash == "" then Some(PredecessorMissing)
      else if a.prior.id != c.bundle.id || a.prior.hash != c.bundle.hash then Some(StalePredecessor)
      else None
  }

  /** What an accepted authorization is stored as. */
  function TransitionOf(t: Tables, a: Authorization, at: int): Transition {
    match t.current
    case None => Transition(a, NO_BUNDLE, 1, at)
    case Some(c) => Transition(a, c.bundle, c.order + 1, at)
  }

  predicate OrderUsed(t: Tables, order: int) {
    exists n :: n in t.transitions && t.transitions[n].order == order
  }

  /** One transaction under the tenant's lock. `recorded` is whether the evidence written in
      the same transaction was valid. */
  function Accept(t: Tables, a: Authorization, at: int, recorded: bool): (Tables, Answer) {
    var next := TransitionOf(t, a, at);
    match CheckPredecessor(a, t.current)
    case Some(why) => (t, Refused(why))
    case None =>
      if a.nonce in t.transitions then (t, Refused(Replayed))
      else if OrderUsed(t, next.order) then (t, Refused(OrderTaken))
      else if !recorded then (t, Refused(EventInvalid))
      else (Tables(t.transitions[a.nonce := next], Some(Current(a.nonce, a.bundle, next.order, at))), Accepted(next))
  }

  // ---------------------------------------------------------------------------
  // Runs
  // ---------------------------------------------------------------------------

  /** One attempt to accept, on whichever replica: the transactions of one tenant run one
      after another. */
  datatype Attempt = Attempt(auth: Authorization, at: int, recorded: bool)

  /** The tables, and as history the transitions in the order they were accepted. */
  datatype System = System(tables: Tables, history: seq<Transition>)

  const INITIAL := System(EMPTY, [])

  function Apply(s: System, l: Attempt): System {
    var (tables, answer) := Accept(s.tables, l.auth, l.at, l.recorded);
    System(tables, if answer.Accepted? then s.history + [answer.t] else s.history)
  }

  function Run(attempts: seq<Attempt>): System
    decreases |attempts|
  {
    if attempts == [] then INITIAL else Apply(Run(attempts[..|attempts| - 1]), attempts[|attempts| - 1])
  }

  /** Each transition replaces the bundle of the one before it, and its authorization said
      so; the first replaces nothing. */
  ghost predicate Chained(history: seq<Transition>) {
    forall i :: 0 <= i < |history| ==> LinkedAt(history, i)
  }

  predicate LinkedAt(history: seq<Transition>, i: nat)
    requires i < |history|
  {
    && history[i].order == i + 1
    && history[i].prior == (if i == 0 then NO_BUNDLE else history[i - 1].auth.bundle)
    && history[i].auth.prior == history[i].prior
  }

  ghost predicate NoncesOnce(history: seq<Transition>) {
    forall i, j :: 0 <= i < j < |history| ==> history[i].auth.nonce != history[j].auth.nonce
  }

  /** The table is the history, no more and no less. */
  ghost predicate Stored(t: Tables, history: seq<Transition>) {
    && (forall i :: 0 <= i < |history| ==> history[i].auth.nonce in t.transitions && t.transitions[history[i].auth.nonce] == history[i])
    && (forall n :: n in t.transitions ==> exists i :: 0 <= i < |history| && history[i].auth.nonce == n)
  }

  /** The current row is the last transition. */
  ghost predicate PointsLast(t: Tables, history: seq<Transition>) {
    match t.current
    case None => history == []
    case Some(c) =>
      history != [] &&
      var last := history[|history| - 1];
      c == Current(last.auth.nonce, last.auth.bundle, |history|, last.acceptedAt)
  }

  ghost predicate OneChain(s: System) {
    Chained(s.history) && NoncesOnce(s.history) && Stored(s.tables, s.history) && PointsLast(s.tables, s.history)
  }

  /** The unique order index never refuses. */
  lemma OrderFree(s: System, a: Authorization, at: int)
    requires OneChain(s)
    ensures !OrderUsed(s.tables, TransitionOf(s.tables, a, at).order)
  {
    forall n | n in s.tables.transitions ensures s.tables.transitions[n].order <= |s.history| {
      var i :| 0 <= i < |s.history| && s.history[i].auth.nonce == n;
      assert LinkedAt(s.history, i);
    }
  }

  /** Accept succeeds exactly when the authorization names what is in force, its nonce is new
      and its evidence is valid; every refusal leaves everything as it was. */
  lemma AcceptedExactly(s: System, a: Authorization, at: int, recorded: bool)
    requires OneChain(s)
    ensures var (t, answer) := Accept(s.tables, a, at, recorded);
      && (answer.Accepted? <==>
            recorded && a.nonce !in s.tables.transitions &&
            match s.tables.current
            case None => a.prior == NO_BUNDLE
            case Some(c) => a.prior == c.bundle && c.bundle.id != "" && c.bundle.hash != "")
      && (!answer.Accepted? ==> t == s.tables)
      && answer != Refused(OrderTaken)
  {
    OrderFree(s, a, at);
  }

  lemma AppendStored(t: Tables, history: seq<Transition>, next: Transition, current: Option<Current>)
    requires Stored(t, history) && next.auth.nonce !in t.transitions
    ensures Stored(Tables(t.transitions[next.auth.nonce := next], current), history + [next])
    ensures NoncesOnce(history) ==> NoncesOnce(history + [next])
  {
    var t', history' := Tables(t.transitions[next.auth.nonce := next], current), history + [next];
    forall n | n in t'.transitions ensures exists i :: 0 <= i < |history'| && history'[i].auth.nonce == n {
      if n in t.transitions {
        var i :| 0 <= i < |history| && history[i].auth.nonce == n;
        assert history'[i] == history[i];
      } else {
        assert history'[|history|].auth.nonce == n;
      }
    }
  }

  lemma AppendChained(t: Tables, history: seq<Transition>, a: Authorization, at: int)
    requires Chained(history) && PointsLast(t, history) && CheckPredecessor(a, t.current).None?
    ensures Chained(history + [TransitionOf(t, a, at)])
  {
    var next := TransitionOf(t, a, at);
    var history' := history + [next];
    var n := |history|;
    assert a.prior == next.prior && next.order == n + 1;
    assert next.prior == if n == 0 then NO_BUNDLE else history[n - 1].auth.bundle;
    forall i | 0 <= i < |history'| ensures LinkedAt(history', i) {
      if i < n {
        assert LinkedAt(history, i);
        assert history'[i] == history[i] && (i > 0 ==> history'[i - 1] == history[i - 1]);
      } else {
        assert history'[i] == next && (i > 0 ==> history'[i - 1] == history[i - 1]);
      }
    }
  }

  lemma AcceptedIs(s: System, l: Attempt)
    requires Accept(s.tables, l.auth, l.at, l.recorded).1.Accepted?
    ensures var next := TransitionOf(s.tables, l.auth, l.at);
      Apply(s, l) == System(Tables(s.tables.transitions[l.auth.nonce := next], Some(Current(l.auth.nonce, l.auth.bundle, next.order, l.at))), s.history + [next])
  {
  }

  lemma AppendPoints(t: Tables, history: seq<Transition>, next: Transition)
    requires PointsLast(t, history) && next.order == |history| + 1
    ensures PointsLast(t.(current := Some(Current(next.auth.nonce, next.auth.bundle, next.order, next.acceptedAt))), history + [next])
  {
  }

  lemma AcceptedChains(s: System, l: Attempt)
    requires OneChain(s)
    ensures OneChain(Apply(s, l))
  {
    var next := TransitionOf(s.tables, l.auth, l.at);
    if Accept(s.tables, l.auth, l.at, l.recorded).1.Accepted? {
      AcceptedIs(s, l);
      AppendStored(s.tables, s.history, next, Some(Current(l.auth.nonce, l.auth.bundle, next.order, l.at)));
      AppendChained(s.tables, s.history, l.auth, l.at);
      AppendPoints(s.tables, s.history, next);
    } else {
      assert Apply(s, l) == s;
    }
  }

  /** A tenant's policy history is one unbranched chain, for every interleaving of replicas
      and every refusal: the order rises by exactly one, each transition replaces the
      bundle before it, no nonce is accepted twice, and the current row is the last of them. */
  lemma {:induction false} HistoryIsOneChain(attempts: seq<Attempt>)
    ensures OneChain(Run(attempts))
    decreases |attempts|
  {
    if attempts != [] {
      HistoryIsOneChain(attempts[..|attempts| - 1]);
      AcceptedChains(Run(attempts[..|attempts| - 1]), attempts[|attempts| - 1]);
    }
  }

  /** Two replicas cannot both move the tenant from one bundle: once one authorization has
      moved it elsewhere, the other, naming the same predecessor, is refused. */
  lemma NoBranch(s: System, a: Attempt, b: Attempt)
    requires OneChain(s)
    requires Accept(s.tables, a.auth, a.at, a.recorded).1.Accepted? && a.auth.bundle != a.auth.prior
    requires b.auth.prior == a.auth.prior
    ensures Accept(Apply(s, a).tables, b.auth, b.at, b.recorded).1.Refused?
    ensures Apply(Apply(s, a), b) == Apply(s, a)
  {
  }

  // ---------------------------------------------------------------------------
  // What the predecessor check does not catch
  // ---------------------------------------------------------------------------

  /** What is left of the rules once the evidence is valid. */
  predicate Acceptable(t: Tables, a: Authorization) {
    CheckPredecessor(a, t.current).None? && a.nonce !in t.transitions
  }

  predicate Accepts(s: System, l: Attempt) {
    Accept(s.tables, l.auth, l.at, l.recorded).1.Accepted?
  }

  /** The check compares bundles, not transitions. An authorization set aside and overtaken
      is refused while another bundle is in force, and becomes acceptable again as soon as
      the tenant returns to the bundle it names, whatever happened in between. */
  lemma OvertakenReturns(s: System, aside: Authorization, away: Attempt, back: Attempt)
    requires OneChain(s) && Acceptable(s.tables, aside) && s.tables.current.Some?
    requires Accepts(s, away) && away.auth.bundle != aside.prior && away.auth.nonce != aside.nonce
    requires Accepts(Apply(s, away), back) && back.auth.bundle == aside.prior && back.auth.nonce != aside.nonce
    ensures !Acceptable(Apply(s, away).tables, aside)
    ensures Acceptable(Apply(Apply(s, away), back).tables, aside)
  {
    AcceptedIs(s, away);
    AcceptedIs(Apply(s, away), back);
  }

  /** And the tenant can always go and return, so no such authorization is ever safe to
      leave unused. */
  lemma CanReturn(s: System, away: Attempt, back: Attempt)
    requires OneChain(s) && s.tables.current.Some?
    requires var here := s.tables.current.value.bundle;
      && here.id != "" && here.hash != ""
      && away.auth.prior == here && back.auth.prior == away.auth.bundle && back.auth.bundle == here
    requires away.auth.bundle.id != "" && away.auth.bundle.hash != "" && away.recorded && back.recorded
    requires away.auth.nonce !in s.tables.transitions && back.auth.nonce !in s.tables.transitions && away.auth.nonce != back.auth.nonce
    ensures Accepts(s, away) && Accepts(Apply(s, away), back)
  {
    AcceptedExactly(s, away.auth, away.at, true);
    AcceptedIs(s, away);
    AcceptedChains(s, away);
    AcceptedExactly(Apply(s, away), back.auth, back.at, true);
  }

  // ---------------------------------------------------------------------------
  // The store
  // ---------------------------------------------------------------------------

  class ActivationStore {
    var tenants: map<string, Tables>

    constructor ()
      ensures tenants == map[]
    {
      tenants := map[];
    }

    function Of(tenantID: string): Tables
      reads this
    {
      if tenantID in tenants then tenants[tenantID] else EMPTY
    }

    /** Records a transition and its evidence, or nothing. `up` is whether the database
        answers. */
    method Accept(tenantID: string, a: Authorization, at: int, recorded: bool, up: bool) returns (answer: Option<Answer>)
      modifies this
      ensures !up || tenantID == "" ==> answer.None? && tenants == old(tenants)
      ensures up && tenantID != "" ==>
        (Of(tenantID), answer) == (Accepting(old(Of(tenantID)), a, at, recorded).0, Some(Accepting(old(Of(tenantID)), a, at, recorded).1))
      ensures forall other :: other != tenantID ==> Of(other) == old(Of(other))
    {
      if !up || tenantID == "" { return None; }
      var t := Of(tenantID);
      var stale := CheckPredecessor(a, t.current);
      if stale.Some? { return Some(Refused(stale.value)); }
      var prior, order := NO_BUNDLE, 0;
      if t.current.Some? {
        prior, order := t.current.value.bundle, t.current.value.order;
      }
      var next := Transition(a, prior, order + 1, at);
      if a.nonce in t.transitions { return Some(Refused(Replayed)); }
      if OrderUsed(t, order + 1) { return Some(Refused(OrderTaken)); }
      if !recorded { return Some(Refused(EventInvalid)); }
      tenants := tenants[tenantID := Tables(t.transitions[a.nonce := next], Some(Current(a.nonce, a.bundle, order + 1, at)))];
      return Some(Accepted(next));
    }

    /** The transition in force, read through the current row. */
    method InForce(tenantID: string) returns (t: Option<Transition>)
      ensures t == match Of(tenantID).current
        case None => None
        case Some(c) => if c.nonce in Of(tenantID).transitions then Some(Of(tenantID).transitions[c.nonce]) else None
    {
      var current := Of(tenantID).current;
      if current.None? || current.value.nonce !in Of(tenantID).transitions { return None; }
      return Some(Of(tenantID).transitions[current.value.nonce]);
    }
  }

  /** The step, by a name the store's own method does not hide. */
  function Accepting(t: Tables, a: Authorization, at: int, recorded: bool): (Tables, Answer) {
    Accept(t, a, at, recorded)
  }

  /** What a reader finds in force is the last transition accepted. */
  lemma InForceIsLast(attempts: seq<Attempt>)
    ensures var s := Run(attempts);
      match s.tables.current
      case None => s.history == []
      case Some(c) => s.history != [] && c.nonce in s.tables.transitions && s.tables.transitions[c.nonce] == s.history[|s.history| - 1]
  {
    HistoryIsOneChain(attempts);
  }
}
