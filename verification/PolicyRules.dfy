/** Authored and compiled policy rules, and what each means for an order
    (internal/policy/authoring.go, compile.go, evaluate.go). */
module PolicyRules {
  import opened Wrappers
  import opened Notional

  datatype Action = Allow | Observe | Delay | Throttle | RequireApproval | Deny

  function Severity(a: Action): nat {
    match a
    case Allow => 0
    case Observe => 1
    case Delay => 2
    case Throttle => 3
    case RequireApproval => 4
    case Deny => 5
  }

  predicate MoreRestrictive(a: Action, b: Action) {
    Severity(a) > Severity(b)
  }

  /** Thresholds on an order's notional. */
  datatype Bounds = Bounds(gt: Option<Amount>, gte: Option<Amount>, lt: Option<Amount>, lte: Option<Amount>)

  /** One authored rule, as text. */
  datatype SourceRule = SourceRule(
    id: string,
    assetClass: string,
    side: string,
    orderType: string,
    instrument: string,
    instruments: seq<string>,
    bounds: Bounds,
    extendedHours: Option<bool>,
    requireLTE: Option<Amount>,
    requireGTE: Option<Amount>,
    action: string)

  /** One compiled rule; an empty text or list constrains nothing. */
  datatype CompiledRule = CompiledRule(
    id: string,
    action: Action,
    assetClass: string,
    side: string,
    orderType: string,
    instruments: seq<string>,
    bounds: Bounds,
    extendedHours: Option<bool>,
    requireLTE: Option<Amount>,
    requireGTE: Option<Amount>,
    needsNotional: bool)

  // ---------------------------------------------------------------------------
  // What a compiled rule does
  // ---------------------------------------------------------------------------

  predicate WithinBounds(b: Bounds, n: Amount) {
    && (b.gt.Some? ==> n > b.gt.value)
    && (b.gte.Some? ==> n >= b.gte.value)
    && (b.lt.Some? ==> n < b.lt.value)
    && (b.lte.Some? ==> n <= b.lte.value)
  }

  /** Whether a rule's action applies to an order of this notional, when it is known. */
  function RuleFires(r: CompiledRule, i: Intent, notional: Option<Amount>): bool {
    if r.needsNotional && notional.None? then
      r.action != Allow
    else
      var n := if notional.Some? then notional.value else 0;
      if r.assetClass != "" && i.assetClass != r.assetClass then false
      else if r.side != "" && i.side != r.side then false
      else if r.orderType != "" && i.orderType != r.orderType then false
      else if r.instruments != [] && i.instrumentID !in r.instruments then false
      else if r.extendedHours.Some? && i.extendedHours != r.extendedHours.value then false
      else if r.bounds.gt.Some? && !(n > r.bounds.gt.value) then false
      else if r.bounds.gte.Some? && !(n >= r.bounds.gte.value) then false
      else if r.bounds.lt.Some? && !(n < r.bounds.lt.value) then false
      else if r.bounds.lte.Some? && !(n <= r.bounds.lte.value) then false
      else if r.requireLTE.Some? && n > r.requireLTE.value then true
      else if r.requireGTE.Some? && n < r.requireGTE.value then true
      else if r.requireLTE.Some? || r.requireGTE.Some? then false
      else true
  }

  datatype Decision = Decision(action: Action, decidedBy: Option<string>, matched: seq<string>)

  /** The decision over the rules in bundle order. */
  function Evaluate(rules: seq<CompiledRule>, i: Intent, notional: Option<Amount>): Decision
    decreases |rules|
  {
    if rules == [] then Decision(Allow, None, [])
    else
      var d := Evaluate(rules[..|rules| - 1], i, notional);
      var r := rules[|rules| - 1];
      if !RuleFires(r, i, notional) then d
      else
        var d' := d.(matched := d.matched + [r.id]);
        if d.matched == [] || MoreRestrictive(r.action, d.action) then d'.(action := r.action, decidedBy := Some(r.id)) else d'
  }

  /** The same, as the loop runs it. */
  method EvaluateBundle(bundle: Option<seq<CompiledRule>>, intent: Option<Intent>) returns (d: Decision)
    ensures bundle.None? || intent.None? ==> d.action == Deny && d.matched == []
    ensures bundle.Some? && intent.Some? ==> d == Evaluate(bundle.value, intent.value, PolicyNotional(intent.value))
  {
    if bundle.None? { return Decision(Deny, None, []); }
    if intent.None? { return Decision(Deny, None, []); }
    var rules, i := bundle.value, intent.value;
    var notional := PolicyNotional(i);
    d := Decision(Allow, None, []);
    for k := 0 to |rules|
      invariant d == Evaluate(rules[..k], i, notional)
    {
      assert rules[..k + 1][..k] == rules[..k];
      if RuleFires(rules[k], i, notional) {
        var first := d.matched == [];
        d := d.(matched := d.matched + [rules[k].id]);
        if first || MoreRestrictive(rules[k].action, d.action) {
          d := d.(action := rules[k].action, decidedBy := Some(rules[k].id));
        }
      }
    }
    assert rules[..|rules|] == rules;
  }

  // ---------------------------------------------------------------------------
  // The decision is the maximum
  // ---------------------------------------------------------------------------

  /** The most severe action among the firing rules, or Allow when none fires. */
  ghost predicate Strictest(rules: seq<CompiledRule>, i: Intent, notional: Option<Amount>, a: Action) {
    && (forall k :: 0 <= k < |rules| && RuleFires(rules[k], i, notional) ==> Severity(rules[k].action) <= Severity(a))
    && (a == Allow || exists k :: 0 <= k < |rules| && RuleFires(rules[k], i, notional) && rules[k].action == a)
  }

  lemma StrictestUnique(rules: seq<CompiledRule>, i: Intent, notional: Option<Amount>, a: Action, b: Action)
    requires Strictest(rules, i, notional, a) && Strictest(rules, i, notional, b)
    ensures a == b
  {
    assert Severity(a) <= Severity(b) && Severity(b) <= Severity(a);
  }

  /** The rule a decision is attributed to: the first among those that fire with the deciding
      action. */
  ghost predicate DecidedByFirst(rules: seq<CompiledRule>, i: Intent, notional: Option<Amount>, d: Decision) {
    match d.decidedBy
    case None => d.action == Allow && forall k :: 0 <= k < |rules| ==> !RuleFires(rules[k], i, notional)
    case Some(id) =>
      exists k :: 0 <= k < |rules| && RuleFires(rules[k], i, notional) && rules[k].action == d.action && rules[k].id == id
                  && forall j :: 0 <= j < k && RuleFires(rules[j], i, notional) ==> Severity(rules[j].action) < Severity(d.action)
  }

  lemma {:induction false} EvaluateIsStrictest(rules: seq<CompiledRule>, i: Intent, notional: Option<Amount>)
    ensures var d := Evaluate(rules, i, notional);
      && Strictest(rules, i, notional, d.action)
      && DecidedByFirst(rules, i, notional, d)
      && (d.matched == [] <==> d.decidedBy.None?)
    decreases |rules|
  {
    if rules != [] {
      var before, r := rules[..|rules| - 1], rules[|rules| - 1];
      EvaluateIsStrictest(before, i, notional);
      var d, d' := Evaluate(before, i, notional), Evaluate(rules, i, notional);
      StrictestExtends(before, r, i, notional, d.action, d'.action);
      FirstExtends(before, r, i, notional, d, d');
      assert rules == before + [r];
    }
  }

  /** Some rule that fires carries the action. */
  ghost predicate Fires(rules: seq<CompiledRule>, i: Intent, notional: Option<Amount>, a: Action) {
    exists k :: 0 <= k < |rules| && RuleFires(rules[k], i, notional) && rules[k].action == a
  }

  /** The decision by name: a denial outweighs everything, then approval, throttling, delay and
      observation; an order no such rule fires on is allowed. */
  lemma DecisionNamed(rules: seq<CompiledRule>, i: Intent, notional: Option<Amount>)
    ensures var a := Evaluate(rules, i, notional).action;
      var denies, asks, throttles, delays, observes :=
        Fires(rules, i, notional, Deny), Fires(rules, i, notional, RequireApproval), Fires(rules, i, notional, Throttle),
        Fires(rules, i, notional, Delay), Fires(rules, i, notional, Observe);
      && (a == Deny <==> denies)
      && (a == RequireApproval <==> asks && !denies)
      && (a == Throttle <==> throttles && !asks && !denies)
      && (a == Delay <==> delays && !throttles && !asks && !denies)
      && (a == Observe <==> observes && !delays && !throttles && !asks && !denies)
      && (a == Allow <==> !observes && !delays && !throttles && !asks && !denies)
  {
    EvaluateIsStrictest(rules, i, notional);
  }

  lemma StrictestExtends(before: seq<CompiledRule>, r: CompiledRule, i: Intent, notional: Option<Amount>, a: Action, a': Action)
    requires Strictest(before, i, notional, a)
    requires a' == if RuleFires(r, i, notional) && MoreRestrictive(r.action, a) then r.action else a
    ensures Strictest(before + [r], i, notional, a')
  {
    var rules := before + [r];
    assert rules[|before|] == r;
    if a' == a && a != Allow {
      var k :| 0 <= k < |before| && RuleFires(before[k], i, notional) && before[k].action == a;
      assert rules[k] == before[k];
    }
    forall k | 0 <= k < |rules| && RuleFires(rules[k], i, notional) ensures Severity(rules[k].action) <= Severity(a') {
      if k < |before| { assert rules[k] == before[k]; }
    }
  }

  lemma FirstExtends(before: seq<CompiledRule>, r: CompiledRule, i: Intent, notional: Option<Amount>, d: Decision, d': Decision)
    requires Strictest(before, i, notional, d.action) && DecidedByFirst(before, i, notional, d)
    requires d.matched == [] <==> d.decidedBy.None?
    requires d' == if !RuleFires(r, i, notional) then d
                   else if d.matched == [] || MoreRestrictive(r.action, d.action) then Decision(r.action, Some(r.id), d.matched + [r.id])
                   else d.(matched := d.matched + [r.id])
    ensures DecidedByFirst(before + [r], i, notional, d')
  {
    var rules := before + [r];
    assert rules[|before|] == r;
    assert forall k :: 0 <= k < |before| ==> rules[k] == before[k];
    if d'.decidedBy == d.decidedBy && d.decidedBy.Some? && d'.action == d.action {
      var k :| 0 <= k < |before| && RuleFires(before[k], i, notional) && before[k].action == d.action && before[k].id == d.decidedBy.value
        && forall j :: 0 <= j < k && RuleFires(before[j], i, notional) ==> Severity(before[j].action) < Severity(d.action);
      assert rules[k] == before[k];
    }
  }

  /** Reordering rules changes nothing of what is enforced. */
  lemma OrderDoesNotMatter(rules: seq<CompiledRule>, other: seq<CompiledRule>, i: Intent, notional: Option<Amount>)
    requires multiset(rules) == multiset(other)
    ensures Evaluate(rules, i, notional).action == Evaluate(other, i, notional).action
  {
    EvaluateIsStrictest(rules, i, notional);
    EvaluateIsStrictest(other, i, notional);
    StrictestMoves(rules, other, i, notional, Evaluate(rules, i, notional).action);
    StrictestUnique(other, i, notional, Evaluate(rules, i, notional).action, Evaluate(other, i, notional).action);
  }

  lemma StrictestMoves(rules: seq<CompiledRule>, other: seq<CompiledRule>, i: Intent, notional: Option<Amount>, a: Action)
    requires multiset(rules) == multiset(other) && Strictest(rules, i, notional, a)
    ensures Strictest(other, i, notional, a)
  {
    forall k | 0 <= k < |other| && RuleFires(other[k], i, notional) ensures Severity(other[k].action) <= Severity(a) {
      assert other[k] in multiset(rules);
      var j :| 0 <= j < |rules| && rules[j] == other[k];
    }
    if a != Allow {
      var j :| 0 <= j < |rules| && RuleFires(rules[j], i, notional) && rules[j].action == a;
      assert rules[j] in multiset(other);
      var k :| 0 <= k < |other| && other[k] == rules[j];
    }
  }

  /** Adding rules, anywhere, never loosens a decision. */
  lemma AddingNeverLoosens(rules: seq<CompiledRule>, more: seq<CompiledRule>, i: Intent, notional: Option<Amount>)
    requires multiset(rules) <= multiset(more)
    ensures Severity(Evaluate(rules, i, notional).action) <= Severity(Evaluate(more, i, notional).action)
  {
    EvaluateIsStrictest(rules, i, notional);
    EvaluateIsStrictest(more, i, notional);
    var a := Evaluate(rules, i, notional).action;
    if a != Allow {
      var k :| 0 <= k < |rules| && RuleFires(rules[k], i, notional) && rules[k].action == a;
      assert rules[k] in multiset(rules) && rules[k] in multiset(more);
      var j :| 0 <= j < |more| && more[j] == rules[k];
    }
  }

  /** A rule depends on size only if compilation says so. */
  predicate NeedsMarked(r: CompiledRule) {
    r.needsNotional <==>
      r.bounds.gt.Some? || r.bounds.gte.Some? || r.bounds.lt.Some? || r.bounds.lte.Some? || r.requireLTE.Some? || r.requireGTE.Some?
  }

  /** An order whose size cannot be determined is treated at least as strictly as the same
      order of any size at all. */
  lemma UnknownSizeIsStrictest(rules: seq<CompiledRule>, i: Intent, size: Amount)
    requires forall k :: 0 <= k < |rules| ==> NeedsMarked(rules[k])
    ensures Severity(Evaluate(rules, i, Some(size)).action) <= Severity(Evaluate(rules, i, None).action)
  {
    EvaluateIsStrictest(rules, i, Some(size));
    EvaluateIsStrictest(rules, i, None);
    var a := Evaluate(rules, i, Some(size)).action;
    if a != Allow {
      var k :| 0 <= k < |rules| && RuleFires(rules[k], i, Some(size)) && rules[k].action == a;
      assert RuleFires(rules[k], i, None);
    }
  }
}
