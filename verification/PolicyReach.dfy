/** Which compiled rules can fire at all, over the orders that reach the policy: those the
    envelope's validation accepts (internal/intent/validate.go:297-372), sized as the
    evaluator sizes them. */
module PolicyReach {
  import opened Wrappers
  import Int64
  import opened Notional
  import opened PolicyRules
  import opened PolicyCompile

  /** What validation demands of side, sizing and prices, and what decoding bounds. */
  predicate Accepted(i: Intent) {
    && KnownSide(i.side) && KnownType(i.orderType)
    && (i.notional.Some? <==> i.quantity.None?)
    && (i.notional.Some? ==> 0 < i.notional.value <= Int64.AMOUNT_MAX)
    && (i.quantity.Some? ==> 0 < i.quantity.value <= Int64.QUANTITY_MAX)
    && (i.orderType != MARKET ==> i.quantity.Some?)
    && (i.limitPrice.Some? <==> i.orderType == LIMIT || i.orderType == STOP_LIMIT)
    && (i.limitPrice.Some? ==> 0 < i.limitPrice.value <= Int64.AMOUNT_MAX)
  }

  /** The largest size an order of a type can have: a market order's is written out, a limit
      order's is a product. A stop order has none. */
  function Top(orderType: string): int {
    if orderType == STOP then 0 else if orderType == MARKET then Int64.AMOUNT_MAX else Int64.MAX
  }

  /** A known size is positive, and within its order type's reach. */
  lemma SizeIsPositive(i: Intent)
    requires Accepted(i) && PolicyNotional(i).Some?
    ensures 0 < PolicyNotional(i).value <= Top(i.orderType)
  {
    if i.notional.None? {
      var p, q := i.limitPrice.value, i.quantity.value;
      NotionalIsCeilingExactly(p, q);
      ProductNonNegative(p, q);
    }
  }

  /** The thresholds an author can write. */
  predicate Authored(r: CompiledRule) {
    forall f: Field :: Threshold(r, f).Some? ==> Threshold(r, f).value <= Int64.AMOUNT_MAX
  }

  function Max(x: int, y: int): int {
    if x > y then x else y
  }

  function Min(x: int, y: int): int {
    if x < y then x else y
  }

  /** The sizes within a rule's bounds run from here. */
  function Lowest(b: Bounds): int {
    Max(if b.gt.Some? then b.gt.value + 1 else 1, Max(if b.gte.Some? then b.gte.value else 1, 1))
  }

  /** To here. */
  function Highest(b: Bounds, top: int): int {
    Min(if b.lt.Some? then b.lt.value - 1 else top, Min(if b.lte.Some? then b.lte.value else top, top))
  }

  /** Some size is within the bounds and fails the requirement. */
  predicate SomeSize(r: CompiledRule) {
    var lo, hi := Lowest(r.bounds), Highest(r.bounds, Top(r.orderType));
    && lo <= hi
    && ((r.requireLTE.None? && r.requireGTE.None?)
        || (r.requireLTE.Some? && hi > r.requireLTE.value)
        || (r.requireGTE.Some? && lo < r.requireGTE.value))
  }

  /** The part of firing that concerns size. */
  predicate SizeFires(r: CompiledRule, n: Amount) {
    && WithinBounds(r.bounds, n)
    && ((r.requireLTE.None? && r.requireGTE.None?)
        || (r.requireLTE.Some? && n > r.requireLTE.value)
        || (r.requireGTE.Some? && n < r.requireGTE.value))
  }

  /** The part that concerns everything else. */
  predicate NamesMatch(r: CompiledRule, i: Intent) {
    && (r.assetClass != "" ==> i.assetClass == r.assetClass)
    && (r.side != "" ==> i.side == r.side)
    && (r.orderType != "" ==> i.orderType == r.orderType)
    && (r.instruments != [] ==> i.instrumentID in r.instruments)
    && (r.extendedHours.Some? ==> i.extendedHours == r.extendedHours.value)
  }

  lemma FiresMeans(r: CompiledRule, i: Intent, notional: Option<Amount>)
    requires NeedsMarked(r)
    ensures RuleFires(r, i, notional) <==>
      if r.needsNotional && notional.None? then r.action != Allow
      else NamesMatch(r, i) && (notional.Some? ==> SizeFires(r, notional.value))
  {
  }

  lemma InReach(r: CompiledRule, n: Amount)
    requires 0 < n <= Top(r.orderType) && SizeFires(r, n)
    ensures SomeSize(r)
  {
  }

  /** A size that fires, small enough for any order type to have it. */
  lemma Reached(r: CompiledRule) returns (n: Amount)
    requires SomeSize(r) && Authored(r) && BoundsSound(r)
    ensures 0 < n <= Top(r.orderType) && n <= Int64.AMOUNT_MAX + 1 && SizeFires(r, n)
  {
    var lo := Lowest(r.bounds);
    assert forall f: Field :: !Negative(r, f);
    ThresholdsBounded(r);
    if (r.requireLTE.None? && r.requireGTE.None?) || (r.requireGTE.Some? && lo < r.requireGTE.value) {
      n := lo;
    } else {
      n := Max(lo, r.requireLTE.value + 1);
    }
  }

  lemma ThresholdsBounded(r: CompiledRule)
    requires Authored(r)
    ensures Lowest(r.bounds) <= Int64.AMOUNT_MAX + 1
    ensures r.requireLTE.Some? ==> r.requireLTE.value <= Int64.AMOUNT_MAX
  {
    assert Threshold(r, WhenGT) == r.bounds.gt && Threshold(r, WhenGTE) == r.bounds.gte && Threshold(r, RequireLTE) == r.requireLTE;
  }

  // ---------------------------------------------------------------------------
  // Orders a rule fires on
  // ---------------------------------------------------------------------------

  function Or(name: string, otherwise: string): string {
    if name == "" then otherwise else name
  }

  /** An order the rule's names match. */
  function OrderFor(r: CompiledRule, orderType: string, notional: Option<Amount>, quantity: Option<Quantity>, price: Option<Amount>): Intent {
    Intent(if r.instruments == [] then "instrument" else r.instruments[0], Or(r.assetClass, "EQUITY"), Or(r.side, BUY), orderType,
           notional, quantity, price, r.extendedHours.Some? && r.extendedHours.value)
  }

  predicate NamesKnown(r: CompiledRule) {
    (r.side != "" ==> KnownSide(r.side)) && (r.orderType != "" ==> KnownType(r.orderType))
  }

  /** An order of a given size: written out for a market order, else a price and a quantity
      with exactly that product. */
  function Sized(r: CompiledRule, n: Amount): Intent
    requires 0 < n <= Int64.AMOUNT_MAX + 1
  {
    if n <= Int64.AMOUNT_MAX && (r.orderType == "" || r.orderType == MARKET) then OrderFor(r, MARKET, Some(n), None, None)
    else if n <= Int64.AMOUNT_MAX then OrderFor(r, Or(r.orderType, LIMIT), None, Some(UNITS_PER_QUANTITY), Some(n))
    else OrderFor(r, Or(r.orderType, LIMIT), None, Some(10 * UNITS_PER_QUANTITY), Some(n / 10))
  }

  lemma SizedIs(r: CompiledRule, n: Amount)
    requires NamesKnown(r) && 0 < n <= Top(r.orderType) && n <= Int64.AMOUNT_MAX + 1
    ensures Accepted(Sized(r, n)) && PolicyNotional(Sized(r, n)) == Some(n) && NamesMatch(r, Sized(r, n))
  {
  }

  /** An order of no known size: a quantity at no price, or a product that does not fit. */
  function Unsized(r: CompiledRule): Intent {
    var orderType := Or(r.orderType, MARKET);
    if orderType == LIMIT || orderType == STOP_LIMIT then
      OrderFor(r, orderType, None, Some(Int64.QUANTITY_MAX), Some(Int64.AMOUNT_MAX))
    else
      OrderFor(r, orderType, None, Some(1), None)
  }

  lemma UnsizedIs(r: CompiledRule)
    requires NamesKnown(r)
    ensures Accepted(Unsized(r)) && PolicyNotional(Unsized(r)) == None && NamesMatch(r, Unsized(r))
  {
  }

  // ---------------------------------------------------------------------------
  // Which rules can fire
  // ---------------------------------------------------------------------------

  ghost predicate FiresOnKnown(r: CompiledRule) {
    exists i :: Accepted(i) && PolicyNotional(i).Some? && RuleFires(r, i, PolicyNotional(i))
  }

  ghost predicate FiresOnUnknown(r: CompiledRule) {
    exists i :: Accepted(i) && PolicyNotional(i).None? && RuleFires(r, i, PolicyNotional(i))
  }

  lemma CompiledIs(r: SourceRule, c: CompiledRule)
    requires RuleSound(r) && c == Compiled(r, ActionNamed(r.action).value)
    ensures NamesKnown(c) && NeedsMarked(c) && BoundsSound(c)
  {
  }

  /** A rule that compiles fires on some acceptable order of known size exactly when the
      sizes its bounds leave, positive and within its order type's reach, do not all meet
      its requirement. */
  lemma FiresOnKnownExactly(r: SourceRule, c: CompiledRule)
    requires RuleSound(r) && c == Compiled(r, ActionNamed(r.action).value) && Authored(c)
    ensures FiresOnKnown(c) <==> SomeSize(c)
  {
    CompiledIs(r, c);
    if SomeSize(c) {
      var n := Reached(c);
      SizedIs(c, n);
      FiresMeans(c, Sized(c, n), Some(n));
    } else {
      forall i | Accepted(i) && PolicyNotional(i).Some? ensures !RuleFires(c, i, PolicyNotional(i)) {
        SizeIsPositive(i);
        FiresMeans(c, i, PolicyNotional(i));
        if NamesMatch(c, i) && SizeFires(c, PolicyNotional(i).value) {
          assert Top(i.orderType) <= Top(c.orderType);
          InReach(c, PolicyNotional(i).value);
        }
      }
    }
  }

  /** And on some order of unknown size exactly unless it depends on size and only allows. */
  lemma FiresOnUnknownExactly(r: SourceRule, c: CompiledRule)
    requires RuleSound(r) && c == Compiled(r, ActionNamed(r.action).value)
    ensures FiresOnUnknown(c) <==> DependsOnSize(r) ==> c.action != Allow
  {
    CompiledIs(r, c);
    if DependsOnSize(r) ==> c.action != Allow {
      UnsizedIs(c);
      FiresMeans(c, Unsized(c), None);
    } else {
      forall i | Accepted(i) && PolicyNotional(i).None? ensures !RuleFires(c, i, PolicyNotional(i)) {
        FiresMeans(c, i, None);
      }
    }
  }

  /** What the compiler reports of the bounds it reports truly: no size is within them. */
  lemma ReportedNeverFires(c: CompiledRule)
    requires OpenConflict(c.bounds) || ClosedConflict(c.bounds)
    ensures !SomeSize(c)
  {
  }

  // ---------------------------------------------------------------------------
  // Rules it passes that never fire on a known size
  // ---------------------------------------------------------------------------

  function Rule(orderType: string, bounds: Bounds, requireLTE: Option<Amount>, requireGTE: Option<Amount>): SourceRule {
    SourceRule("rule", "", "", orderType, "", [], bounds, None, requireLTE, requireGTE, "DENY")
  }

  const NO_BOUNDS := Bounds(None, None, None, None)

  /** At most nothing; less than the least amount; a strict bound against an inclusive one. */
  const AT_MOST_NOTHING := Rule("", NO_BOUNDS.(lte := Some(0)), None, None)
  const BELOW_ONE := Rule("", NO_BOUNDS.(lt := Some(1)), None, None)
  const OPEN_AND_CLOSED := Rule("", NO_BOUNDS.(gt := Some(100), lte := Some(100)), None, None)
  /** A floor every order meets; bounds that meet the requirement; a stop order's size. */
  const FLOOR_OF_NOTHING := Rule("", NO_BOUNDS, None, Some(0))
  const BOUNDED_AS_REQUIRED := Rule("", NO_BOUNDS.(lte := Some(100)), Some(100), None)
  const SIZED_STOP := Rule(STOP, NO_BOUNDS.(gt := Some(100)), None, None)

  /** Thresholds the compiler accepts and no size can satisfy. */
  predicate Barren(c: CompiledRule) {
    BoundsSound(c) && Authored(c) && !SomeSize(c)
  }

  lemma BoundedBarren(c: CompiledRule)
    requires c.requireLTE.None? && c.requireGTE.None?
    requires || c.bounds == NO_BOUNDS.(lte := Some(0)) || c.bounds == NO_BOUNDS.(lt := Some(1))
             || c.bounds == NO_BOUNDS.(gt := Some(100), lte := Some(100))
             || (c.bounds == NO_BOUNDS.(gt := Some(100)) && c.orderType == STOP)
    ensures Barren(c)
  {
  }

  lemma RequiredBarren(c: CompiledRule)
    requires || (c.bounds == NO_BOUNDS && c.requireLTE.None? && c.requireGTE == Some(0))
             || (c.bounds == NO_BOUNDS.(lte := Some(100)) && c.requireLTE == Some(100) && c.requireGTE.None?)
    ensures Barren(c)
  {
  }

  lemma BarrenIsSilent(r: SourceRule)
    requires r == Rule(r.orderType, r.bounds, r.requireLTE, r.requireGTE) && (r.orderType == "" || r.orderType == STOP)
    requires Barren(Compiled(r, Deny)) && DependsOnSize(r)
    ensures RuleSound(r) && ActionNamed(r.action) == Some(Deny)
    ensures !FiresOnKnown(Compiled(r, Deny)) && FiresOnUnknown(Compiled(r, Deny))
  {
    DenyNamed();
    FiresOnKnownExactly(r, Compiled(r, Deny));
    FiresOnUnknownExactly(r, Compiled(r, Deny));
  }

  /** Each compiles without a problem, and fires on no order of known size. */
  lemma UnreportedNeverFire(r: SourceRule)
    requires r in {AT_MOST_NOTHING, BELOW_ONE, OPEN_AND_CLOSED, FLOOR_OF_NOTHING, BOUNDED_AS_REQUIRED, SIZED_STOP}
    ensures RuleSound(r) && ActionNamed(r.action) == Some(Deny)
    ensures !FiresOnKnown(Compiled(r, Deny)) && FiresOnUnknown(Compiled(r, Deny))
  {
    DenyNamed();
    if r == FLOOR_OF_NOTHING || r == BOUNDED_AS_REQUIRED {
      RequiredBarren(Compiled(r, Deny));
    } else {
      BoundedBarren(Compiled(r, Deny));
    }
    BarrenIsSilent(r);
  }

  lemma DenyNamed()
    ensures ActionNamed("DENY") == Some(Deny) && Normal(STOP) == STOP && !Blank("rule")
  {
  }
}
