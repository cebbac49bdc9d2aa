/** What an order commits (internal/money/quantity.go, internal/authority/evaluate.go,
    internal/policy/evaluate.go, internal/intent/parent.go). */
module Notional {
  import opened Wrappers
  import Int64

  /** Units of 0.0001 of a currency unit. */
  type Amount = Int64.Number

  /** Units of 0.00000001 of an instrument unit. */
  type Quantity = Int64.Number

  const UNITS_PER_QUANTITY := 100_000_000

  const MARKET := "MARKET"
  const LIMIT := "LIMIT"
  const STOP := "STOP"
  const STOP_LIMIT := "STOP_LIMIT"

  const BUY := "BUY"
  const SELL := "SELL"

  datatype Intent = Intent(
    instrumentID: string,
    assetClass: string,
    side: string,
    orderType: string,
    notional: Option<Amount>,
    quantity: Option<Quantity>,
    limitPrice: Option<Amount>,
    extendedHours: bool)

  function Abs(x: int): nat {
    if x < 0 then -x else x
  }

  /** The product at full width, reduced once, rounded away from zero; zero when the result
      does not fit. */
  function NotionalOf(price: Amount, quantity: Quantity): Amount {
    if price == 0 || quantity == 0 then 0
    else
      var product := price * quantity;
      var quotient := Abs(product) / UNITS_PER_QUANTITY;
      var rounded := if Abs(product) % UNITS_PER_QUANTITY != 0 then quotient + 1 else quotient;
      if rounded > Int64.MAX then 0
      else if product < 0 then -rounded
      else rounded
  }

  /** What an intent commits, as the authority check reads it (evaluate.go:130-154). */
  function AuthorityNotional(i: Intent): Option<Amount> {
    if i.notional.Some? then i.notional
    else if i.quantity.None? then None
    else if (i.orderType == LIMIT || i.orderType == STOP_LIMIT) && i.limitPrice.Some? then
      var notional := NotionalOf(i.limitPrice.value, i.quantity.value);
      if notional == 0 && i.limitPrice.value != 0 && i.quantity.value != 0 then None else Some(notional)
    else None
  }

  /** The policy evaluator's own copy of the rule (evaluate.go:160-181). */
  function PolicyNotional(i: Intent): Option<Amount> {
    if i.notional.Some? then i.notional
    else if i.quantity.None? then None
    else if (i.orderType == LIMIT || i.orderType == STOP_LIMIT) && i.limitPrice.Some? then
      var notional := NotionalOf(i.limitPrice.value, i.quantity.value);
      if notional == 0 && i.limitPrice.value != 0 && i.quantity.value != 0 then None else Some(notional)
    else None
  }

  /** The clustering's copy (parent.go:304-330). */
  function ClusterNotional(i: Intent): Option<Amount> {
    if i.notional.Some? then i.notional
    else if i.quantity.None? then None
    else if (i.orderType == LIMIT || i.orderType == STOP_LIMIT) && i.limitPrice.Some? then
      var notional := NotionalOf(i.limitPrice.value, i.quantity.value);
      if notional == 0 && i.limitPrice.value != 0 && i.quantity.value != 0 then None else Some(notional)
    else None
  }

  // ---------------------------------------------------------------------------
  // Rounding
  // ---------------------------------------------------------------------------

  /** The least amount that covers a product. */
  predicate IsCeiling(n: int, product: int) {
    n * UNITS_PER_QUANTITY >= product && (n - 1) * UNITS_PER_QUANTITY < product
  }

  /** Whether a price and a quantity have a notional the platform can represent. */
  predicate Representable(price: Amount, quantity: Quantity) {
    Abs(price * quantity) <= Int64.MAX * UNITS_PER_QUANTITY
  }

  /** An amount that charges a signed product: the least magnitude that covers it, with its
      sign. */
  predicate Charges(n: int, product: int) {
    IsCeiling(Abs(n), Abs(product)) && (n < 0 <==> product < 0)
  }

  lemma ProductNonNegative(x: int, y: int)
    requires x >= 0 && y >= 0
    ensures x * y >= 0
    ensures x > 0 && y > 0 ==> x * y > 0
  {
  }

  /** Whatever the signs, the charge covers price times quantity by the least magnitude
      exactly when that fits int64; otherwise it is zero, which the rules read as
      indeterminate. */
  lemma NotionalIsCeilingExactly(price: Amount, quantity: Quantity)
    ensures Charges(NotionalOf(price, quantity), price * quantity) <==> Representable(price, quantity)
    ensures !Representable(price, quantity) ==> NotionalOf(price, quantity) == 0
    ensures price >= 0 && quantity >= 0 ==> price * quantity >= 0 && NotionalOf(price, quantity) >= 0
  {
    if price >= 0 && quantity >= 0 { ProductNonNegative(price, quantity); }
    if price == 0 || quantity == 0 { assert price * quantity == 0; }
    CeilingOf(Abs(price * quantity));
  }

  function Ceiling(product: nat): nat {
    if product % UNITS_PER_QUANTITY != 0 then product / UNITS_PER_QUANTITY + 1 else product / UNITS_PER_QUANTITY
  }

  lemma CeilingOf(product: nat)
    ensures IsCeiling(Ceiling(product), product)
    ensures Ceiling(product) <= Int64.MAX <==> product <= Int64.MAX * UNITS_PER_QUANTITY
  {
  }

  /** Selling a quantity charges as buying it: the sign of the product survives, the
      magnitude rounds up. */
  lemma NotionalSigned(price: Amount, quantity: Quantity, opposite: Quantity)
    requires opposite + quantity == 0
    ensures NotionalOf(price, opposite) + NotionalOf(price, quantity) == 0
    ensures NotionalOf(opposite, price) + NotionalOf(quantity, price) == 0
  {
    NegatedProduct(price, quantity);
    NegatedProduct(quantity, price);
  }

  lemma NegatedProduct(x: int, y: int)
    ensures (-x) * y == -(x * y) && x * (-y) == -(x * y)
  {
  }

  lemma ProductMonotone(p: int, q: int, p': int, q': int)
    requires 0 <= p <= p' && 0 <= q <= q'
    ensures p * q <= p' * q'
  {
    assert p * q <= p * q' by { assert p * (q' - q) >= 0; }
    assert p * q' <= p' * q' by { assert (p' - p) * q' >= 0; }
  }

  /** A larger order is never charged less, as long as it is representable; beyond that it
      would be charged nothing, which is why zero is not read as an amount. */
  lemma NotionalMonotone(p: Amount, q: Quantity, p': Amount, q': Quantity)
    requires 0 <= p <= p' && 0 <= q <= q' && Representable(p', q')
    ensures 0 <= NotionalOf(p, q) <= NotionalOf(p', q')
  {
    ProductMonotone(p, q, p', q');
    NotionalIsCeilingExactly(p, q);
    NotionalIsCeilingExactly(p', q');
    ProductNonNegative(p, q);
  }

  /** A limit price bounds what the order can cost: any fill at no more than the limit, of no
      more than the quantity, costs no more than the notional charged. */
  lemma LimitBoundsTheFill(i: Intent, price: Amount, filled: Quantity)
    requires i.notional.None? && AuthorityNotional(i).Some?
    requires i.limitPrice.Some? && i.quantity.Some?
    requires 0 <= price <= i.limitPrice.value && 0 <= filled <= i.quantity.value
    ensures price * filled <= AuthorityNotional(i).value * UNITS_PER_QUANTITY
  {
    var p, q := i.limitPrice.value, i.quantity.value;
    ProductMonotone(price, filled, p, q);
    NotionalIsCeilingExactly(p, q);
    if !Representable(p, q) {
      ProductNonNegative(p, q);
    }
  }

  /** The meaning of the rule, with no word of how it is computed: a given notional is
      itself; a quantity with a limit price commits what charges their product. */
  predicate Commits(i: Intent, n: Amount) {
    if i.notional.Some? then n == i.notional.value
    else
      && i.quantity.Some? && i.limitPrice.Some? && (i.orderType == LIMIT || i.orderType == STOP_LIMIT)
      && Charges(n, i.limitPrice.value * i.quantity.value)
      && Representable(i.limitPrice.value, i.quantity.value)
  }

  lemma ChargesOnlyOne(n: int, m: int, product: int)
    requires Charges(n, product) && Charges(m, product)
    ensures n == m
  {
  }

  /** The three copies are one rule on every intent, of either sign, and it is the rule
      meant: the amount is determined exactly when the intent commits one. */
  lemma RulesAgree(i: Intent)
    ensures AuthorityNotional(i) == PolicyNotional(i) == ClusterNotional(i)
    ensures forall n: Amount :: AuthorityNotional(i) == Some(n) <==> Commits(i, n)
  {
    if i.notional.None? && i.quantity.Some? && i.limitPrice.Some? {
      var p, q := i.limitPrice.value, i.quantity.value;
      NotionalIsCeilingExactly(p, q);
      ProductZero(p, q);
      forall n: Amount | Commits(i, n) ensures n == NotionalOf(p, q) {
        ChargesOnlyOne(n, NotionalOf(p, q), (p as int) * q);
      }
    }
  }

  lemma ProductZero(x: int, y: int)
    ensures x * y == 0 <==> x == 0 || y == 0
  {
  }

  /** Exactly which intents have a notional. */
  lemma DeterminableExactly(i: Intent)
    ensures AuthorityNotional(i).Some? <==>
      || i.notional.Some?
      || (i.quantity.Some? && i.limitPrice.Some? && (i.orderType == LIMIT || i.orderType == STOP_LIMIT)
          && Representable(i.limitPrice.value, i.quantity.value))
  {
    if i.quantity.Some? && i.limitPrice.Some? {
      NotionalIsCeilingExactly(i.limitPrice.value, i.quantity.value);
      ProductZero(i.limitPrice.value, i.quantity.value);
    }
  }

  // ---------------------------------------------------------------------------
  // Splitting
  // ---------------------------------------------------------------------------

  function SumQuantities(pieces: seq<Quantity>): int {
    if pieces == [] then 0 else pieces[0] + SumQuantities(pieces[1..])
  }

  function SumNotionals(price: Amount, pieces: seq<Quantity>): int {
    if pieces == [] then 0 else NotionalOf(price, pieces[0]) + SumNotionals(price, pieces[1..])
  }

  predicate NonNegative(pieces: seq<Quantity>) {
    forall i :: 0 <= i < |pieces| ==> pieces[i] >= 0
  }

  lemma {:induction false} SumNonNegative(pieces: seq<Quantity>)
    requires NonNegative(pieces)
    ensures SumQuantities(pieces) >= 0
    decreases |pieces|
  {
    if pieces != [] { SumNonNegative(pieces[1..]); }
  }

  /** Each piece is charged between its exact cost and one unit more. */
  lemma {:induction false} PiecesBound(price: Amount, pieces: seq<Quantity>)
    requires price >= 0 && NonNegative(pieces)
    requires price * SumQuantities(pieces) <= Int64.MAX * UNITS_PER_QUANTITY
    ensures SumNotionals(price, pieces) * UNITS_PER_QUANTITY >= price * SumQuantities(pieces)
    ensures pieces != [] ==> SumNotionals(price, pieces) * UNITS_PER_QUANTITY < price * SumQuantities(pieces) + |pieces| * UNITS_PER_QUANTITY
    decreases |pieces|
  {
    if pieces != [] {
      var q, rest := pieces[0], SumQuantities(pieces[1..]);
      SumNonNegative(pieces[1..]);
      ProductMonotone(price, q, price, q + rest);
      ProductMonotone(price, rest, price, q + rest);
      Splits(price, q, rest);
      PiecesBound(price, pieces[1..]);
      NotionalIsCeilingExactly(price, q);
    }
  }

  lemma Splits(p: int, q: int, r: int)
    ensures p * (q + r) == p * q + p * r
  {
  }

  /** Splitting an order never lowers its charge, and raises it by less than one unit a
      piece. */
  lemma SplittingNeverPays(price: Amount, pieces: seq<Quantity>)
    requires price >= 0 && pieces != [] && NonNegative(pieces)
    requires Int64.Fits(SumQuantities(pieces)) && Representable(price, SumQuantities(pieces))
    ensures NotionalOf(price, SumQuantities(pieces)) <= SumNotionals(price, pieces) < NotionalOf(price, SumQuantities(pieces)) + |pieces|
  {
    SumNonNegative(pieces);
    PiecesBound(price, pieces);
    NotionalIsCeilingExactly(price, SumQuantities(pieces));
  }

  /** Beyond the representable the claim is false, at a price and quantities the parsers
      return: three units at the largest price do not fit and are charged nothing, while the
      halves are charged in full. */
  lemma UnrepresentableWhole()
    ensures var p, h: Quantity := Int64.AMOUNT_MAX, 150_000_000;
      && !Representable(p, h + h)
      && NotionalOf(p, h + h) == 0 && NotionalOf(p, h) == 6_917_529_027_641_084_999
  {
  }
}
