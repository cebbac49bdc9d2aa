/** Compiling authored policy (internal/policy/compile.go, authoring.go): every rule that
    compiles does what its author wrote. */
module PolicyCompile {
  import opened Wrappers
  import Money
  import opened Notional
  import opened PolicyRules
  import opened StringOrder

  /** Upper case, as far as it can make the ASCII names compared below: besides the letters
      a to z, the dotless i and the long s become ASCII. */
  function UpperChar(c: char): char {
    if 'a' <= c <= 'z' then ((c as int) - 32) as char
    else if c == '\U{131}' then 'I'
    else if c == '\U{17f}' then 'S'
    else c
  }

  function Upper(s: string): string {
    if s == "" then "" else [UpperChar(s[0])] + Upper(s[1..])
  }

  function Normal(s: string): string {
    Upper(Money.Trim(s))
  }

  /** Upper case changes no ASCII character but a small letter, into its capital. */
  lemma {:induction false} UpperMeans(s: string)
    ensures |Upper(s)| == |s|
    ensures forall i :: 0 <= i < |s| && 'a' <= s[i] <= 'z' ==> 'A' <= Upper(s)[i] <= 'Z' && Upper(s)[i] as int - 'A' as int == s[i] as int - 'a' as int
    ensures forall i :: 0 <= i < |s| && s[i] < '\U{80}' && !('a' <= s[i] <= 'z') ==> Upper(s)[i] == s[i]
    decreases |s|
  {
    if s != "" { UpperMeans(s[1..]); }
  }

  predicate Blank(s: string) {
    Money.Trim(s) == ""
  }

  function ActionNamed(raw: string): Option<Action> {
    var a := Normal(raw);
    if a == "ALLOW" then Some(Allow)
    else if a == "OBSERVE" then Some(Observe)
    else if a == "DELAY" then Some(Delay)
    else if a == "THROTTLE" then Some(Throttle)
    else if a == "REQUIRE_APPROVAL" then Some(RequireApproval)
    else if a == "DENY" then Some(Deny)
    else None
  }

  predicate KnownClass(name: string) {
    name == "EQUITY" || name == "ETF" || name == "OPTION" || name == "CRYPTO"
  }

  predicate KnownSide(name: string) {
    name == BUY || name == SELL
  }

  predicate KnownType(name: string) {
    name == MARKET || name == LIMIT || name == STOP || name == STOP_LIMIT
  }

  // ---------------------------------------------------------------------------
  // What the author wrote
  // ---------------------------------------------------------------------------

  /** An authored name constrains nothing when empty, and otherwise names a value up to case
      and surrounding space. */
  predicate Names(authored: string, actual: string) {
    authored == "" || Normal(authored) == actual
  }

  /** The instruments a rule names. */
  function Named(r: SourceRule): set<string> {
    set s | s in [r.instrument] + r.instruments && !Blank(s)
  }

  predicate Matches(r: SourceRule, i: Intent, n: Amount) {
    && Names(r.assetClass, i.assetClass) && Names(r.side, i.side) && Names(r.orderType, i.orderType)
    && (Named(r) == {} || i.instrumentID in Named(r))
    && (r.extendedHours.Some? ==> i.extendedHours == r.extendedHours.value)
    && WithinBounds(r.bounds, n)
  }

  predicate Requires(r: SourceRule) {
    r.requireLTE.Some? || r.requireGTE.Some?
  }

  predicate Holds(r: SourceRule, n: Amount) {
    (r.requireLTE.Some? ==> n <= r.requireLTE.value) && (r.requireGTE.Some? ==> n >= r.requireGTE.value)
  }

  predicate DependsOnSize(r: SourceRule) {
    r.bounds != Bounds(None, None, None, None) || Requires(r)
  }

  /** When an authored rule's action applies: its conditions match and its requirement, if it
      has one, fails; an order of unknown size counts as failing any rule that depends on
      size, unless the rule would only allow. */
  predicate Applies(r: SourceRule, i: Intent, notional: Option<Amount>) {
    if DependsOnSize(r) && notional.None? then ActionNamed(r.action) != Some(Allow)
    else
      var n := if notional.Some? then notional.value else 0;
      Matches(r, i, n) && (Requires(r) ==> !Holds(r, n))
  }

  // ---------------------------------------------------------------------------
  // What is wrong with a rule
  // ---------------------------------------------------------------------------

  datatype Problem =
    | NoRules
    | NoID(index: nat) | DuplicateID(index: nat)
    | BadAction(index: nat) | BadAssetClass(index: nat) | BadSide(index: nat) | BadOrderType(index: nat)
    | BadBounds(index: nat, text: string)

  /** The thresholds a rule may carry. */
  datatype Field = WhenGT | WhenGTE | WhenLT | WhenLTE | RequireLTE | RequireGTE

  /** The name its author knows a threshold by. */
  function Name(f: Field): string {
    match f
    case WhenGT => "when.notional_gt"
    case WhenGTE => "when.notional_gte"
    case WhenLT => "when.notional_lt"
    case WhenLTE => "when.notional_lte"
    case RequireLTE => "require.notional_lte"
    case RequireGTE => "require.notional_gte"
  }

  function Threshold(r: CompiledRule, f: Field): Option<Amount> {
    match f
    case WhenGT => r.bounds.gt
    case WhenGTE => r.bounds.gte
    case WhenLT => r.bounds.lt
    case WhenLTE => r.bounds.lte
    case RequireLTE => r.requireLTE
    case RequireGTE => r.requireGTE
  }

  const THRESHOLDS: set<Field> := {WhenGT, WhenGTE, WhenLT, WhenLTE, RequireLTE, RequireGTE}

  predicate Negative(r: CompiledRule, f: Field) {
    Threshold(r, f).Some? && Threshold(r, f).value < 0
  }

  function NegativeText(place: string, f: Field): string {
    place + ": " + Name(f) + " is negative"
  }

  function OpenText(place: string): string {
    place + ": notional_gt not below notional_lt"
  }

  function ClosedText(place: string): string {
    place + ": notional_gte exceeds notional_lte"
  }

  function RequireText(place: string): string {
    place + ": require bounds contradict"
  }

  predicate OpenConflict(b: Bounds) {
    b.gt.Some? && b.lt.Some? && b.gt.value >= b.lt.value
  }

  predicate ClosedConflict(b: Bounds) {
    b.gte.Some? && b.lte.Some? && b.gte.value > b.lte.value
  }

  predicate RequireConflict(r: CompiledRule) {
    r.requireLTE.Some? && r.requireGTE.Some? && r.requireGTE.value > r.requireLTE.value
  }

  function NegativeOne(place: string, r: CompiledRule, name: Field): multiset<string> {
    if Negative(r, name) then multiset{NegativeText(place, name)} else multiset{}
  }

  /** What each of some fields contributes, together. */
  ghost function Bag<F>(one: F -> multiset<string>, fields: set<F>): multiset<string>
    decreases |fields|
  {
    if fields == {} then multiset{}
    else
      var f :| f in fields;
      one(f) + Bag(one, fields - {f})
  }

  lemma {:induction false} BagPick<F>(one: F -> multiset<string>, fields: set<F>, x: F)
    requires x in fields
    ensures Bag(one, fields) == one(x) + Bag(one, fields - {x})
    decreases |fields|
  {
    var f :| f in fields && Bag(one, fields) == one(f) + Bag(one, fields - {f});
    if f != x {
      BagPick(one, fields - {f}, x);
      BagPick(one, fields - {x}, f);
      assert fields - {f} - {x} == fields - {x} - {f};
      Exchange(one(f), one(x), Bag(one, fields - {f} - {x}));
    }
  }

  lemma Exchange(a: multiset<string>, b: multiset<string>, c: multiset<string>)
    ensures a + (b + c) == b + (a + c)
  {
  }

  lemma {:induction false} BagEmpty<F>(one: F -> multiset<string>, fields: set<F>)
    ensures Bag(one, fields) == multiset{} <==> forall f :: f in fields ==> one(f) == multiset{}
    decreases |fields|
  {
    if fields != {} {
      var f :| f in fields && Bag(one, fields) == one(f) + Bag(one, fields - {f});
      BagEmpty(one, fields - {f});
      if one(f) != multiset{} {
        var t :| t in one(f);
        assert t in Bag(one, fields);
      }
    }
  }

  /** The texts for the negative thresholds among some. */
  ghost function NegativeTexts(place: string, r: CompiledRule, fields: set<Field>): multiset<string> {
    Bag((f: Field) => NegativeOne(place, r, f), fields)
  }

  lemma NegativePick(place: string, r: CompiledRule, fields: set<Field>, x: Field)
    requires x in fields
    ensures NegativeTexts(place, r, fields) == NegativeOne(place, r, x) + NegativeTexts(place, r, fields - {x})
  {
    BagPick((f: Field) => NegativeOne(place, r, f), fields, x);
  }

  function ConflictTexts(place: string, r: CompiledRule): seq<string> {
    (if OpenConflict(r.bounds) then [OpenText(place)] else [])
    + (if ClosedConflict(r.bounds) then [ClosedText(place)] else [])
    + (if RequireConflict(r) then [RequireText(place)] else [])
  }

  /** No threshold is negative and no pair is contradictory. */
  predicate BoundsSound(r: CompiledRule) {
    (forall f: Field :: !Negative(r, f)) && !OpenConflict(r.bounds) && !ClosedConflict(r.bounds) && !RequireConflict(r)
  }

  method SortedCopy(s: seq<string>) returns (sorted: seq<string>)
    ensures Sorted(sorted) && multiset(sorted) == multiset(s)
  {
    var a := new string[|s|](i requires 0 <= i < |s| => s[i]);
    assert a[..] == s;
    SortStrings(a);
    sorted := a[..];
  }

  /** The thresholds, visited in whatever order a map yields them. */
  method NegativeProblems(place: string, r: CompiledRule) returns (problems: seq<string>)
    ensures multiset(problems) == NegativeTexts(place, r, THRESHOLDS)
  {
    var rest := THRESHOLDS;
    problems := [];
    while rest != {}
      invariant rest <= THRESHOLDS
      invariant multiset(problems) + NegativeTexts(place, r, rest) == NegativeTexts(place, r, THRESHOLDS)
    {
      var name :| name in rest;
      NegativePick(place, r, rest, name);
      if Negative(r, name) { problems := problems + [NegativeText(place, name)]; }
      rest := rest - {name};
    }
  }

  /** The problems come out the same whatever that order was: the one sorted list of exactly
      these texts. */
  method BoundsProblems(place: string, r: CompiledRule) returns (problems: seq<string>)
    ensures Sorted(problems)
    ensures multiset(problems) == NegativeTexts(place, r, THRESHOLDS) + multiset(ConflictTexts(place, r))
  {
    var negative := NegativeProblems(place, r);
    var conflicts := ConflictProblems(place, r);
    problems := SortedCopy(negative + conflicts);
  }

  /** What that contract leaves open is nothing. */
  lemma BoundsProblemsDetermined(place: string, r: CompiledRule, s: seq<string>, t: seq<string>)
    requires Sorted(s) && multiset(s) == NegativeTexts(place, r, THRESHOLDS) + multiset(ConflictTexts(place, r))
    requires Sorted(t) && multiset(t) == NegativeTexts(place, r, THRESHOLDS) + multiset(ConflictTexts(place, r))
    ensures s == t
  {
    SortedOnce(s, t);
  }

  method ConflictProblems(place: string, r: CompiledRule) returns (problems: seq<string>)
    ensures problems == ConflictTexts(place, r)
  {
    problems := [];
    if OpenConflict(r.bounds) { problems := problems + [OpenText(place)]; }
    if ClosedConflict(r.bounds) { problems := problems + [ClosedText(place)]; }
    if RequireConflict(r) { problems := problems + [RequireText(place)]; }
  }

  // ---------------------------------------------------------------------------
  // Compiling
  // ---------------------------------------------------------------------------

  function Kept(many: seq<string>): seq<string> {
    if many == [] then []
    else Kept(many[..|many| - 1]) + if Blank(many[|many| - 1]) then [] else [many[|many| - 1]]
  }

  function Merged(single: string, many: seq<string>): seq<string> {
    (if Blank(single) then [] else [single]) + Kept(many)
  }

  method MergeInstruments(single: string, many: seq<string>) returns (out: seq<string>)
    ensures out == Merged(single, many)
  {
    out := [];
    if !Blank(single) { out := out + [single]; }
    ghost var first := out;
    for i := 0 to |many|
      invariant out == first + Kept(many[..i])
    {
      assert many[..i + 1][..i] == many[..i];
      if !Blank(many[i]) { out := out + [many[i]]; }
    }
    assert many[..|many|] == many;
  }

  lemma {:induction false} KeptIs(many: seq<string>)
    ensures forall s :: s in Kept(many) <==> s in many && !Blank(s)
    decreases |many|
  {
    if many != [] {
      KeptIs(many[..|many| - 1]);
      assert many == many[..|many| - 1] + [many[|many| - 1]];
    }
  }

  function NameOrNone(authored: string): string {
    if authored == "" then "" else Normal(authored)
  }

  /** The rule as the compiler writes it. */
  function Compiled(r: SourceRule, action: Action): CompiledRule {
    CompiledRule(r.id, action, NameOrNone(r.assetClass), NameOrNone(r.side), NameOrNone(r.orderType),
                 Merged(r.instrument, r.instruments), r.bounds, r.extendedHours, r.requireLTE, r.requireGTE, DependsOnSize(r))
  }

  /** What the compiler demands of one rule on its own. */
  predicate RuleSound(r: SourceRule) {
    && !Blank(r.id) && ActionNamed(r.action).Some?
    && (r.assetClass != "" ==> KnownClass(Normal(r.assetClass)))
    && (r.side != "" ==> KnownSide(Normal(r.side)))
    && (r.orderType != "" ==> KnownType(Normal(r.orderType)))
    && BoundsSound(Compiled(r, ActionNamed(r.action).value))
  }

  predicate IdsOnce(src: seq<SourceRule>) {
    forall i, j :: 0 <= i < j < |src| && !Blank(src[i].id) ==> src[i].id != src[j].id
  }

  predicate Compiles(src: seq<SourceRule>) {
    src != [] && IdsOnce(src) && forall k :: 0 <= k < |src| ==> RuleSound(src[k])
  }

  ghost predicate CompilesTo(src: seq<SourceRule>, rules: seq<CompiledRule>) {
    |rules| == |src| && forall k :: 0 <= k < |src| ==> ActionNamed(src[k].action).Some? && rules[k] == Compiled(src[k], ActionNamed(src[k].action).value)
  }

  /** The names of one rule. */
  method NameProblems(k: nat, r: SourceRule) returns (problems: seq<Problem>)
    ensures problems == [] <==>
      && (r.assetClass != "" ==> KnownClass(Normal(r.assetClass)))
      && (r.side != "" ==> KnownSide(Normal(r.side)))
      && (r.orderType != "" ==> KnownType(Normal(r.orderType)))
  {
    problems := [];
    if r.assetClass != "" && !KnownClass(Normal(r.assetClass)) { problems := problems + [BadAssetClass(k)]; }
    if r.side != "" && !KnownSide(Normal(r.side)) { problems := problems + [BadSide(k)]; }
    if r.orderType != "" && !KnownType(Normal(r.orderType)) { problems := problems + [BadOrderType(k)]; }
  }

  lemma NoNegatives(place: string, r: CompiledRule)
    ensures NegativeTexts(place, r, THRESHOLDS) == multiset{} <==> forall f: Field :: !Negative(r, f)
  {
    BagEmpty((f: Field) => NegativeOne(place, r, f), THRESHOLDS);
    AllFields();
    assert forall f: Field :: Negative(r, f) ==> NegativeText(place, f) in NegativeOne(place, r, f);
  }

  lemma AllFields()
    ensures forall f: Field :: f in THRESHOLDS
  {
    forall f: Field ensures f in THRESHOLDS {
      match f
      case WhenGT =>
      case WhenGTE =>
      case WhenLT =>
      case WhenLTE =>
      case RequireLTE =>
      case RequireGTE =>
    }
  }

  /** The thresholds of one rule, reported under its place in the file. */
  method ThresholdProblems(k: nat, r: CompiledRule) returns (problems: seq<Problem>)
    ensures problems == [] <==> BoundsSound(r)
  {
    var texts := BoundsProblems(if r.id != "" then "rule " + r.id else "rule", r);
    ghost var place := if r.id != "" then "rule " + r.id else "rule";
    NoNegatives(place, r);
    assert texts == [] <==> multiset(texts) == multiset{} by {
      if texts != [] { assert texts[0] in multiset(texts); }
    }
    SumEmpty(NegativeTexts(place, r, THRESHOLDS), ConflictTexts(place, r));
    NoConflicts(place, r);
    problems := [];
    for j := 0 to |texts|
      invariant |problems| == j
    {
      problems := problems + [BadBounds(k, texts[j])];
    }
  }

  lemma SumEmpty(a: multiset<string>, b: seq<string>)
    ensures a + multiset(b) == multiset{} <==> a == multiset{} && b == []
  {
    if b != [] { assert b[0] in multiset(b); }
    if a != multiset{} {
      var x :| x in a;
      assert x in a + multiset(b);
    }
  }

  lemma NoConflicts(place: string, r: CompiledRule)
    ensures ConflictTexts(place, r) == [] <==> !OpenConflict(r.bounds) && !ClosedConflict(r.bounds) && !RequireConflict(r)
  {
  }

  /** Reports every problem of every rule; there are none exactly when the source compiles,
      and then each compiled rule is its source rule's. */
  method CompileRules(src: seq<SourceRule>) returns (rules: seq<CompiledRule>, problems: seq<Problem>)
    ensures problems == [] <==> Compiles(src)
    ensures problems == [] ==> CompilesTo(src, rules)
  {
    problems, rules := [], [];
    if src == [] { problems := [NoRules]; }
    var seen: set<string> := {};
    for k := 0 to |src|
      invariant seen == SeenIn(src[..k])
      invariant problems == [] <==> src != [] && SoundRules(src[..k])
      invariant rules == CompiledAll(src[..k])
    {
      assert src[..k + 1][..k] == src[..k];
      var ids := IdProblems(k, src[k], seen);
      var compiled, faults := CompileRule(k, src[k]);
      if !Blank(src[k].id) { seen := seen + {src[k].id}; }
      problems := problems + ids + faults;
      rules := rules + [compiled];
    }
    assert src[..|src|] == src;
    SoundRulesCompile(src);
  }

  /** The ids a duplicate is looked for among. */
  function SeenIn(src: seq<SourceRule>): set<string> {
    if src == [] then {}
    else SeenIn(src[..|src| - 1]) + if Blank(src[|src| - 1].id) then {} else {src[|src| - 1].id}
  }

  predicate SoundRules(src: seq<SourceRule>) {
    src == [] ||
    (SoundRules(src[..|src| - 1]) && RuleSound(src[|src| - 1]) && src[|src| - 1].id !in SeenIn(src[..|src| - 1]))
  }

  /** A rule as compiled even when its action is not one. */
  function CompiledAnyway(r: SourceRule): CompiledRule {
    Compiled(r, if ActionNamed(r.action).Some? then ActionNamed(r.action).value else Allow)
  }

  function CompiledAll(src: seq<SourceRule>): (rules: seq<CompiledRule>)
    ensures |rules| == |src| && forall k :: 0 <= k < |src| ==> rules[k] == CompiledAnyway(src[k])
  {
    if src == [] then [] else CompiledAll(src[..|src| - 1]) + [CompiledAnyway(src[|src| - 1])]
  }

  lemma {:induction false} SeenIs(src: seq<SourceRule>, id: string)
    requires !Blank(id)
    ensures id in SeenIn(src) <==> exists k :: 0 <= k < |src| && src[k].id == id
    decreases |src|
  {
    if src != [] {
      SeenIs(src[..|src| - 1], id);
      assert src == src[..|src| - 1] + [src[|src| - 1]];
    }
  }

  lemma {:induction false} SoundRulesAre(src: seq<SourceRule>)
    ensures SoundRules(src) <==> IdsOnce(src) && forall k :: 0 <= k < |src| ==> RuleSound(src[k])
    decreases |src|
  {
    if src != [] {
      var before, last := src[..|src| - 1], src[|src| - 1];
      SoundRulesAre(before);
      if !Blank(last.id) { SeenIs(before, last.id); }
      SplitLast(src);
    }
  }

  /** Both conditions, taken apart at the last rule. */
  lemma SplitLast(src: seq<SourceRule>)
    requires src != []
    ensures var before, last := src[..|src| - 1], src[|src| - 1];
      && ((forall k :: 0 <= k < |src| ==> RuleSound(src[k])) <==> (forall k :: 0 <= k < |before| ==> RuleSound(before[k])) && RuleSound(last))
      && (IdsOnce(src) <==> IdsOnce(before) && (Blank(last.id) || forall k :: 0 <= k < |before| ==> before[k].id != last.id))
  {
    var before, last := src[..|src| - 1], src[|src| - 1];
    assert src == before + [last];
    assert forall k :: 0 <= k < |before| ==> before[k] == src[k];
  }

  lemma SoundRulesCompile(src: seq<SourceRule>)
    ensures Compiles(src) <==> src != [] && SoundRules(src)
    ensures Compiles(src) ==> CompilesTo(src, CompiledAll(src))
  {
    SoundRulesAre(src);
    assert forall k :: 0 <= k < |src| && RuleSound(src[k]) ==> ActionNamed(src[k].action).Some?;
  }

  method IdProblems(k: nat, r: SourceRule, seen: set<string>) returns (problems: seq<Problem>)
    ensures problems == [] <==> !Blank(r.id) && r.id !in seen
  {
    if Blank(r.id) { return [NoID(k)]; }
    if r.id in seen { return [DuplicateID(k)]; }
    return [];
  }

  /** One rule, with everything wrong with it but its id. */
  method CompileRule(k: nat, r: SourceRule) returns (compiled: CompiledRule, problems: seq<Problem>)
    ensures problems == [] && !Blank(r.id) <==> RuleSound(r)
    ensures compiled == CompiledAnyway(r)
  {
    problems := [];
    var action := ActionNamed(r.action);
    if action.None? { problems := [BadAction(k)]; }
    var names := NameProblems(k, r);
    var instruments := MergeInstruments(r.instrument, r.instruments);
    compiled := CompiledRule(r.id, if action.Some? then action.value else Allow,
      NameOrNone(r.assetClass), NameOrNone(r.side), NameOrNone(r.orderType), instruments,
      r.bounds, r.extendedHours, r.requireLTE, r.requireGTE, DependsOnSize(r));
    var bounds := ThresholdProblems(k, compiled);
    problems := problems + names + bounds;
  }

  // ---------------------------------------------------------------------------
  // Meaning is preserved
  // ---------------------------------------------------------------------------

  lemma MergedIsNamed(r: SourceRule)
    ensures Merged(r.instrument, r.instruments) == [] <==> Named(r) == {}
    ensures forall s :: s in Merged(r.instrument, r.instruments) <==> s in Named(r)
  {
    KeptIs(r.instruments);
    var merged := Merged(r.instrument, r.instruments);
    forall s ensures s in merged <==> s in Named(r) {
      assert s in [r.instrument] + r.instruments <==> s == r.instrument || s in r.instruments;
    }
    if merged != [] { assert merged[0] in Named(r); }
  }

  lemma NameMeans(authored: string, actual: string)
    requires authored != "" ==> Normal(authored) != ""
    ensures Names(authored, actual) <==> NameOrNone(authored) == "" || NameOrNone(authored) == actual
  {
  }

  /** A rule that compiles fires exactly when its author's rule applies. */
  lemma CompilationPreservesMeaning(r: SourceRule, i: Intent, notional: Option<Amount>)
    requires RuleSound(r)
    ensures RuleFires(Compiled(r, ActionNamed(r.action).value), i, notional) <==> Applies(r, i, notional)
    ensures Compiled(r, ActionNamed(r.action).value).id == r.id
  {
    MergedIsNamed(r);
    NameMeans(r.assetClass, i.assetClass);
    NameMeans(r.side, i.side);
    NameMeans(r.orderType, i.orderType);
  }

  /** The most severe action among the authored rules that apply. */
  ghost predicate SourceStrictest(src: seq<SourceRule>, i: Intent, notional: Option<Amount>, a: Action) {
    && (forall k :: 0 <= k < |src| && Applies(src[k], i, notional) ==>
          ActionNamed(src[k].action).Some? && Severity(ActionNamed(src[k].action).value) <= Severity(a))
    && (a == Allow || exists k :: 0 <= k < |src| && Applies(src[k], i, notional) && ActionNamed(src[k].action) == Some(a))
  }

  /** For every source that compiles and every order, known size or not, the decision is the
      most severe action among the authored rules that apply. */
  lemma EvaluationIsTheSource(src: seq<SourceRule>, rules: seq<CompiledRule>, i: Intent, notional: Option<Amount>)
    requires Compiles(src) && CompilesTo(src, rules)
    ensures SourceStrictest(src, i, notional, Evaluate(rules, i, notional).action)
    ensures forall k :: 0 <= k < |rules| ==> NeedsMarked(rules[k])
  {
    EvaluateIsStrictest(rules, i, notional);
    forall k | 0 <= k < |src| ensures RuleFires(rules[k], i, notional) <==> Applies(src[k], i, notional) {
      CompilationPreservesMeaning(src[k], i, notional);
    }
    var a := Evaluate(rules, i, notional).action;
    if a != Allow {
      var k :| 0 <= k < |rules| && RuleFires(rules[k], i, notional) && rules[k].action == a;
      assert Applies(src[k], i, notional);
    }
  }
}
