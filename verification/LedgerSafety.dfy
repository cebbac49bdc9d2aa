/** The ceilings hold over every run of the ledger, whatever the replicas' clocks say. */
module LedgerSafety {
  import opened Idempotency
  import opened Ledger
  import Int64

  type Grants = map<(string, string), Limits>

  /** The non-released notional submitted in (w - 1h, w]. */
  ghost function HourTotal(rows: Rows, tenant: string, grant: string, w: int): int {
    Total(rows, Within(rows, tenant, grant, w - HOUR, w))
  }

  /** The non-released notional submitted on the d-th UTC day. */
  ghost function DayTotal(rows: Rows, tenant: string, grant: string, d: int): int {
    Total(rows, Within(rows, tenant, grant, d * DAY - 1, d * DAY + DAY - 1))
  }

  ghost predicate RollingHeld(rows: Rows, tenant: string, grant: string, limit: int) {
    forall w: int :: HourTotal(rows, tenant, grant, w) <= limit
  }

  ghost predicate DailyHeld(rows: Rows, tenant: string, grant: string, limit: int) {
    forall d: int :: DayTotal(rows, tenant, grant, d) <= limit
  }

  ghost predicate OpenHeld(rows: Rows, tenant: string, grant: string, limit: int) {
    |OpenRows(rows, tenant, grant)| <= limit
  }

  /** The largest notional that no readable sum can carry past int64. */
  const ROOM := Int64.MAX - PARSE_MAX

  /** An order whose comparisons cannot overflow on readable usage: it, or the per-order
      ceiling it must meet, leaves room above the largest readable sum. */
  predicate Fitting(l: Limits, notional: Amount) {
    notional <= ROOM || 0 < l.perOrder <= ROOM
  }

  /** The exact sums a reservation is compared on fit int64. */
  ghost predicate SumsFit(rows: Rows, g: Grant, notional: Amount, at: int) {
    var consumed := Consumed(rows, g.tenantID, g.grantID, at);
    && (g.limits.rolling1h > 0 ==> consumed.rolling1h + notional <= Int64.MAX)
    && (g.limits.daily > 0 ==> consumed.daily + notional <= Int64.MAX)
  }

  /** The reservation inserts a row. */
  ghost predicate Inserts(rows: Rows, g: Grant, key: string, notional: Amount, who: Identity, at: int) {
    Ident(g.tenantID, key) !in rows && Reserve(rows, g, key, notional, who, at).1.Allow?
  }

  /** Every configured ceiling of one grant. */
  ghost predicate Held(rows: Rows, tenant: string, grant: string, l: Limits) {
    && (l.rolling1h > 0 ==> RollingHeld(rows, tenant, grant, l.rolling1h))
    && (l.daily > 0 ==> DailyHeld(rows, tenant, grant, l.daily))
    && (l.maxOpen > 0 ==> OpenHeld(rows, tenant, grant, l.maxOpen))
  }

  ghost predicate AllHeld(rows: Rows, grants: Grants) {
    forall g :: g in grants ==> Held(rows, g.0, g.1, grants[g])
  }

  /** Removing weight: fewer rows count, each as much as before, and no row opens. */
  ghost predicate Lighter(rows: Rows, rows': Rows) {
    && (forall id :: id in rows' ==>
          id in rows && rows'[id].notional == rows[id].notional && rows'[id].submittedAt == rows[id].submittedAt
          && rows'[id].grantID == rows[id].grantID
          && (rows[id].state.Released? ==> rows'[id].state.Released?)
          && (rows'[id].open ==> rows[id].open))
  }

  lemma LighterTotal(rows: Rows, rows': Rows, tenant: string, grant: string, lo: int, hi: int)
    requires NonNegative(rows) && Lighter(rows, rows')
    ensures Total(rows', Within(rows', tenant, grant, lo, hi)) <= Total(rows, Within(rows, tenant, grant, lo, hi))
  {
    var sel' := Within(rows', tenant, grant, lo, hi);
    TotalSame(rows, rows', sel');
    TotalMonotone(rows, sel', Within(rows, tenant, grant, lo, hi));
  }

  lemma SubsetSize<T>(a: set<T>, b: set<T>)
    requires a <= b
    ensures |a| <= |b|
  {
    assert |b - a| == |b| - |a|;
  }

  lemma LighterHeld(rows: Rows, rows': Rows, tenant: string, grant: string, l: Limits)
    requires NonNegative(rows) && Lighter(rows, rows') && Held(rows, tenant, grant, l)
    ensures Held(rows', tenant, grant, l)
  {
    forall w: int
      ensures HourTotal(rows', tenant, grant, w) <= HourTotal(rows, tenant, grant, w)
    {
      LighterTotal(rows, rows', tenant, grant, w - HOUR, w);
    }
    forall d: int
      ensures DayTotal(rows', tenant, grant, d) <= DayTotal(rows, tenant, grant, d)
    {
      LighterTotal(rows, rows', tenant, grant, d * DAY - 1, d * DAY + DAY - 1);
    }
    SubsetSize(OpenRows(rows', tenant, grant), OpenRows(rows, tenant, grant));
  }

  lemma ReleaseLighter(rows: Rows, id: Ident)
    ensures Lighter(rows, Release(rows, id))
  {
  }

  lemma SettleLighter(rows: Rows, id: Ident, state: ReservationState, open: bool, at: int)
    requires Lawful(rows, id, state, open)
    ensures Lighter(rows, Settle(rows, id, state, open, at))
  {
  }

  /** One inserted row adds its notional to the windows that hold it and to no other. */
  lemma InsertTotal(rows: Rows, id: Ident, e: Entry, grant: string, lo: int, hi: int)
    requires id !in rows && !e.state.Released?
    ensures var rows' := rows[id := e];
      var sel := Within(rows, id.tenant, grant, lo, hi);
      var inside := e.grantID == grant && lo < e.submittedAt <= hi;
      Total(rows', Within(rows', id.tenant, grant, lo, hi)) == Total(rows, sel) + (if inside then e.notional else 0)
  {
    var rows' := rows[id := e];
    var sel := Within(rows, id.tenant, grant, lo, hi);
    var sel' := Within(rows', id.tenant, grant, lo, hi);
    TotalSame(rows, rows', sel);
    if e.grantID == grant && lo < e.submittedAt <= hi {
      assert sel' == sel + {id};
      TotalPick(rows', sel', id);
      assert sel' - {id} == sel;
    } else {
      assert sel' == sel;
    }
  }

  /** A window that holds a new reservation's instant holds nothing its own count missed. */
  lemma WindowCounted(rows: Rows, tenant: string, grant: string, from: int, lo: int, hi: int)
    requires NonNegative(rows) && from <= lo
    ensures 0 <= Total(rows, Within(rows, tenant, grant, lo, hi)) <= Total(rows, After(rows, tenant, grant, from))
  {
    TotalMonotone(rows, Within(rows, tenant, grant, lo, hi), After(rows, tenant, grant, from));
  }

  /** What a reservation that inserts established. */
  lemma AllowedMeans(rows: Rows, g: Grant, key: string, notional: Amount, who: Identity, at: int)
    requires NonNegative(rows) && Inserts(rows, g, key, notional, who, at)
    ensures notional >= 0
    ensures Reserve(rows, g, key, notional, who, at).0 == rows[Ident(g.tenantID, key) := NewEntry(g.grantID, who, notional, at)]
    ensures var consumed := Consumed(rows, g.tenantID, g.grantID, at);
      && consumed.rolling1h <= PARSE_MAX && consumed.daily <= PARSE_MAX
      && (g.limits.perOrder > 0 ==> notional <= g.limits.perOrder)
      && (SumsFit(rows, g, notional, at) && g.limits.rolling1h > 0 ==> consumed.rolling1h + notional <= g.limits.rolling1h)
      && (SumsFit(rows, g, notional, at) && g.limits.daily > 0 ==> consumed.daily + notional <= g.limits.daily)
      && (g.limits.maxOpen > 0 ==> consumed.openOrders < g.limits.maxOpen)
  {
  }

  /** A fitting order's sums fit whatever the ledger holds. */
  lemma FittingFits(rows: Rows, g: Grant, key: string, notional: Amount, who: Identity, at: int)
    requires NonNegative(rows) && Inserts(rows, g, key, notional, who, at) && Fitting(g.limits, notional)
    ensures SumsFit(rows, g, notional, at)
  {
    AllowedMeans(rows, g, key, notional, who, at);
  }

  /** The windows a reservation at `at` is compared on, within their ceilings. */
  ghost predicate WithinLimits(rows: Rows, g: Grant, at: int) {
    var consumed := Consumed(rows, g.tenantID, g.grantID, at);
    && (g.limits.rolling1h > 0 ==> consumed.rolling1h <= g.limits.rolling1h)
    && (g.limits.daily > 0 ==> consumed.daily <= g.limits.daily)
  }

  lemma InsertAfter(rows: Rows, id: Ident, e: Entry, lo: int)
    requires id !in rows && !e.state.Released? && e.submittedAt > lo
    ensures var rows' := rows[id := e];
      Total(rows', After(rows', id.tenant, e.grantID, lo)) == Total(rows, After(rows, id.tenant, e.grantID, lo)) + e.notional
  {
    var rows' := rows[id := e];
    var sel, sel' := After(rows, id.tenant, e.grantID, lo), After(rows', id.tenant, e.grantID, lo);
    assert sel' == sel + {id};
    TotalPick(rows', sel', id);
    assert sel' - {id} == sel;
    TotalSame(rows, rows', sel);
  }

  /** The consumed sums at the row's own instant. */
  lemma InsertConsumed(rows: Rows, id: Ident, e: Entry, lo: int, day: int)
    requires id !in rows && !e.state.Released?
    requires lo == e.submittedAt - HOUR && day == DayStart(e.submittedAt) - 1
    ensures var rows' := rows[id := e];
      && Total(rows', After(rows', id.tenant, e.grantID, lo)) == Total(rows, After(rows, id.tenant, e.grantID, lo)) + e.notional
      && Total(rows', After(rows', id.tenant, e.grantID, day)) == Total(rows, After(rows, id.tenant, e.grantID, day)) + e.notional
  {
    DayStartBefore(e.submittedAt);
    InsertAfter(rows, id, e, lo);
    InsertAfter(rows, id, e, day);
  }

  lemma DayStartBefore(at: int)
    ensures DayStart(at) - 1 < at
  {
  }

  /** An allowed reservation leaves the windows it was compared on within their ceilings if
      and only if its exact sums fit int64: past that, the wrapped sum is admitted and the
      ceiling broken. */
  lemma AllowedKeepsExactly(rows: Rows, g: Grant, key: string, notional: Amount, who: Identity, at: int)
    requires NonNegative(rows) && Inserts(rows, g, key, notional, who, at)
    ensures WithinLimits(Reserve(rows, g, key, notional, who, at).0, g, at) <==> SumsFit(rows, g, notional, at)
  {
    AllowedMeans(rows, g, key, notional, who, at);
    InsertConsumed(rows, Ident(g.tenantID, key), NewEntry(g.grantID, who, notional, at), at - HOUR, DayStart(at) - 1);
    assert Int64.Fits(g.limits.rolling1h) && Int64.Fits(g.limits.daily);
  }

  /** When no clock ran ahead, such a window is an hour or a day of the ledger. */
  lemma OverflowBreaks(rows: Rows, g: Grant, key: string, notional: Amount, who: Identity, at: int)
    requires NonNegative(rows) && Inserts(rows, g, key, notional, who, at)
    requires forall id :: id in rows ==> rows[id].submittedAt <= at
    requires !SumsFit(rows, g, notional, at)
    ensures !Held(Reserve(rows, g, key, notional, who, at).0, g.tenantID, g.grantID, g.limits)
  {
    var rows' := Reserve(rows, g, key, notional, who, at).0;
    AllowedMeans(rows, g, key, notional, who, at);
    AllowedKeepsExactly(rows, g, key, notional, who, at);
    PresentWindows(rows', g.tenantID, g.grantID, at);
    assert HourTotal(rows', g.tenantID, g.grantID, at) > g.limits.rolling1h > 0 || DayTotal(rows', g.tenantID, g.grantID, at / DAY) > g.limits.daily > 0;
  }

  lemma PresentWindows(rows: Rows, tenant: string, grant: string, at: int)
    requires forall id :: id in rows ==> rows[id].submittedAt <= at
    ensures Consumed(rows, tenant, grant, at).rolling1h == HourTotal(rows, tenant, grant, at)
    ensures Consumed(rows, tenant, grant, at).daily == DayTotal(rows, tenant, grant, at / DAY)
  {
    assert After(rows, tenant, grant, at - HOUR) == Within(rows, tenant, grant, at - HOUR, at);
    var d := at / DAY;
    assert DayStart(at) == d * DAY;
    assert After(rows, tenant, grant, DayStart(at) - 1) == Within(rows, tenant, grant, d * DAY - 1, d * DAY + DAY - 1);
  }

  lemma ReserveHour(rows: Rows, g: Grant, id: Ident, e: Entry, w: int)
    requires NonNegative(rows) && id !in rows && id.tenant == g.tenantID && e.grantID == g.grantID && !e.state.Released?
    requires Consumed(rows, g.tenantID, g.grantID, e.submittedAt).rolling1h + e.notional <= g.limits.rolling1h
    requires HourTotal(rows, g.tenantID, g.grantID, w) <= g.limits.rolling1h
    ensures HourTotal(rows[id := e], g.tenantID, g.grantID, w) <= g.limits.rolling1h
  {
    InsertTotal(rows, id, e, g.grantID, w - HOUR, w);
    if w - HOUR < e.submittedAt <= w {
      WindowCounted(rows, g.tenantID, g.grantID, e.submittedAt - HOUR, w - HOUR, w);
    }
  }

  lemma ReserveRolling(rows: Rows, g: Grant, id: Ident, e: Entry)
    requires NonNegative(rows) && id !in rows && id.tenant == g.tenantID && e.grantID == g.grantID && !e.state.Released?
    requires Consumed(rows, g.tenantID, g.grantID, e.submittedAt).rolling1h + e.notional <= g.limits.rolling1h
    requires RollingHeld(rows, g.tenantID, g.grantID, g.limits.rolling1h)
    ensures RollingHeld(rows[id := e], g.tenantID, g.grantID, g.limits.rolling1h)
  {
    var rows' := rows[id := e];
    forall w: int ensures HourTotal(rows', g.tenantID, g.grantID, w) <= g.limits.rolling1h {
      assert HourTotal(rows, g.tenantID, g.grantID, w) <= g.limits.rolling1h;
      ReserveHour(rows, g, id, e, w);
    }
  }

  lemma DayStartOf(d: int, at: int)
    requires d * DAY - 1 < at <= d * DAY + DAY - 1
    ensures DayStart(at) == d * DAY
  {
  }

  lemma ReserveDay(rows: Rows, g: Grant, id: Ident, e: Entry, d: int)
    requires NonNegative(rows) && id !in rows && id.tenant == g.tenantID && e.grantID == g.grantID && !e.state.Released?
    requires Consumed(rows, g.tenantID, g.grantID, e.submittedAt).daily + e.notional <= g.limits.daily
    requires DayTotal(rows, g.tenantID, g.grantID, d) <= g.limits.daily
    ensures DayTotal(rows[id := e], g.tenantID, g.grantID, d) <= g.limits.daily
  {
    InsertTotal(rows, id, e, g.grantID, d * DAY - 1, d * DAY + DAY - 1);
    if d * DAY - 1 < e.submittedAt <= d * DAY + DAY - 1 {
      DayStartOf(d, e.submittedAt);
      WindowCounted(rows, g.tenantID, g.grantID, DayStart(e.submittedAt) - 1, d * DAY - 1, d * DAY + DAY - 1);
    }
  }

  lemma ReserveDaily(rows: Rows, g: Grant, id: Ident, e: Entry)
    requires NonNegative(rows) && id !in rows && id.tenant == g.tenantID && e.grantID == g.grantID && !e.state.Released?
    requires Consumed(rows, g.tenantID, g.grantID, e.submittedAt).daily + e.notional <= g.limits.daily
    requires DailyHeld(rows, g.tenantID, g.grantID, g.limits.daily)
    ensures DailyHeld(rows[id := e], g.tenantID, g.grantID, g.limits.daily)
  {
    var rows' := rows[id := e];
    forall d: int ensures DayTotal(rows', g.tenantID, g.grantID, d) <= g.limits.daily {
      assert DayTotal(rows, g.tenantID, g.grantID, d) <= g.limits.daily;
      ReserveDay(rows, g, id, e, d);
    }
  }

  lemma ReserveOpen(rows: Rows, g: Grant, id: Ident, e: Entry)
    requires id !in rows && id.tenant == g.tenantID
    requires |OpenRows(rows, g.tenantID, g.grantID)| < g.limits.maxOpen
    ensures OpenHeld(rows[id := e], g.tenantID, g.grantID, g.limits.maxOpen)
  {
    var open' := OpenRows(rows[id := e], g.tenantID, g.grantID);
    SubsetSize(open', OpenRows(rows, g.tenantID, g.grantID) + {id});
  }

  /** Another grant's windows do not see the new row. */
  lemma ReserveElsewhere(rows: Rows, id: Ident, e: Entry, tenant: string, grant: string, l: Limits)
    requires NonNegative(rows) && id !in rows && (id.tenant != tenant || e.grantID != grant)
    requires Held(rows, tenant, grant, l)
    ensures Held(rows[id := e], tenant, grant, l)
  {
    var rows' := rows[id := e];
    forall lo: int, hi: int
      ensures Total(rows', Within(rows', tenant, grant, lo, hi)) == Total(rows, Within(rows, tenant, grant, lo, hi))
    {
      assert Within(rows', tenant, grant, lo, hi) == Within(rows, tenant, grant, lo, hi);
      TotalSame(rows, rows', Within(rows, tenant, grant, lo, hi));
    }
    forall w: int ensures HourTotal(rows', tenant, grant, w) == HourTotal(rows, tenant, grant, w) {
    }
    forall d: int ensures DayTotal(rows', tenant, grant, d) == DayTotal(rows, tenant, grant, d) {
    }
    assert OpenRows(rows', tenant, grant) == OpenRows(rows, tenant, grant);
  }

  /** One reservation keeps every ceiling of the grants in question, at every instant, if it
      is under another grant or the sums it is compared on fit. */
  lemma ReserveHeld(rows: Rows, grants: Grants, g: Grant, key: string, notional: Amount, who: Identity, at: int)
    requires NonNegative(rows) && AllHeld(rows, grants)
    requires (g.tenantID, g.grantID) in grants && Inserts(rows, g, key, notional, who, at) ==>
               grants[(g.tenantID, g.grantID)] == g.limits && SumsFit(rows, g, notional, at)
    ensures var rows' := Reserve(rows, g, key, notional, who, at).0; NonNegative(rows') && AllHeld(rows', grants)
  {
    if Inserts(rows, g, key, notional, who, at) {
      AllowedMeans(rows, g, key, notional, who, at);
      InsertHeld(rows, grants, g, Ident(g.tenantID, key), NewEntry(g.grantID, who, notional, at));
    }
  }

  lemma InsertHeld(rows: Rows, grants: Grants, g: Grant, id: Ident, e: Entry)
    requires NonNegative(rows) && AllHeld(rows, grants)
    requires id !in rows && id.tenant == g.tenantID && e.grantID == g.grantID && !e.state.Released? && e.notional >= 0
    requires (g.tenantID, g.grantID) in grants ==> grants[(g.tenantID, g.grantID)] == g.limits
    requires var consumed := Consumed(rows, g.tenantID, g.grantID, e.submittedAt);
      (g.tenantID, g.grantID) in grants ==>
      && (g.limits.rolling1h > 0 ==> consumed.rolling1h + e.notional <= g.limits.rolling1h)
      && (g.limits.daily > 0 ==> consumed.daily + e.notional <= g.limits.daily)
      && (g.limits.maxOpen > 0 ==> consumed.openOrders < g.limits.maxOpen)
    ensures NonNegative(rows[id := e]) && AllHeld(rows[id := e], grants)
  {
    forall gr | gr in grants ensures Held(rows[id := e], gr.0, gr.1, grants[gr]) {
      assert Held(rows, gr.0, gr.1, grants[gr]);
      if gr == (g.tenantID, g.grantID) {
        if g.limits.rolling1h > 0 { ReserveRolling(rows, g, id, e); }
        if g.limits.daily > 0 { ReserveDaily(rows, g, id, e); }
        if g.limits.maxOpen > 0 { ReserveOpen(rows, g, id, e); }
      } else {
        ReserveElsewhere(rows, id, e, gr.0, gr.1, grants[gr]);
      }
    }
  }

  lemma LighterAllHeld(rows: Rows, rows': Rows, grants: Grants)
    requires NonNegative(rows) && AllHeld(rows, grants) && Lighter(rows, rows')
    ensures NonNegative(rows') && AllHeld(rows', grants)
  {
    forall gr | gr in grants ensures Held(rows', gr.0, gr.1, grants[gr]) {
      assert Held(rows, gr.0, gr.1, grants[gr]);
      LighterHeld(rows, rows', gr.0, gr.1, grants[gr]);
    }
  }

  // ---------------------------------------------------------------------------
  // Runs of the ledger on its own
  // ---------------------------------------------------------------------------

  datatype Op =
    | ReserveOp(g: Grant, key: string, notional: Amount, who: Identity, at: int)
    | ReleaseOp(id: Ident)
    | SettleOp(id: Ident, state: ReservationState, open: bool, at: int)

  ghost function Perform(rows: Rows, op: Op): Rows {
    match op
    case ReserveOp(g, key, notional, who, at) => Reserve(rows, g, key, notional, who, at).0
    case ReleaseOp(id) => Release(rows, id)
    case SettleOp(id, state, open, at) => Settle(rows, id, state, open, at)
  }

  ghost function Run(ops: seq<Op>): Rows {
    if ops == [] then map[] else Perform(Run(ops[..|ops| - 1]), ops[|ops| - 1])
  }

  /** The operation reserves under the fixed limits of a grant in question only with sums
      that fit, and settles lawfully. Reservations under other grants are unrestricted. */
  ghost predicate Allowed(rows: Rows, grants: Grants, op: Op) {
    match op
    case ReserveOp(g, key, notional, who, at) =>
      (g.tenantID, g.grantID) in grants && Inserts(rows, g, key, notional, who, at) ==>
        grants[(g.tenantID, g.grantID)] == g.limits && SumsFit(rows, g, notional, at)
    case ReleaseOp(_) => true
    case SettleOp(id, state, open, _) => Lawful(rows, id, state, open)
  }

  ghost predicate AllAllowed(ops: seq<Op>, grants: Grants) {
    ops == [] || (AllAllowed(ops[..|ops| - 1], grants) && Allowed(Run(ops[..|ops| - 1]), grants, ops[|ops| - 1]))
  }

  /** In every run, for every grant in question and at every instant w, the non-released
      notional submitted in (w - 1h, w] is within its rolling ceiling; that of every UTC day is
      within its daily ceiling; and its open rows are within its open-order ceiling. The
      reservation instants are arbitrary: replica clocks may disagree or step back. */
  lemma {:induction false} CeilingsHold(ops: seq<Op>, grants: Grants)
    requires AllAllowed(ops, grants)
    ensures NonNegative(Run(ops)) && AllHeld(Run(ops), grants)
  {
    if ops == [] {
      EmptyHeld(grants);
    } else {
      CeilingsHold(ops[..|ops| - 1], grants);
      var rows := Run(ops[..|ops| - 1]);
      match ops[|ops| - 1]
      case ReserveOp(g, key, notional, who, at) => ReserveHeld(rows, grants, g, key, notional, who, at);
      case ReleaseOp(id) =>
        ReleaseLighter(rows, id);
        LighterAllHeld(rows, Release(rows, id), grants);
      case SettleOp(id, state, open, at) =>
        SettleLighter(rows, id, state, open, at);
        LighterAllHeld(rows, Settle(rows, id, state, open, at), grants);
    }
  }

  /** The same from the operations alone: under a grant in question every amount fits. */
  ghost predicate AllFitting(ops: seq<Op>, grants: Grants) {
    ops == [] ||
    var before := ops[..|ops| - 1];
    AllFitting(before, grants) &&
    match ops[|ops| - 1]
    case ReserveOp(g, _, notional, _, _) =>
      (g.tenantID, g.grantID) in grants ==> grants[(g.tenantID, g.grantID)] == g.limits && Fitting(g.limits, notional)
    case ReleaseOp(_) => true
    case SettleOp(id, state, open, _) => Lawful(Run(before), id, state, open)
  }

  /** So every ceiling of every grant holds as long as each order, or its grant's per-order
      ceiling, leaves the room: nothing is asked of what the ledger holds. */
  lemma {:induction false} FittingRunsHold(ops: seq<Op>, grants: Grants)
    requires AllFitting(ops, grants)
    ensures AllAllowed(ops, grants) && AllHeld(Run(ops), grants)
  {
    if ops != [] {
      var before := ops[..|ops| - 1];
      FittingRunsHold(before, grants);
      CeilingsHold(before, grants);
      if ops[|ops| - 1].ReserveOp? {
        var op := ops[|ops| - 1];
        if (op.g.tenantID, op.g.grantID) in grants && Inserts(Run(before), op.g, op.key, op.notional, op.who, op.at) {
          FittingFits(Run(before), op.g, op.key, op.notional, op.who, op.at);
        }
      }
    }
    CeilingsHold(ops, grants);
  }

  // ---------------------------------------------------------------------------
  // A reachable overflow
  // ---------------------------------------------------------------------------

  const UNBOUNDED := Grant("tenant", "grant", Limits(0, PARSE_MAX, 0, 0))
  const SOMEONE := Identity("envelope", "principal", "account")

  ghost function TwoLargest(): seq<Op> {
    [ReserveOp(UNBOUNDED, "first", PARSE_MAX, SOMEONE, 0), ReserveOp(UNBOUNDED, "second", PARSE_MAX, SOMEONE, 0)]
  }

  lemma FirstLargest()
    ensures Reserve(map[], UNBOUNDED, "first", PARSE_MAX, SOMEONE, 0)
      == (map[Ident("tenant", "first") := NewEntry("grant", SOMEONE, PARSE_MAX, 0)], Allow)
  {
    assert After(map[], "tenant", "grant", 0 - HOUR) == {};
    assert After(map[], "tenant", "grant", DayStart(0) - 1) == {};
  }

  lemma SecondLargest(rows: Rows)
    requires rows == map[Ident("tenant", "first") := NewEntry("grant", SOMEONE, PARSE_MAX, 0)]
    ensures Inserts(rows, UNBOUNDED, "second", PARSE_MAX, SOMEONE, 0) && !SumsFit(rows, UNBOUNDED, PARSE_MAX, 0)
  {
    var first := Ident("tenant", "first");
    assert After(rows, "tenant", "grant", 0 - HOUR) == {first} && After(rows, "tenant", "grant", DayStart(0) - 1) == {first};
    TotalPick(rows, {first}, first);
    assert {first} - {first} == {};
    Int64.WrapShift(PARSE_MAX + PARSE_MAX - Int64.SPAN);
  }

  /** Two amounts the parser admits, under a grant with a rolling ceiling and no per-order
      one: both are reserved, and the hour holds twice the ceiling. */
  lemma OverflowAdmits()
    ensures NonNegative(Run(TwoLargest()))
    ensures HourTotal(Run(TwoLargest()), "tenant", "grant", 0) > UNBOUNDED.limits.rolling1h
  {
    var ops := TwoLargest();
    assert ops[..1][..0] == [] && Run(ops[..1]) == Perform(Run([]), ops[0]);
    FirstLargest();
    var rows := Run(ops[..1]);
    SecondLargest(rows);
    AllowedMeans(rows, UNBOUNDED, "second", PARSE_MAX, SOMEONE, 0);
    AllowedKeepsExactly(rows, UNBOUNDED, "second", PARSE_MAX, SOMEONE, 0);
    PresentWindows(Run(ops), "tenant", "grant", 0);
  }

  lemma EmptyHeld(grants: Grants)
    ensures AllHeld(map[], grants)
  {
    var rows: Rows := map[];
    forall g | g in grants ensures Held(rows, g.0, g.1, grants[g]) {
      forall lo: int, hi: int ensures Total(rows, Within(rows, g.0, g.1, lo, hi)) == 0 {
        assert Within(rows, g.0, g.1, lo, hi) == {};
      }
      forall w: int ensures HourTotal(rows, g.0, g.1, w) == 0 {
      }
      forall d: int ensures DayTotal(rows, g.0, g.1, d) == 0 {
      }
      assert OpenRows(rows, g.0, g.1) == {};
    }
  }
}
