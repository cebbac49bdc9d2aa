/** The in-process ledger (MemoryUsage in internal/authority/usage.go): the same rows, summed
    in int64 by a loop. Its sums, and so its decisions, are shown exact along every run whose
    clock never steps back, for grants whose ceilings leave room to add. */
module LedgerMemory {
  import opened Wrappers
  import opened Idempotency
  import opened Ledger
  import opened LedgerSafety
  import Int64

  ghost function WrappedConsumed(rows: Rows, tenant: string, grant: string, at: int): Snapshot {
    Snapshot(
      WrappedTotal(rows, After(rows, tenant, grant, at - HOUR)),
      WrappedTotal(rows, After(rows, tenant, grant, DayStart(at) - 1)),
      |OpenRows(rows, tenant, grant)|)
  }

  /** The reservation MemoryUsage makes. */
  ghost function ReserveInProcess(rows: Rows, g: Grant, key: string, notional: Amount, who: Identity, at: int): (Rows, Decision) {
    var id := Ident(g.tenantID, key);
    if id in rows then
      (rows, if SameRequest(rows[id], g.grantID, who, notional) then Allow else Deny("RESERVATION_KEY_REUSED"))
    else
      match CheckLimits(g.limits, WrappedConsumed(rows, g.tenantID, g.grantID, at), notional)
      case Some(code) => (rows, Deny(code))
      case None => (rows[id := NewEntry(g.grantID, who, notional, at)], Allow)
  }

  /** The same reservation in exact arithmetic. */
  ghost function ReserveExact(rows: Rows, g: Grant, key: string, notional: Amount, who: Identity, at: int): (Rows, Decision) {
    var id := Ident(g.tenantID, key);
    var c := Consumed(rows, g.tenantID, g.grantID, at);
    var l := g.limits;
    if id in rows then
      (rows, if SameRequest(rows[id], g.grantID, who, notional) then Allow else Deny("RESERVATION_KEY_REUSED"))
    else if l.perOrder > 0 && notional > l.perOrder then (rows, Deny("PER_ORDER_LIMIT_EXCEEDED"))
    else if l.rolling1h > 0 && c.rolling1h + notional > l.rolling1h then (rows, Deny("ROLLING_LIMIT_EXCEEDED"))
    else if l.daily > 0 && c.daily + notional > l.daily then (rows, Deny("DAILY_LIMIT_EXCEEDED"))
    else if l.maxOpen > 0 && c.openOrders >= l.maxOpen then (rows, Deny("MAX_OPEN_ORDERS_EXCEEDED"))
    else (rows[id := NewEntry(g.grantID, who, notional, at)], Allow)
  }

  class MemoryUsage {
    var entries: Rows

    constructor ()
      ensures entries == map[]
    {
      entries := map[];
    }

    method Reserve(g: Grant, key: string, notional: Amount, who: Identity, at: int) returns (decision: Decision)
      modifies this
      ensures (entries, decision) == ReserveInProcess(old(entries), g, key, notional, who, at)
    {
      var id := Ident(g.tenantID, key);
      if id in entries {
        if !SameRequest(entries[id], g.grantID, who, notional) { return Deny("RESERVATION_KEY_REUSED"); }
        return Allow;
      }
      var consumed := Usage(g.tenantID, g.grantID, at);
      var refusal := CheckLimits(g.limits, consumed, notional);
      if refusal.Some? { return Deny(refusal.value); }
      entries := entries[id := NewEntry(g.grantID, who, notional, at)];
      return Allow;
    }

    method Release(id: Ident)
      modifies this
      ensures entries == Ledger.Release(old(entries), id)
    {
      if id in entries && entries[id].state.Reserved? {
        entries := entries - {id};
      }
    }

    /** Settling in process leaves closedAt as it was when the row stays open. */
    method Settle(id: Ident, state: ReservationState, open: bool, at: int)
      modifies this
      ensures entries.Keys == old(entries).Keys
      ensures forall k :: k in entries && k != id ==> entries[k] == old(entries)[k]
      ensures id in entries ==>
                entries[id].(closedAt := None) == Ledger.Settle(old(entries), id, state, open, at)[id].(closedAt := None)
      ensures id in entries ==> entries[id].closedAt == if open then old(entries)[id].closedAt else Some(at)
    {
      if id in entries {
        var e := entries[id].(state := state, open := open);
        entries := entries[id := if open then e else e.(closedAt := Some(at))];
      }
    }

    /** Counts held and spent capacity in one pass over the map, in whatever order. */
    method Usage(tenant: string, grant: string, now: int) returns (snap: Snapshot)
      ensures snap == WrappedConsumed(entries, tenant, grant, now)
    {
      var hour, day, open := Tally(tenant, grant, now - HOUR, DayStart(now));
      CountedAll(entries, tenant, grant, now);
      return Snapshot(hour, day, open);
    }

    method Tally(tenant: string, grant: string, hourStart: int, dayStart: int) returns (hour: int, day: int, open: int)
      ensures hour == SumSoFar(entries, tenant, grant, hourStart, {})
      ensures day == SumSoFar(entries, tenant, grant, dayStart - 1, {})
      ensures open == OpenSoFar(entries, tenant, grant, {})
    {
      var rows := entries;
      hour, day, open := 0, 0, 0;
      var rest := rows.Keys;
      CountedNone(rows, tenant, grant, hourStart);
      CountedNone(rows, tenant, grant, dayStart - 1);
      while rest != {}
        invariant rest <= rows.Keys
        invariant hour == SumSoFar(rows, tenant, grant, hourStart, rest)
        invariant day == SumSoFar(rows, tenant, grant, dayStart - 1, rest)
        invariant open == OpenSoFar(rows, tenant, grant, rest)
      {
        var id :| id in rest;
        hour := AddAfter(rows, tenant, grant, hourStart, hour, id, rest);
        day := AddAfter(rows, tenant, grant, dayStart - 1, day, id, rest);
        open := AddOpen(rows, tenant, grant, open, id, rest);
        rest := rest - {id};
      }
    }
  }

  /** A row's notional, if it counts after an instant, added to the running sum. */
  method AddAfter(rows: Rows, tenant: string, grant: string, lo: int, sum: int, id: Ident, ghost rest: set<Ident>) returns (next: int)
    requires id in rest && rest <= rows.Keys && sum == SumSoFar(rows, tenant, grant, lo, rest)
    ensures next == SumSoFar(rows, tenant, grant, lo, rest - {id})
  {
    SumNext(rows, tenant, grant, lo, rest, id);
    next := sum;
    if Counts(rows, tenant, grant, id) && rows[id].submittedAt > lo {
      next := Int64.Wrap(sum + rows[id].notional);
    }
  }

  method AddOpen(rows: Rows, tenant: string, grant: string, open: int, id: Ident, ghost rest: set<Ident>) returns (next: int)
    requires id in rest && rest <= rows.Keys && open == OpenSoFar(rows, tenant, grant, rest)
    ensures next == OpenSoFar(rows, tenant, grant, rest - {id})
  {
    OpenNext(rows, tenant, grant, rest, id);
    next := open;
    if Counts(rows, tenant, grant, id) && rows[id].open { next := open + 1; }
  }

  /** The wrapped notional of the counting rows after an instant and outside `rest`. */
  ghost function SumSoFar(rows: Rows, tenant: string, grant: string, lo: int, rest: set<Ident>): int {
    WrappedTotal(rows, After(rows, tenant, grant, lo) - rest)
  }

  ghost function OpenSoFar(rows: Rows, tenant: string, grant: string, rest: set<Ident>): int {
    |OpenRows(rows, tenant, grant) - rest|
  }

  lemma CountedNone(rows: Rows, tenant: string, grant: string, lo: int)
    ensures SumSoFar(rows, tenant, grant, lo, rows.Keys) == 0
    ensures OpenSoFar(rows, tenant, grant, rows.Keys) == 0
  {
    assert After(rows, tenant, grant, lo) - rows.Keys == {};
    assert OpenRows(rows, tenant, grant) - rows.Keys == {};
  }

  lemma CountedAll(rows: Rows, tenant: string, grant: string, now: int)
    ensures WrappedConsumed(rows, tenant, grant, now) == Snapshot(
              SumSoFar(rows, tenant, grant, now - HOUR, {}),
              SumSoFar(rows, tenant, grant, DayStart(now) - 1, {}),
              OpenSoFar(rows, tenant, grant, {}))
  {
    assert After(rows, tenant, grant, now - HOUR) - {} == After(rows, tenant, grant, now - HOUR);
    assert After(rows, tenant, grant, DayStart(now) - 1) - {} == After(rows, tenant, grant, DayStart(now) - 1);
    assert OpenRows(rows, tenant, grant) - {} == OpenRows(rows, tenant, grant);
  }

  lemma SumNext(rows: Rows, tenant: string, grant: string, lo: int, rest: set<Ident>, id: Ident)
    requires id in rest && rest <= rows.Keys
    ensures var taken := Counts(rows, tenant, grant, id) && rows[id].submittedAt > lo;
      && (taken ==> SumSoFar(rows, tenant, grant, lo, rest - {id}) == Int64.Wrap(SumSoFar(rows, tenant, grant, lo, rest) + rows[id].notional))
      && (!taken ==> SumSoFar(rows, tenant, grant, lo, rest - {id}) == SumSoFar(rows, tenant, grant, lo, rest))
  {
    Accumulate(rows, After(rows, tenant, grant, lo), rest, id);
  }

  lemma OpenNext(rows: Rows, tenant: string, grant: string, rest: set<Ident>, id: Ident)
    requires id in rest && rest <= rows.Keys
    ensures var taken := Counts(rows, tenant, grant, id) && rows[id].open;
      OpenSoFar(rows, tenant, grant, rest - {id}) == OpenSoFar(rows, tenant, grant, rest) + (if taken then 1 else 0)
  {
    var open := OpenRows(rows, tenant, grant);
    assert open - (rest - {id}) == if id in open then (open - rest) + {id} else open - rest;
  }

  lemma Grow(rows: Rows, sel: set<Ident>, rest: set<Ident>, id: Ident)
    requires sel <= rows.Keys && id in rest && id in rows
    ensures Total(rows, sel - (rest - {id})) == Total(rows, sel - rest) + (if id in sel then rows[id].notional else 0)
  {
    var next := sel - (rest - {id});
    if id in sel {
      assert next - {id} == sel - rest;
      TotalPick(rows, next, id);
    } else {
      assert next == sel - rest;
    }
  }

  /** The wrapped notional of the selected rows. */
  ghost function WrappedTotal(rows: Rows, sel: set<Ident>): int
    requires sel <= rows.Keys
  {
    Int64.Wrap(Total(rows, sel))
  }

  lemma WrappedGrow(rows: Rows, sel: set<Ident>, next: set<Ident>, n: int)
    requires sel <= rows.Keys && next <= rows.Keys && Total(rows, next) == Total(rows, sel) + n
    ensures WrappedTotal(rows, next) == Int64.Wrap(WrappedTotal(rows, sel) + n)
  {
    Int64.WrapAdd(Total(rows, sel), n);
  }

  lemma Accumulate(rows: Rows, sel: set<Ident>, rest: set<Ident>, id: Ident)
    requires sel <= rows.Keys && id in rest && id in rows
    ensures id in sel ==>
              WrappedTotal(rows, sel - (rest - {id})) == Int64.Wrap(WrappedTotal(rows, sel - rest) + rows[id].notional)
    ensures id !in sel ==> WrappedTotal(rows, sel - (rest - {id})) == WrappedTotal(rows, sel - rest)
  {
    Grow(rows, sel, rest, id);
    if id in sel {
      WrappedGrow(rows, sel - rest, sel - (rest - {id}), rows[id].notional);
    }
  }

  // ---------------------------------------------------------------------------
  // Exactness along runs
  // ---------------------------------------------------------------------------

  /** A per-order ceiling, and room above every configured window ceiling for one more
      order. */
  predicate Roomy(l: Limits) {
    && l.perOrder > 0
    && (l.rolling1h > 0 ==> l.rolling1h + l.perOrder <= Int64.MAX)
    && (l.daily > 0 ==> l.daily + l.perOrder <= Int64.MAX)
  }

  ghost predicate GrantHeld(rows: Rows, tenant: string, grant: string, l: Limits) {
    && (l.rolling1h > 0 ==> RollingHeld(rows, tenant, grant, l.rolling1h))
    && (l.daily > 0 ==> DailyHeld(rows, tenant, grant, l.daily))
  }

  ghost predicate WindowsHeld(rows: Rows, grants: Grants) {
    forall g :: g in grants ==> GrantHeld(rows, g.0, g.1, grants[g])
  }

  ghost predicate NoLaterThan(rows: Rows, at: int) {
    forall id :: id in rows ==> rows[id].submittedAt <= at
  }

  ghost function PerformInProcess(rows: Rows, op: Op): Rows {
    match op
    case ReserveOp(g, key, notional, who, at) => ReserveInProcess(rows, g, key, notional, who, at).0
    case ReleaseOp(id) => Release(rows, id)
    case SettleOp(id, state, open, at) => Settle(rows, id, state, open, at)
  }

  ghost function RunInProcess(ops: seq<Op>): Rows {
    if ops == [] then map[] else PerformInProcess(RunInProcess(ops[..|ops| - 1]), ops[|ops| - 1])
  }

  /** Every operation keeps to fixed roomy limits and non-negative notionals, settles
      lawfully, and no reservation is dated before an earlier one. */
  ghost predicate Timely(ops: seq<Op>, grants: Grants, latest: int) {
    ops == [] ||
    var before := ops[..|ops| - 1];
    match ops[|ops| - 1]
    case ReserveOp(g, _, notional, _, at) =>
      && (g.tenantID, g.grantID) in grants && grants[(g.tenantID, g.grantID)] == g.limits
      && notional >= 0 && at <= latest
      && Timely(before, grants, at)
    case ReleaseOp(_) => Timely(before, grants, latest)
    case SettleOp(id, state, open, _) => Lawful(RunInProcess(before), id, state, open) && Timely(before, grants, latest)
  }

  lemma ConsumedNonNegative(rows: Rows, tenant: string, grant: string, at: int)
    requires NonNegative(rows)
    ensures Consumed(rows, tenant, grant, at).rolling1h >= 0 && Consumed(rows, tenant, grant, at).daily >= 0
  {
    TotalMonotone(rows, {}, After(rows, tenant, grant, at - HOUR));
    TotalMonotone(rows, {}, After(rows, tenant, grant, DayStart(at) - 1));
  }

  /** On such rows the int64 reservation is the exact one. */
  lemma ReserveIsExact(rows: Rows, grants: Grants, g: Grant, key: string, notional: Amount, who: Identity, at: int)
    requires NonNegative(rows) && WindowsHeld(rows, grants) && NoLaterThan(rows, at) && notional >= 0
    requires (g.tenantID, g.grantID) in grants && grants[(g.tenantID, g.grantID)] == g.limits && Roomy(g.limits)
    ensures ReserveInProcess(rows, g, key, notional, who, at) == ReserveExact(rows, g, key, notional, who, at)
  {
    PresentWindows(rows, g.tenantID, g.grantID, at);
    ConsumedNonNegative(rows, g.tenantID, g.grantID, at);
    var c := Consumed(rows, g.tenantID, g.grantID, at);
    assert g.limits.rolling1h > 0 ==> c.rolling1h <= g.limits.rolling1h;
    assert g.limits.daily > 0 ==> c.daily <= g.limits.daily;
    assert Int64.Fits(g.limits.rolling1h) && Int64.Fits(g.limits.daily);
  }

  lemma ReserveInProcessHeld(rows: Rows, grants: Grants, g: Grant, key: string, notional: Amount, who: Identity, at: int)
    requires NonNegative(rows) && WindowsHeld(rows, grants) && NoLaterThan(rows, at) && notional >= 0
    requires (g.tenantID, g.grantID) in grants && grants[(g.tenantID, g.grantID)] == g.limits && Roomy(g.limits)
    ensures var rows' := ReserveInProcess(rows, g, key, notional, who, at).0;
      NonNegative(rows') && WindowsHeld(rows', grants) && NoLaterThan(rows', at)
  {
    var rows' := ReserveInProcess(rows, g, key, notional, who, at).0;
    if rows' != rows {
      var id := Ident(g.tenantID, key);
      var e := NewEntry(g.grantID, who, notional, at);
      ReserveIsExact(rows, grants, g, key, notional, who, at);
      assert rows' == rows[id := e];
      if g.limits.rolling1h > 0 { ReserveRolling(rows, g, id, e); }
      if g.limits.daily > 0 { ReserveDaily(rows, g, id, e); }
      forall gr | gr in grants && gr != (g.tenantID, g.grantID)
        ensures GrantHeld(rows', gr.0, gr.1, grants[gr])
      {
        GrantElsewhere(rows, id, e, gr.0, gr.1, grants[gr]);
      }
    }
  }

  lemma GrantElsewhere(rows: Rows, id: Ident, e: Entry, tenant: string, grant: string, l: Limits)
    requires id !in rows && (id.tenant != tenant || e.grantID != grant)
    requires GrantHeld(rows, tenant, grant, l)
    ensures GrantHeld(rows[id := e], tenant, grant, l)
  {
    var rows' := rows[id := e];
    forall w: int ensures HourTotal(rows', tenant, grant, w) == HourTotal(rows, tenant, grant, w) {
      assert Within(rows', tenant, grant, w - HOUR, w) == Within(rows, tenant, grant, w - HOUR, w);
      TotalSame(rows, rows', Within(rows, tenant, grant, w - HOUR, w));
    }
    forall d: int ensures DayTotal(rows', tenant, grant, d) == DayTotal(rows, tenant, grant, d) {
      assert Within(rows', tenant, grant, d * DAY - 1, d * DAY + DAY - 1) == Within(rows, tenant, grant, d * DAY - 1, d * DAY + DAY - 1);
      TotalSame(rows, rows', Within(rows, tenant, grant, d * DAY - 1, d * DAY + DAY - 1));
    }
  }

  lemma LighterGrant(rows: Rows, rows': Rows, tenant: string, grant: string, l: Limits)
    requires NonNegative(rows) && GrantHeld(rows, tenant, grant, l) && Lighter(rows, rows')
    ensures GrantHeld(rows', tenant, grant, l)
  {
    forall w: int ensures HourTotal(rows', tenant, grant, w) <= HourTotal(rows, tenant, grant, w) {
      LighterTotal(rows, rows', tenant, grant, w - HOUR, w);
    }
    forall d: int ensures DayTotal(rows', tenant, grant, d) <= DayTotal(rows, tenant, grant, d) {
      LighterTotal(rows, rows', tenant, grant, d * DAY - 1, d * DAY + DAY - 1);
    }
  }

  lemma LighterWindows(rows: Rows, rows': Rows, grants: Grants)
    requires NonNegative(rows) && WindowsHeld(rows, grants) && Lighter(rows, rows')
    ensures NonNegative(rows') && WindowsHeld(rows', grants)
  {
    forall g | g in grants ensures GrantHeld(rows', g.0, g.1, grants[g]) {
      LighterGrant(rows, rows', g.0, g.1, grants[g]);
    }
  }

  /** Along every timely run under roomy limits the ceilings hold, and the next reservation
      compares the mathematical sums: int64 decides exactly as unbounded arithmetic. */
  lemma {:induction false} SumsAreExact(ops: seq<Op>, grants: Grants, latest: int)
    requires Timely(ops, grants, latest)
    requires forall g :: g in grants ==> Roomy(grants[g])
    ensures NonNegative(RunInProcess(ops)) && WindowsHeld(RunInProcess(ops), grants) && NoLaterThan(RunInProcess(ops), latest)
    ensures forall g: Grant, key, notional: Amount, who: Identity, at ::
              (g.tenantID, g.grantID) in grants && grants[(g.tenantID, g.grantID)] == g.limits && notional >= 0 && at >= latest ==>
                ReserveInProcess(RunInProcess(ops), g, key, notional, who, at) == ReserveExact(RunInProcess(ops), g, key, notional, who, at)
    decreases |ops|
  {
    var rows := RunInProcess(ops);
    if ops == [] {
      NoWindows(grants);
    } else {
      var before := ops[..|ops| - 1];
      match ops[|ops| - 1]
      case ReserveOp(g, key, notional, who, at) =>
        SumsAreExact(before, grants, at);
        ReserveInProcessHeld(RunInProcess(before), grants, g, key, notional, who, at);
      case ReleaseOp(id) =>
        SumsAreExact(before, grants, latest);
        ReleaseLighter(RunInProcess(before), id);
        LighterWindows(RunInProcess(before), rows, grants);
      case SettleOp(id, state, open, at) =>
        SumsAreExact(before, grants, latest);
        SettleLighter(RunInProcess(before), id, state, open, at);
        LighterWindows(RunInProcess(before), rows, grants);
    }
    forall g: Grant, key, notional: Amount, who: Identity, at |
      (g.tenantID, g.grantID) in grants && grants[(g.tenantID, g.grantID)] == g.limits && notional >= 0 && at >= latest
      ensures ReserveInProcess(rows, g, key, notional, who, at) == ReserveExact(rows, g, key, notional, who, at)
    {
      ReserveIsExact(rows, grants, g, key, notional, who, at);
    }
  }

  lemma NoWindows(grants: Grants)
    ensures WindowsHeld(map[], grants)
  {
    var rows: Rows := map[];
    forall tenant: string, grant: string, w: int ensures HourTotal(rows, tenant, grant, w) == 0 {
      assert Within(rows, tenant, grant, w - HOUR, w) == {};
    }
    forall tenant: string, grant: string, d: int ensures DayTotal(rows, tenant, grant, d) == 0 {
      assert Within(rows, tenant, grant, d * DAY - 1, d * DAY + DAY - 1) == {};
    }
  }
}
