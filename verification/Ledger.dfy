/** The capacity ledger (internal/authority/usage.go, reservation.go): one row per reserved
    idempotency key, and the three transactions that write it, as steps on values. */
module Ledger {
  import opened Wrappers
  import opened Idempotency
  import Int64

  /** One unit is 0.0001 of a currency unit. */
  type Amount = Int64.Number

  datatype ReservationState = Reserved | Committed | Released

  /** What a reservation was taken for. */
  datatype Identity = Identity(envelopeID: string, principalID: string, accountID: string)

  datatype Entry = Entry(
    grantID: string,
    who: Identity,
    notional: Amount,
    submittedAt: int,
    open: bool,
    state: ReservationState,
    closedAt: Option<int>)

  type Rows = map<Ident, Entry>

  /** A zero value means the limit is not configured. */
  datatype Limits = Limits(perOrder: Amount, rolling1h: Amount, daily: Amount, maxOpen: int)

  datatype Grant = Grant(tenantID: string, grantID: string, limits: Limits)

  datatype Snapshot = Snapshot(rolling1h: int, daily: int, openOrders: int)

  datatype Decision = Allow | Deny(code: string)

  /** Nanoseconds. */
  const HOUR := 3_600_000_000_000
  const DAY := 24 * HOUR

  /** The largest amount money.Parse can return. */
  const PARSE_MAX := Int64.AMOUNT_MAX

  /** The start of the UTC day holding an instant. */
  function DayStart(at: int): int {
    at - at % DAY
  }

  // ---------------------------------------------------------------------------
  // Sums over selected rows
  // ---------------------------------------------------------------------------

  /** The notional of the selected rows. */
  ghost function Total(rows: Rows, sel: set<Ident>): int
    requires sel <= rows.Keys
    decreases |sel|
  {
    if sel == {} then 0
    else
      var id :| id in sel;
      rows[id].notional + Total(rows, sel - {id})
  }

  lemma {:induction false} TotalPick(rows: Rows, sel: set<Ident>, x: Ident)
    requires sel <= rows.Keys && x in sel
    ensures Total(rows, sel) == rows[x].notional + Total(rows, sel - {x})
    decreases |sel|
  {
    var id :| id in sel && Total(rows, sel) == rows[id].notional + Total(rows, sel - {id});
    if id != x {
      TotalPick(rows, sel - {id}, x);
      TotalPick(rows, sel - {x}, id);
      assert sel - {id} - {x} == sel - {x} - {id};
    }
  }

  lemma {:induction false} TotalSame(rows: Rows, rows': Rows, sel: set<Ident>)
    requires sel <= rows.Keys && sel <= rows'.Keys
    requires forall id :: id in sel ==> rows'[id].notional == rows[id].notional
    ensures Total(rows', sel) == Total(rows, sel)
    decreases |sel|
  {
    if sel != {} {
      var id :| id in sel;
      TotalPick(rows, sel, id);
      TotalPick(rows', sel, id);
      TotalSame(rows, rows', sel - {id});
    }
  }

  ghost predicate NonNegative(rows: Rows) {
    forall id :: id in rows ==> rows[id].notional >= 0
  }

  lemma {:induction false} TotalMonotone(rows: Rows, a: set<Ident>, b: set<Ident>)
    requires NonNegative(rows) && a <= b <= rows.Keys
    ensures 0 <= Total(rows, a) <= Total(rows, b)
    decreases |b|
  {
    if b != {} {
      var id :| id in b;
      TotalPick(rows, b, id);
      if id in a {
        TotalPick(rows, a, id);
        TotalMonotone(rows, a - {id}, b - {id});
      } else {
        TotalMonotone(rows, a, b - {id});
      }
    }
  }

  // ---------------------------------------------------------------------------
  // What counts
  // ---------------------------------------------------------------------------

  /** Rows that count against a grant: everything not released. */
  predicate Counts(rows: Rows, tenant: string, grant: string, id: Ident) {
    id in rows && id.tenant == tenant && rows[id].grantID == grant && !rows[id].state.Released?
  }

  /** Counting rows submitted strictly after an instant: no upper bound. */
  function After(rows: Rows, tenant: string, grant: string, lo: int): set<Ident> {
    set id | id in rows && Counts(rows, tenant, grant, id) && rows[id].submittedAt > lo
  }

  /** Counting rows submitted in (lo, hi]. */
  function Within(rows: Rows, tenant: string, grant: string, lo: int, hi: int): set<Ident> {
    set id | id in rows && Counts(rows, tenant, grant, id) && lo < rows[id].submittedAt <= hi
  }

  function OpenRows(rows: Rows, tenant: string, grant: string): set<Ident> {
    set id | id in rows && Counts(rows, tenant, grant, id) && rows[id].open
  }

  /** The consumed usage of a grant, in exact arithmetic. The daily window is written with
      `>=` on the day's start. */
  ghost function Consumed(rows: Rows, tenant: string, grant: string, at: int): Snapshot {
    Snapshot(
      Total(rows, After(rows, tenant, grant, at - HOUR)),
      Total(rows, After(rows, tenant, grant, DayStart(at) - 1)),
      |OpenRows(rows, tenant, grant)|)
  }

  // ---------------------------------------------------------------------------
  // The decision
  // ---------------------------------------------------------------------------

  /** The arithmetic shared by the pre-check and the reservation, on int64 amounts: the
      additions wrap. None allows. */
  function CheckLimits(limits: Limits, consumed: Snapshot, notional: Amount): Option<string> {
    if limits.perOrder > 0 && notional > limits.perOrder then Some("PER_ORDER_LIMIT_EXCEEDED")
    else if limits.rolling1h > 0 && Int64.Wrap(consumed.rolling1h + notional) > limits.rolling1h then Some("ROLLING_LIMIT_EXCEEDED")
    else if limits.daily > 0 && Int64.Wrap(consumed.daily + notional) > limits.daily then Some("DAILY_LIMIT_EXCEEDED")
    else if limits.maxOpen > 0 && consumed.openOrders >= limits.maxOpen then Some("MAX_OPEN_ORDERS_EXCEEDED")
    else None
  }

  /** The same request again: every part of the identity matches. */
  predicate SameRequest(e: Entry, grant: string, who: Identity, notional: Amount) {
    e.grantID == grant && e.who == who && e.notional == notional
  }

  function NewEntry(grant: string, who: Identity, notional: Amount, at: int): Entry {
    Entry(grant, who, notional, at, true, Reserved, None)
  }

  /** Sums read back from the database as text: a sum beyond the parser's range is
      unreadable, and unreadable usage denies. */
  predicate Readable(consumed: Snapshot) {
    0 <= consumed.rolling1h <= PARSE_MAX && 0 <= consumed.daily <= PARSE_MAX
  }

  /** The held row's stored amount can be read back. */
  predicate ReadableAmount(x: int) {
    -PARSE_MAX <= x <= PARSE_MAX
  }

  /** The database reservation: one serialized transaction per grant. */
  ghost function Reserve(rows: Rows, g: Grant, key: string, notional: Amount, who: Identity, at: int): (Rows, Decision) {
    var id := Ident(g.tenantID, key);
    if id in rows then
      if SameRequest(rows[id], g.grantID, who, notional) && ReadableAmount(notional) then (rows, Allow)
      else (rows, Deny("RESERVATION_KEY_REUSED"))
    else
      var consumed := Consumed(rows, g.tenantID, g.grantID, at);
      if !Readable(consumed) then (rows, Deny("USAGE_UNAVAILABLE"))
      else
        match CheckLimits(g.limits, consumed, notional)
        case Some(code) => (rows, Deny(code))
        case None =>
          // The table refuses a negative notional, and a refused insert denies.
          if notional < 0 then (rows, Deny("USAGE_UNAVAILABLE"))
          else (rows[id := NewEntry(g.grantID, who, notional, at)], Allow)
  }

  /** Release deletes a row nothing was sent for. */
  function Release(rows: Rows, id: Ident): Rows {
    if id in rows && rows[id].state.Reserved? then rows - {id} else rows
  }

  /** Settle writes what the venue did, whatever the row said before. */
  function Settle(rows: Rows, id: Ident, state: ReservationState, open: bool, at: int): Rows {
    if id in rows then
      rows[id := rows[id].(state := state, open := open, closedAt := if open then None else Some(at))]
    else
      rows
  }

  /** A settlement that neither gives a released row back its weight nor reopens a closed
      one. */
  predicate Lawful(rows: Rows, id: Ident, state: ReservationState, open: bool) {
    id in rows ==> (rows[id].state.Released? ==> state.Released?) && (open ==> rows[id].open)
  }

  // ---------------------------------------------------------------------------
  // When int64 arithmetic decides as exact arithmetic would
  // ---------------------------------------------------------------------------

  /** For non-negative amounts and a configured ceiling, the int64 comparison agrees with
      the exact one exactly when the exact sum fits. */
  lemma CompareExactly(consumed: Amount, notional: Amount, limit: Amount)
    requires consumed >= 0 && notional >= 0 && limit > 0
    ensures (Int64.Wrap(consumed + notional) > limit <==> consumed + notional > limit) <==> consumed + notional <= Int64.MAX
  {
    if consumed + notional > Int64.MAX {
      assert Int64.Fits(consumed) && Int64.Fits(notional) && Int64.Fits(limit);
    }
  }
}
