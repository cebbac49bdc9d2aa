/** What an answer of the ledger means, field by field: whose retry a held row may answer, and
    which new orders are let in (internal/authority/usage.go, reservation.go). */
module LedgerAnswers {
  import opened Idempotency
  import opened Ledger
  import opened LedgerSafety
  import opened LedgerMemory
  import Int64

  /** The row was taken for this grant, envelope, principal, account and amount. */
  predicate Holds(e: Entry, grantID: string, envelopeID: string, principalID: string, accountID: string, notional: int) {
    && e.grantID == grantID
    && e.who.envelopeID == envelopeID
    && e.who.principalID == principalID
    && e.who.accountID == accountID
    && e.notional == notional
  }

  predicate HeldFor(rows: Rows, g: Grant, key: string, notional: Amount, who: Identity) {
    && Ident(g.tenantID, key) in rows
    && Holds(rows[Ident(g.tenantID, key)], g.grantID, who.envelopeID, who.principalID, who.accountID, notional)
  }

  /** A key that holds a row is answered from it, allowed exactly when all five fields are the
      row's and the amount can be read back, and refused as reused otherwise. */
  lemma RetryAllowedExactly(rows: Rows, g: Grant, key: string, notional: Amount, who: Identity, at: int)
    requires Ident(g.tenantID, key) in rows
    ensures var (rows', decision) := Reserve(rows, g, key, notional, who, at);
      && rows' == rows
      && (decision == Allow <==> HeldFor(rows, g, key, notional, who) && -Int64.AMOUNT_MAX <= notional <= Int64.AMOUNT_MAX)
      && (decision != Allow ==> decision == Deny("RESERVATION_KEY_REUSED"))
  {
  }

  /** In process nothing is read back. */
  lemma RetryAllowedInProcess(rows: Rows, g: Grant, key: string, notional: Amount, who: Identity, at: int)
    requires Ident(g.tenantID, key) in rows
    ensures var (rows', decision) := ReserveInProcess(rows, g, key, notional, who, at);
      && rows' == rows
      && (decision == Allow <==> HeldFor(rows, g, key, notional, who))
      && (decision != Allow ==> decision == Deny("RESERVATION_KEY_REUSED"))
    ensures ReserveExact(rows, g, key, notional, who, at) == ReserveInProcess(rows, g, key, notional, who, at)
  {
  }

  // ---------------------------------------------------------------------------
  // New keys
  // ---------------------------------------------------------------------------

  /** The rows that weigh on a grant: its own, neither released. */
  ghost function Weighing(rows: Rows, tenant: string, grant: string): set<Ident> {
    set id | id in rows && id.tenant == tenant && rows[id].grantID == grant && (rows[id].state == Reserved || rows[id].state == Committed)
  }

  /** What they held from an instant on. */
  ghost function HeldSince(rows: Rows, tenant: string, grant: string, from: int): int {
    Total(rows, set id | id in Weighing(rows, tenant, grant) && rows[id].submittedAt >= from)
  }

  ghost function OpenCount(rows: Rows, tenant: string, grant: string): nat {
    |set id | id in Weighing(rows, tenant, grant) && rows[id].open|
  }

  /** A new order within every ceiling that is configured, the order itself included: its
      size, the hour up to now, the day so far, and the number open. */
  ghost predicate RoomFor(rows: Rows, g: Grant, notional: int, at: int) {
    && (g.limits.perOrder > 0 ==> notional <= g.limits.perOrder)
    && (g.limits.rolling1h > 0 ==> HeldSince(rows, g.tenantID, g.grantID, at - 3_600_000_000_000 + 1) + notional <= g.limits.rolling1h)
    && (g.limits.daily > 0 ==> HeldSince(rows, g.tenantID, g.grantID, at - at % 86_400_000_000_000) + notional <= g.limits.daily)
    && (g.limits.maxOpen > 0 ==> OpenCount(rows, g.tenantID, g.grantID) + 1 <= g.limits.maxOpen)
  }

  lemma WindowsAre(rows: Rows, tenant: string, grant: string, at: int)
    ensures Consumed(rows, tenant, grant, at) == Snapshot(
      HeldSince(rows, tenant, grant, at - 3_600_000_000_000 + 1),
      HeldSince(rows, tenant, grant, at - at % 86_400_000_000_000),
      OpenCount(rows, tenant, grant))
  {
    assert After(rows, tenant, grant, at - HOUR)
      == set id | id in Weighing(rows, tenant, grant) && rows[id].submittedAt >= at - 3_600_000_000_000 + 1;
    assert After(rows, tenant, grant, DayStart(at) - 1)
      == set id | id in Weighing(rows, tenant, grant) && rows[id].submittedAt >= at - at % 86_400_000_000_000;
    assert OpenRows(rows, tenant, grant) == set id | id in Weighing(rows, tenant, grant) && rows[id].open;
  }

  /** The usage can be read: neither window holds more than an amount can say. */
  ghost predicate UsageReadable(rows: Rows, g: Grant, at: int) {
    && 0 <= HeldSince(rows, g.tenantID, g.grantID, at - 3_600_000_000_000 + 1) <= Int64.AMOUNT_MAX
    && 0 <= HeldSince(rows, g.tenantID, g.grantID, at - at % 86_400_000_000_000) <= Int64.AMOUNT_MAX
  }

  /** A new key is allowed, where the sums it is compared on fit, exactly when the usage can
      be read, the amount is not negative and there is room; nothing within its ceilings is
      ever refused. Allowing it inserts one open RESERVED row with its five fields. */
  lemma NewAllowedExactly(rows: Rows, g: Grant, key: string, notional: Amount, who: Identity, at: int)
    requires NonNegative(rows) && Ident(g.tenantID, key) !in rows && SumsFit(rows, g, notional, at)
    ensures var (rows', decision) := Reserve(rows, g, key, notional, who, at);
      && (decision == Allow <==> UsageReadable(rows, g, at) && notional >= 0 && RoomFor(rows, g, notional, at))
      && (decision == Allow ==>
            && HeldFor(rows', g, key, notional, who)
            && rows' == rows[Ident(g.tenantID, key) := rows'[Ident(g.tenantID, key)]]
            && rows'[Ident(g.tenantID, key)].submittedAt == at
            && rows'[Ident(g.tenantID, key)].state == Reserved && rows'[Ident(g.tenantID, key)].open)
      && (decision != Allow ==> rows' == rows)
  {
    WindowsAre(rows, g.tenantID, g.grantID, at);
    WindowsPositive(rows, g.tenantID, g.grantID, at);
    assert Int64.Fits(g.limits.rolling1h) && Int64.Fits(g.limits.daily) && Int64.Fits(notional);
    if notional < 0 { assert Reserve(rows, g, key, notional, who, at).1 != Allow; }
  }

  lemma WindowsPositive(rows: Rows, tenant: string, grant: string, at: int)
    requires NonNegative(rows)
    ensures Consumed(rows, tenant, grant, at).rolling1h >= 0 && Consumed(rows, tenant, grant, at).daily >= 0
  {
    TotalMonotone(rows, {}, After(rows, tenant, grant, at - HOUR));
    TotalMonotone(rows, {}, After(rows, tenant, grant, DayStart(at) - 1));
  }

  // ---------------------------------------------------------------------------
  // Two answers for one key
  // ---------------------------------------------------------------------------

  /** No operation returns the key's capacity. */
  predicate NeverReleased(ops: seq<Op>, id: Ident) {
    forall k :: 0 <= k < |ops| ==> ops[k] != ReleaseOp(id)
  }

  ghost predicate RowKept(rows: Rows, rows': Rows, id: Ident) {
    && id in rows && id in rows'
    && rows'[id].grantID == rows[id].grantID && rows'[id].who == rows[id].who && rows'[id].notional == rows[id].notional
  }

  lemma PerformKeeps(rows: Rows, op: Op, id: Ident)
    requires id in rows && op != ReleaseOp(id)
    ensures RowKept(rows, Perform(rows, op), id)
  {
  }

  lemma {:induction false} RunKeeps(before: seq<Op>, ops: seq<Op>, id: Ident)
    requires id in Run(before) && NeverReleased(ops, id)
    ensures RowKept(Run(before), Run(before + ops), id)
    decreases |ops|
  {
    if ops == [] {
      assert before + ops == before;
    } else {
      var init, last := ops[..|ops| - 1], ops[|ops| - 1];
      RunKeeps(before, init, id);
      assert (before + ops)[..|before + ops| - 1] == before + init;
      PerformKeeps(Run(before + init), last, id);
    }
  }

  lemma AllowedHolds(rows: Rows, g: Grant, key: string, notional: Amount, who: Identity, at: int)
    requires Reserve(rows, g, key, notional, who, at).1 == Allow
    ensures HeldFor(Reserve(rows, g, key, notional, who, at).0, g, key, notional, who)
  {
  }

  /** In every run: two reservations of one tenant and key, both allowed and with no release
      of the key between them, were for one grant, envelope, principal, account and amount.
      Nobody is answered from a row taken for someone else. */
  lemma AllowedForOne(ops: seq<Op>, first: Op, more: seq<Op>, second: Op)
    requires first.ReserveOp? && second.ReserveOp? && first.g.tenantID == second.g.tenantID && first.key == second.key
    requires Reserve(Run(ops), first.g, first.key, first.notional, first.who, first.at).1 == Allow
    requires NeverReleased(more, Ident(first.g.tenantID, first.key))
    requires Reserve(Run(ops + [first] + more), second.g, second.key, second.notional, second.who, second.at).1 == Allow
    ensures && first.g.grantID == second.g.grantID
            && first.who.envelopeID == second.who.envelopeID
            && first.who.principalID == second.who.principalID
            && first.who.accountID == second.who.accountID
            && first.notional == second.notional
  {
    var id := Ident(first.g.tenantID, first.key);
    assert (ops + [first])[..|ops|] == ops;
    AllowedHolds(Run(ops), first.g, first.key, first.notional, first.who, first.at);
    RunKeeps(ops + [first], more, id);
    var rows := Run(ops + [first] + more);
    RetryAllowedExactly(rows, second.g, second.key, second.notional, second.who, second.at);
  }
}
