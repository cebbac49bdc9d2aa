/** The database ledger as its transactions run (PostgresUsage in
    internal/authority/usage.go): the snapshot query adds exact numerics, and each method is
    the step of Ledger.dfy. */
module LedgerStore {
  import opened Wrappers
  import opened Idempotency
  import opened Ledger
  import opened LedgerMemory

  /** The notional of the counting rows after an instant and outside `rest`. */
  ghost function ExactSoFar(rows: Rows, tenant: string, grant: string, lo: int, rest: set<Ident>): int {
    Total(rows, After(rows, tenant, grant, lo) - rest)
  }

  lemma ExactNone(rows: Rows, tenant: string, grant: string, lo: int)
    ensures ExactSoFar(rows, tenant, grant, lo, rows.Keys) == 0
  {
    assert After(rows, tenant, grant, lo) - rows.Keys == {};
  }

  lemma ExactNext(rows: Rows, tenant: string, grant: string, lo: int, rest: set<Ident>, id: Ident)
    requires id in rest && rest <= rows.Keys
    ensures ExactSoFar(rows, tenant, grant, lo, rest - {id}) == ExactSoFar(rows, tenant, grant, lo, rest)
      + if Counts(rows, tenant, grant, id) && rows[id].submittedAt > lo then rows[id].notional else 0
  {
    Grow(rows, After(rows, tenant, grant, lo), rest, id);
  }

  lemma ExactAll(rows: Rows, tenant: string, grant: string, at: int)
    ensures Consumed(rows, tenant, grant, at) == Snapshot(
      ExactSoFar(rows, tenant, grant, at - HOUR, {}),
      ExactSoFar(rows, tenant, grant, DayStart(at) - 1, {}),
      OpenSoFar(rows, tenant, grant, {}))
  {
    assert After(rows, tenant, grant, at - HOUR) - {} == After(rows, tenant, grant, at - HOUR);
    assert After(rows, tenant, grant, DayStart(at) - 1) - {} == After(rows, tenant, grant, DayStart(at) - 1);
    assert OpenRows(rows, tenant, grant) - {} == OpenRows(rows, tenant, grant);
  }

  /** A method's `up` is whether the database answers. */
  class PostgresUsage {
    var rows: Rows

    constructor ()
      ensures rows == map[]
    {
      rows := map[];
    }

    /** SUM over the rows submitted after an instant. */
    method SumAfter(tenant: string, grant: string, lo: int) returns (sum: int)
      ensures sum == ExactSoFar(rows, tenant, grant, lo, {})
    {
      var all := rows;
      sum := 0;
      var rest := all.Keys;
      ExactNone(all, tenant, grant, lo);
      while rest != {}
        invariant rest <= all.Keys && sum == ExactSoFar(all, tenant, grant, lo, rest)
      {
        var id :| id in rest;
        ExactNext(all, tenant, grant, lo, rest, id);
        if Counts(all, tenant, grant, id) && all[id].submittedAt > lo { sum := sum + all[id].notional; }
        rest := rest - {id};
      }
    }

    method CountOpen(tenant: string, grant: string) returns (open: int)
      ensures open == OpenSoFar(rows, tenant, grant, {})
    {
      open := |OpenRows(rows, tenant, grant)|;
      assert OpenRows(rows, tenant, grant) - {} == OpenRows(rows, tenant, grant);
    }

    method Consumption(tenant: string, grant: string, at: int) returns (consumed: Snapshot)
      ensures consumed == Consumed(rows, tenant, grant, at)
    {
      var hour := SumAfter(tenant, grant, at - HOUR);
      var day := SumAfter(tenant, grant, DayStart(at) - 1);
      var open := CountOpen(tenant, grant);
      ExactAll(rows, tenant, grant, at);
      return Snapshot(hour, day, open);
    }

    /** Holds capacity behind the grant's lock: a retry is answered from its own row. */
    method Reserve(g: Grant, key: string, notional: Amount, who: Identity, at: int, up: bool) returns (decision: Option<Decision>)
      modifies this
      ensures !up ==> decision.None? && rows == old(rows)
      ensures up ==> rows == Ledger.Reserve(old(rows), g, key, notional, who, at).0
      ensures up ==> decision == Some(Ledger.Reserve(old(rows), g, key, notional, who, at).1)
    {
      if !up { return None; }
      var id := Ident(g.tenantID, key);
      if id in rows {
        if SameRequest(rows[id], g.grantID, who, notional) && ReadableAmount(notional) { return Some(Allow); }
        return Some(Deny("RESERVATION_KEY_REUSED"));
      }
      var consumed := Consumption(g.tenantID, g.grantID, at);
      if !Readable(consumed) { return Some(Deny("USAGE_UNAVAILABLE")); }
      var refusal := CheckLimits(g.limits, consumed, notional);
      if refusal.Some? { return Some(Deny(refusal.value)); }
      if notional < 0 { return Some(Deny("USAGE_UNAVAILABLE")); }
      rows := rows[id := NewEntry(g.grantID, who, notional, at)];
      return Some(Allow);
    }

    method Release(id: Ident, up: bool)
      modifies this
      ensures rows == if up then Ledger.Release(old(rows), id) else old(rows)
    {
      if up && id in rows && rows[id].state.Reserved? {
        rows := rows - {id};
      }
    }

    method Settle(id: Ident, state: ReservationState, open: bool, at: int, up: bool)
      modifies this
      ensures rows == if up then Ledger.Settle(old(rows), id, state, open, at) else old(rows)
    {
      if up && id in rows {
        rows := rows[id := rows[id].(state := state, open := open, closedAt := if open then None else Some(at))];
      }
    }
  }
}
