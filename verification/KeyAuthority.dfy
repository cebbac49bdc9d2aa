/** Who may authorize policy (internal/policy/activation_store.go): keys registered directly,
    bootstrapped once, or signed for by a key already registered. */
module KeyAuthority {
  import opened Wrappers

  const KEY_SIZE := 32

  datatype Key = Key(
    publicKey: seq<int>,
    holder: string,
    active: bool,
    validFrom: int,
    validUntil: Option<int>,
    revokedAt: Option<int>,
    revokedBy: string)

  datatype Action = Register | Bootstrap

  /** What authorized a key, by nonce. `signedBy` is None when nothing signed. */
  datatype Grant = Grant(action: Action, subject: string, actor: string, signedBy: Option<string>, authorizedAt: int, acceptedAt: int)

  datatype Tables = Tables(keys: map<string, Key>, grants: map<string, Grant>)

  const EMPTY := Tables(map[], map[])

  datatype Refusal = NotAKey | SignerUnknown | SignerRevoked | SignerNotYetValid | SignerExpired
                   | BootstrapSpent | Replayed | EventInvalid | LastUsable

  /** `registered` false is a key id that was taken. */
  datatype Answer = Done(registered: bool) | Refused(why: Refusal)

  /** Whether a key may authorize at an instant. */
  function Usable(k: Key, at: int): Option<Refusal> {
    if !k.active || k.revokedAt.Some? then Some(SignerRevoked)
    else if at < k.validFrom then Some(SignerNotYetValid)
    else if k.validUntil.Some? && at >= k.validUntil.value then Some(SignerExpired)
    else None
  }

  /** A key as it is inserted. */
  function Fresh(k: Key): Key {
    k.(revokedAt := None, revokedBy := "")
  }

  /** Registration outside any authorization. */
  function RegisterKey(t: Tables, id: string, k: Key): (Tables, Answer) {
    if |k.publicKey| != KEY_SIZE then (t, Refused(NotAKey))
    else if id in t.keys then (t, Done(false))
    else (t.(keys := t.keys[id := Fresh(k)]), Done(true))
  }

  function SignerFault(t: Tables, signedBy: Option<string>, at: int): Option<Refusal> {
    match signedBy
    case Some(s) => if s !in t.keys then Some(SignerUnknown) else Usable(t.keys[s], at)
    case None => if t.keys != map[] then Some(BootstrapSpent) else None
  }

  predicate BootstrapUsed(t: Tables) {
    exists n :: n in t.grants && t.grants[n].action.Bootstrap?
  }

  datatype Request = Request(id: string, key: Key, nonce: string, action: Action, actor: string, signedBy: Option<string>, authorizedAt: int)

  /** The key, what authorized it and its evidence, in one transaction: all or nothing. */
  function RegisterAuthorized(t: Tables, r: Request, at: int, recorded: bool): (Tables, Answer) {
    if |r.key.publicKey| != KEY_SIZE then (t, Refused(NotAKey))
    else if SignerFault(t, r.signedBy, at).Some? then (t, Refused(SignerFault(t, r.signedBy, at).value))
    else if r.nonce in t.grants then (t, Refused(Replayed))
    else if r.action.Bootstrap? && BootstrapUsed(t) then (t, Refused(BootstrapSpent))
    else if r.id in t.keys then (t, Done(false))
    else if !recorded then (t, Refused(EventInvalid))
    else
      (Tables(t.keys[r.id := Fresh(r.key)],
              t.grants[r.nonce := Grant(r.action, r.id, r.actor, r.signedBy, r.authorizedAt, at)]),
       Done(true))
  }

  /** The keys that could authorize at an instant. */
  function UsableKeys(t: Tables, at: int): set<string> {
    set id | id in t.keys && Usable(t.keys[id], at).None?
  }

  /** Revocation, refused for the last usable key by the database's own clock. */
  function RevokeKey(t: Tables, id: string, revoker: string, at: int, now: int): (Tables, Answer) {
    if |UsableKeys(t, now)| <= 1 then (t, Refused(LastUsable))
    else if id !in t.keys || !t.keys[id].active then (t, Done(false))
    else (t.(keys := t.keys[id := t.keys[id].(active := false, revokedAt := Some(at), revokedBy := revoker)]), Done(true))
  }

  // ---------------------------------------------------------------------------
  // Runs
  // ---------------------------------------------------------------------------

  datatype Label =
    | Provision(id: string, key: Key)
    | Authorize(request: Request, at: int, recorded: bool)
    | Revoke(id: string, revoker: string, at: int, now: int)

  /** How a key came to be: directly, as the bootstrap, or signed for, with the signer's row
      as it was at that instant. */
  datatype Origin =
    | Provisioned
    | Bootstrapped(nonce: string)
    | Signed(signer: string, row: Key, nonce: string, at: int)

  datatype Entry = Entry(id: string, publicKey: seq<int>, origin: Origin)

  /** The tables, and as history the keys in the order they were registered. */
  datatype System = System(tables: Tables, history: seq<Entry>)

  const INITIAL := System(EMPTY, [])

  function OriginOf(t: Tables, r: Request, at: int): Origin
    requires r.signedBy.Some? ==> r.signedBy.value in t.keys
  {
    match r.signedBy
    case None => Bootstrapped(r.nonce)
    case Some(s) => Signed(s, t.keys[s], r.nonce, at)
  }

  function Apply(s: System, l: Label): System {
    match l
    case Provision(id, k) =>
      var (t, answer) := RegisterKey(s.tables, id, k);
      System(t, if answer == Done(true) then s.history + [Entry(id, k.publicKey, Provisioned)] else s.history)
    case Authorize(r, at, recorded) =>
      var (t, answer) := RegisterAuthorized(s.tables, r, at, recorded);
      System(t, if answer == Done(true) then s.history + [Entry(r.id, r.key.publicKey, OriginOf(s.tables, r, at))] else s.history)
    case Revoke(id, revoker, at, now) =>
      System(RevokeKey(s.tables, id, revoker, at, now).0, s.history)
  }

  function Run(labels: seq<Label>): System
    decreases |labels|
  {
    if labels == [] then INITIAL else Apply(Run(labels[..|labels| - 1]), labels[|labels| - 1])
  }

  ghost predicate IdsOnce(history: seq<Entry>) {
    forall i, j :: 0 <= i < j < |history| ==> history[i].id != history[j].id
  }

  /** The table holds exactly the keys of the history, under their own public keys. */
  ghost predicate Stored(t: Tables, history: seq<Entry>) {
    && (forall i :: 0 <= i < |history| ==> history[i].id in t.keys && t.keys[history[i].id].publicKey == history[i].publicKey)
    && (forall id :: id in t.keys ==> exists i :: 0 <= i < |history| && history[i].id == id)
  }

  /** A signer was registered before what it signed for, and was usable then. */
  ghost predicate SignedEarlier(history: seq<Entry>, i: int) {
    0 <= i < |history| && (history[i].origin.Signed? ==>
      Usable(history[i].origin.row, history[i].origin.at).None?
      && exists j :: 0 <= j < i && history[j].id == history[i].origin.signer && history[j].publicKey == history[i].origin.row.publicKey)
  }

  /** Only the very first key is a bootstrap. */
  ghost predicate Rooted(history: seq<Entry>) {
    && (forall i :: 0 <= i < |history| ==> SignedEarlier(history, i))
    && (forall i :: 0 < i < |history| ==> !history[i].origin.Bootstrapped?)
  }

  /** Every grant is the origin of the key it names, and every authorized key has its grant. */
  ghost predicate GrantsMatch(t: Tables, history: seq<Entry>) {
    && (forall n :: n in t.grants ==> exists i :: 0 <= i < |history| && GrantFor(t, n, history[i]))
    && (forall i :: 0 <= i < |history| && !history[i].origin.Provisioned? ==> history[i].origin.nonce in t.grants && GrantFor(t, history[i].origin.nonce, history[i]))
  }

  predicate GrantFor(t: Tables, n: string, e: Entry)
    requires n in t.grants
  {
    var g := t.grants[n];
    && g.subject == e.id && !e.origin.Provisioned? && e.origin.nonce == n
    && (match g.signedBy
        case None => e.origin.Bootstrapped?
        case Some(s) => e.origin.Signed? && e.origin.signer == s && e.origin.at == g.acceptedAt)
  }

  ghost predicate OneBootstrapAction(t: Tables) {
    forall n, m :: n in t.grants && m in t.grants && t.grants[n].action.Bootstrap? && t.grants[m].action.Bootstrap? ==> n == m
  }

  ghost predicate Founded(s: System) {
    && IdsOnce(s.history) && Stored(s.tables, s.history) && Rooted(s.history)
    && GrantsMatch(s.tables, s.history) && OneBootstrapAction(s.tables)
  }

  // ---------------------------------------------------------------------------
  // Preservation
  // ---------------------------------------------------------------------------

  lemma AppendIds(t: Tables, history: seq<Entry>, e: Entry)
    requires IdsOnce(history) && Stored(t, history) && e.id !in t.keys
    ensures IdsOnce(history + [e])
  {
    forall i | 0 <= i < |history| ensures history[i].id != e.id {
      assert history[i].id in t.keys;
    }
  }

  lemma AppendStored(t: Tables, history: seq<Entry>, e: Entry, k: Key, grants: map<string, Grant>)
    requires Stored(t, history) && e.id !in t.keys && k.publicKey == e.publicKey
    ensures Stored(Tables(t.keys[e.id := k], grants), history + [e])
  {
    var keys, history' := t.keys[e.id := k], history + [e];
    forall id | id in keys ensures exists i :: 0 <= i < |history'| && history'[i].id == id {
      if id in t.keys {
        var i :| 0 <= i < |history| && history[i].id == id;
        assert history'[i].id == id;
      } else {
        assert history'[|history|].id == id;
      }
    }
  }

  lemma AppendRooted(history: seq<Entry>, e: Entry)
    requires Rooted(history)
    requires e.origin.Bootstrapped? ==> history == []
    requires e.origin.Signed? ==>
               && Usable(e.origin.row, e.origin.at).None?
               && exists j :: 0 <= j < |history| && history[j].id == e.origin.signer && history[j].publicKey == e.origin.row.publicKey
    ensures Rooted(history + [e])
  {
    var history' := history + [e];
    forall i | 0 <= i < |history'| ensures SignedEarlier(history', i) {
      if i < |history| {
        assert SignedEarlier(history, i);
        if history[i].origin.Signed? {
          var j :| 0 <= j < i && history[j].id == history[i].origin.signer && history[j].publicKey == history[i].origin.row.publicKey;
          assert history'[j].id == history'[i].origin.signer;
        }
      } else if e.origin.Signed? {
        var j :| 0 <= j < |history| && history[j].id == e.origin.signer && history[j].publicKey == e.origin.row.publicKey;
        assert history'[j].id == history'[i].origin.signer;
      }
    }
  }

  /** Grants that stay, over keys that changed. */
  lemma KeepGrants(t: Tables, t': Tables, history: seq<Entry>, more: seq<Entry>)
    requires GrantsMatch(t, history) && t'.grants == t.grants
    requires forall i :: 0 <= i < |more| ==> more[i].origin.Provisioned?
    ensures GrantsMatch(t', history + more)
  {
    var history' := history + more;
    forall n | n in t'.grants ensures exists i :: 0 <= i < |history'| && GrantFor(t', n, history'[i]) {
      var i :| 0 <= i < |history| && GrantFor(t, n, history[i]);
      assert GrantFor(t', n, history'[i]);
    }
  }

  lemma AppendGrant(t: Tables, t': Tables, history: seq<Entry>, e: Entry, n: string)
    requires GrantsMatch(t, history) && n !in t.grants
    requires n in t'.grants && t'.grants == t.grants[n := t'.grants[n]] && GrantFor(t', n, e)
    ensures GrantsMatch(t', history + [e])
  {
    var history' := history + [e];
    forall m | m in t'.grants ensures exists i :: 0 <= i < |history'| && GrantFor(t', m, history'[i]) {
      if m == n {
        assert GrantFor(t', m, history'[|history|]);
      } else {
        var i :| 0 <= i < |history| && GrantFor(t, m, history[i]);
        assert GrantFor(t', m, history'[i]);
      }
    }
    forall i | 0 <= i < |history'| && !history'[i].origin.Provisioned? ensures history'[i].origin.nonce in t'.grants && GrantFor(t', history'[i].origin.nonce, history'[i]) {
      if i < |history| { assert GrantFor(t, history[i].origin.nonce, history[i]); }
    }
  }

  lemma FoundedProvision(s: System, id: string, k: Key)
    requires Founded(s)
    ensures Founded(Apply(s, Provision(id, k)))
  {
    if |k.publicKey| == KEY_SIZE && id !in s.tables.keys {
      var e := Entry(id, k.publicKey, Provisioned);
      var t := Tables(s.tables.keys[id := Fresh(k)], s.tables.grants);
      AppendIds(s.tables, s.history, e);
      AppendStored(s.tables, s.history, e, Fresh(k), s.tables.grants);
      AppendRooted(s.history, e);
      KeepGrants(s.tables, t, s.history, [e]);
      assert Apply(s, Provision(id, k)) == System(t, s.history + [e]);
    }
  }

  lemma SignerRegistered(t: Tables, history: seq<Entry>, id: string)
    requires Stored(t, history) && id in t.keys
    ensures exists j :: 0 <= j < |history| && history[j].id == id && history[j].publicKey == t.keys[id].publicKey
  {
    var j :| 0 <= j < |history| && history[j].id == id;
  }

  lemma NewRooted(s: System, r: Request, at: int)
    requires Founded(s) && SignerFault(s.tables, r.signedBy, at).None?
    ensures Rooted(s.history + [Entry(r.id, r.key.publicKey, OriginOf(s.tables, r, at))])
  {
    assert s.history != [] ==> s.history[0].id in s.tables.keys;
    if r.signedBy.Some? {
      SignerRegistered(s.tables, s.history, r.signedBy.value);
    }
    AppendRooted(s.history, Entry(r.id, r.key.publicKey, OriginOf(s.tables, r, at)));
  }

  lemma AuthorizedIs(s: System, r: Request, at: int, recorded: bool)
    requires RegisterAuthorized(s.tables, r, at, recorded).1 == Done(true)
    ensures SignerFault(s.tables, r.signedBy, at).None? && r.id !in s.tables.keys && r.nonce !in s.tables.grants
    ensures r.action.Bootstrap? ==> !BootstrapUsed(s.tables)
    ensures Apply(s, Authorize(r, at, recorded)) == System(
      Tables(s.tables.keys[r.id := Fresh(r.key)],
             s.tables.grants[r.nonce := Grant(r.action, r.id, r.actor, r.signedBy, r.authorizedAt, at)]),
      s.history + [Entry(r.id, r.key.publicKey, OriginOf(s.tables, r, at))])
  {
  }

  lemma BootstrapActionOnce(t: Tables, keys: map<string, Key>, n: string, g: Grant)
    requires OneBootstrapAction(t) && (g.action.Bootstrap? ==> !BootstrapUsed(t))
    ensures OneBootstrapAction(Tables(keys, t.grants[n := g]))
  {
  }

  lemma FoundedAuthorize(s: System, r: Request, at: int, recorded: bool)
    requires Founded(s)
    ensures Founded(Apply(s, Authorize(r, at, recorded)))
  {
    if RegisterAuthorized(s.tables, r, at, recorded).1 == Done(true) {
      AuthorizedIs(s, r, at, recorded);
      var e := Entry(r.id, r.key.publicKey, OriginOf(s.tables, r, at));
      var g := Grant(r.action, r.id, r.actor, r.signedBy, r.authorizedAt, at);
      var t := Tables(s.tables.keys[r.id := Fresh(r.key)], s.tables.grants[r.nonce := g]);
      AppendIds(s.tables, s.history, e);
      AppendStored(s.tables, s.history, e, Fresh(r.key), t.grants);
      NewRooted(s, r, at);
      AppendGrant(s.tables, t, s.history, e, r.nonce);
      BootstrapActionOnce(s.tables, t.keys, r.nonce, g);
    } else {
      RefusedIs(s, r, at, recorded);
    }
  }

  lemma RefusedIs(s: System, r: Request, at: int, recorded: bool)
    requires RegisterAuthorized(s.tables, r, at, recorded).1 != Done(true)
    ensures Apply(s, Authorize(r, at, recorded)) == s
  {
  }

  lemma FoundedRevoke(s: System, id: string, revoker: string, at: int, now: int)
    requires Founded(s)
    ensures Founded(Apply(s, Revoke(id, revoker, at, now)))
  {
    var t := RevokeKey(s.tables, id, revoker, at, now).0;
    KeepGrants(s.tables, t, s.history, []);
    assert s.history + [] == s.history;
    assert t.keys.Keys == s.tables.keys.Keys;
  }

  lemma {:induction false} FoundedAlways(labels: seq<Label>)
    ensures Founded(Run(labels))
    decreases |labels|
  {
    if labels != [] {
      FoundedAlways(labels[..|labels| - 1]);
      var s, l := Run(labels[..|labels| - 1]), labels[|labels| - 1];
      match l
      case Provision(id, k) => FoundedProvision(s, id, k);
      case Authorize(r, at, recorded) => FoundedAuthorize(s, r, at, recorded);
      case Revoke(id, revoker, at, now) => FoundedRevoke(s, id, revoker, at, now);
    }
  }

  // ---------------------------------------------------------------------------
  // Provenance
  // ---------------------------------------------------------------------------

  /** The chain of signers from a key to the one nothing signed for, as positions in the
      order of registration. */
  ghost function Provenance(history: seq<Entry>, i: nat): (chain: seq<nat>)
    requires Rooted(history) && i < |history|
    ensures chain != [] && chain[0] == i
    decreases i
  {
    assert SignedEarlier(history, i);
    if !history[i].origin.Signed? then [i]
    else
      var j: nat :| j < i && history[j].id == history[i].origin.signer && history[j].publicKey == history[i].origin.row.publicKey;
      [i] + Provenance(history, j)
  }

  /** A chain of grants: it only ever goes back, each key on it was granted by the next while
      the next was usable, and it ends at a key nothing signed for. */
  ghost predicate Authentic(history: seq<Entry>, chain: seq<nat>) {
    && chain != [] && (forall n :: 0 <= n < |chain| ==> chain[n] < |history|)
    && (forall n :: 0 <= n < |chain| - 1 ==>
          && chain[n] > chain[n + 1]
          && history[chain[n]].origin.Signed?
          && history[chain[n]].origin.signer == history[chain[n + 1]].id
          && history[chain[n]].origin.row.publicKey == history[chain[n + 1]].publicKey
          && Usable(history[chain[n]].origin.row, history[chain[n]].origin.at).None?)
    && !history[chain[|chain| - 1]].origin.Signed?
  }

  lemma {:induction false} ProvenanceAuthentic(history: seq<Entry>, i: nat)
    requires Rooted(history) && i < |history|
    ensures Authentic(history, Provenance(history, i))
    decreases i
  {
    assert SignedEarlier(history, i);
    if history[i].origin.Signed? {
      var chain := Provenance(history, i);
      var j: nat :| j < i && history[j].id == history[i].origin.signer && history[j].publicKey == history[i].origin.row.publicKey
        && chain == [i] + Provenance(history, j);
      ProvenanceAuthentic(history, j);
      ProvenanceStarts(history, j);
      AuthenticGrows(history, i, j, Provenance(history, j));
    }
  }

  lemma ProvenanceStarts(history: seq<Entry>, i: nat)
    requires Rooted(history) && i < |history|
    ensures Provenance(history, i) != [] && Provenance(history, i)[0] == i
  {
  }

  /** One more link at the front. */
  lemma AuthenticGrows(history: seq<Entry>, i: nat, j: nat, chain: seq<nat>)
    requires Authentic(history, chain) && chain[0] == j && j < i < |history|
    requires history[i].origin.Signed? && Usable(history[i].origin.row, history[i].origin.at).None?
    requires history[j].id == history[i].origin.signer && history[j].publicKey == history[i].origin.row.publicKey
    ensures Authentic(history, [i] + chain)
  {
    var longer := [i] + chain;
    assert forall n :: 0 < n < |longer| ==> longer[n] == chain[n - 1];
  }

  /** In every run, every key in the table reaches, through a finite chain that never
      revisits a key and on which every signer was usable when it signed, either a directly
      provisioned key or the one bootstrap; and the bootstrap can only be the tenant's very
      first key. */
  lemma KeyAuthorityWellFounded(labels: seq<Label>, id: string)
    requires id in Run(labels).tables.keys
    ensures var history := Run(labels).history;
      && Rooted(history)
      && (exists i: nat :: i < |history| && history[i].id == id && Authentic(history, Provenance(history, i)))
      && (forall i :: 0 < i < |history| ==> !history[i].origin.Bootstrapped?)
  {
    FoundedAlways(labels);
    var history := Run(labels).history;
    var i: nat :| i < |history| && history[i].id == id;
    ProvenanceAuthentic(history, i);
  }

  /** At most one grant was made without a signer, and at most one under the bootstrap
      action. */
  lemma OneBootstrap(labels: seq<Label>, n: string, m: string)
    requires n in Run(labels).tables.grants && m in Run(labels).tables.grants
    ensures var grants := Run(labels).tables.grants;
      && (grants[n].signedBy.None? && grants[m].signedBy.None? ==> n == m)
      && (grants[n].action.Bootstrap? && grants[m].action.Bootstrap? ==> n == m)
  {
    FoundedAlways(labels);
    var s := Run(labels);
    var i :| 0 <= i < |s.history| && GrantFor(s.tables, n, s.history[i]);
    var j :| 0 <= j < |s.history| && GrantFor(s.tables, m, s.history[j]);
  }

  /** What any continuation keeps: a registered key id keeps its public key, a recorded grant
      stays as it was, and a revoked key stays revoked. */
  ghost predicate Persists(t: Tables, t': Tables) {
    && (forall id :: id in t.keys ==> id in t'.keys && t'.keys[id].publicKey == t.keys[id].publicKey && t'.keys[id].holder == t.keys[id].holder)
    && (forall id :: id in t.keys && !t.keys[id].active ==> t'.keys[id] == t.keys[id])
    && (forall n :: n in t.grants ==> n in t'.grants && t'.grants[n] == t.grants[n])
  }

  lemma ApplyPersists(s: System, l: Label)
    ensures Persists(s.tables, Apply(s, l).tables)
  {
  }

  lemma {:induction false} RunPersists(labels: seq<Label>, more: seq<Label>)
    ensures Persists(Run(labels).tables, Run(labels + more).tables)
    decreases |more|
  {
    if more == [] {
      assert labels + more == labels;
    } else {
      var before := more[..|more| - 1];
      RunPersists(labels, before);
      assert (labels + more)[..|labels + more| - 1] == labels + before;
      ApplyPersists(Run(labels + before), more[|more| - 1]);
    }
  }

  /** A revocation succeeds exactly when the key is active and two keys are usable, and
      leaves one usable; so no revocation ever leaves a tenant unable to authorize. */
  lemma RevokeExactly(t: Tables, id: string, revoker: string, at: int, now: int)
    ensures var (t', answer) := RevokeKey(t, id, revoker, at, now);
      && (answer == Done(true) <==> id in t.keys && t.keys[id].active && |UsableKeys(t, now)| >= 2)
      && (answer == Done(true) ==> UsableKeys(t', now) == UsableKeys(t, now) - {id} && UsableKeys(t', now) != {})
      && (answer != Done(true) ==> t' == t)
  {
    var (t', answer) := RevokeKey(t, id, revoker, at, now);
    if answer == Done(true) {
      assert UsableKeys(t', now) == UsableKeys(t, now) - {id};
      assert |UsableKeys(t, now) - {id}| >= |UsableKeys(t, now)| - 1;
    }
  }

  /** The entries from a place on were none of them signed by a key. */
  ghost predicate UnsignedSince(history: seq<Entry>, from: nat, id: string) {
    forall i :: from <= i < |history| && history[i].origin.Signed? ==> history[i].origin.signer != id
  }

  lemma ApplyRevoked(s: System, l: Label, id: string)
    requires id in s.tables.keys && s.tables.keys[id].revokedAt.Some?
    ensures id in Apply(s, l).tables.keys && Apply(s, l).tables.keys[id].revokedAt.Some?
    ensures |Apply(s, l).history| >= |s.history| && Apply(s, l).history[..|s.history|] == s.history
    ensures UnsignedSince(Apply(s, l).history, |s.history|, id)
  {
  }

  /** Once revoked, never again: in no continuation of any run does a revoked key sign for
      another, whatever clocks the later authorizations are accepted by, and what it signed
      before stands. */
  lemma {:induction false} RevokedSignsNothing(labels: seq<Label>, more: seq<Label>, id: string)
    requires id in Run(labels).tables.keys && Run(labels).tables.keys[id].revokedAt.Some?
    ensures Barred(Run(labels), Run(labels + more), id)
    decreases |more|
  {
    if more == [] {
      assert labels + more == labels;
    } else {
      var init, last := more[..|more| - 1], more[|more| - 1];
      RevokedSignsNothing(labels, init, id);
      assert (labels + more)[..|labels + more| - 1] == labels + init;
      BarredNext(Run(labels), Run(labels + init), last, id);
    }
  }

  /** Between the two, the key stayed revoked, the history only grew, and it signed for none of
      what was added. */
  ghost predicate Barred(before: System, after: System, id: string) {
    && id in after.tables.keys && after.tables.keys[id].revokedAt.Some?
    && |after.history| >= |before.history| && after.history[..|before.history|] == before.history
    && UnsignedSince(after.history, |before.history|, id)
  }

  lemma BarredNext(before: System, middle: System, last: Label, id: string)
    requires Barred(before, middle, id)
    ensures Barred(before, Apply(middle, last), id)
  {
    var after := Apply(middle, last);
    ApplyRevoked(middle, last, id);
    forall i | |before.history| <= i < |after.history| && after.history[i].origin.Signed? ensures after.history[i].origin.signer != id {
      if i < |middle.history| {
        assert after.history[i] == after.history[..|middle.history|][i];
      }
    }
    assert after.history[..|before.history|] == after.history[..|middle.history|][..|before.history|];
  }

  /** Registering under an authorization succeeds exactly when nothing stands against it, and
      a revoked key authorizes nothing. */
  lemma AuthorizedExactly(t: Tables, r: Request, at: int, recorded: bool)
    ensures var (t', answer) := RegisterAuthorized(t, r, at, recorded);
      && (answer == Done(true) <==>
            && |r.key.publicKey| == KEY_SIZE && recorded && r.id !in t.keys && r.nonce !in t.grants
            && (r.action.Bootstrap? ==> !BootstrapUsed(t))
            && match r.signedBy
               case None => t.keys == map[]
               case Some(s) => s in t.keys && t.keys[s].active && t.keys[s].revokedAt.None? && t.keys[s].validFrom <= at
                               && (t.keys[s].validUntil.None? || at < t.keys[s].validUntil.value))
      && (answer != Done(true) ==> t' == t)
  {
  }

  // ---------------------------------------------------------------------------
  // The store
  // ---------------------------------------------------------------------------

  /** The keys and grants of one tenant; `up` is whether the database answers. */
  class KeyStore {
    var keys: map<string, Key>
    var grants: map<string, Grant>

    constructor ()
      ensures State() == EMPTY
    {
      keys, grants := map[], map[];
    }

    function State(): Tables
      reads this
    {
      Tables(keys, grants)
    }

    /** The signer is read again inside the transaction, then the grant, then the key; a
        taken key id takes the grant back with it. */
    method RegisterKeyAuthorized(r: Request, at: int, recorded: bool, up: bool) returns (answer: Option<Answer>)
      modifies this
      ensures !up && |r.key.publicKey| == KEY_SIZE ==> answer.None? && State() == old(State())
      ensures up || |r.key.publicKey| != KEY_SIZE ==>
        && State() == RegisterAuthorized(old(State()), r, at, recorded).0
        && answer == Some(RegisterAuthorized(old(State()), r, at, recorded).1)
    {
      if |r.key.publicKey| != KEY_SIZE { return Some(Refused(NotAKey)); }
      if !up { return None; }
      if r.signedBy.Some? {
        if r.signedBy.value !in keys { return Some(Refused(SignerUnknown)); }
        var fault := Usable(keys[r.signedBy.value], at);
        if fault.Some? { return Some(Refused(fault.value)); }
      } else if |keys| > 0 {
        assert keys != map[];
        return Some(Refused(BootstrapSpent));
      }
      if r.nonce in grants { return Some(Refused(Replayed)); }
      if r.action.Bootstrap? && BootstrapUsed(State()) { return Some(Refused(BootstrapSpent)); }
      var before := grants;
      grants := grants[r.nonce := Grant(r.action, r.id, r.actor, r.signedBy, r.authorizedAt, at)];
      if r.id in keys {
        grants := before;
        return Some(Done(false));
      }
      if !recorded {
        grants := before;
        return Some(Refused(EventInvalid));
      }
      keys := keys[r.id := Fresh(r.key)];
      return Some(Done(true));
    }

    method Revoke(id: string, revoker: string, at: int, now: int, up: bool) returns (answer: Option<Answer>)
      modifies this`keys
      ensures !up ==> answer.None? && State() == old(State())
      ensures up ==> State() == RevokeKey(old(State()), id, revoker, at, now).0 && answer == Some(RevokeKey(old(State()), id, revoker, at, now).1)
    {
      if !up { return None; }
      var usable := CountUsable(now);
      if usable <= 1 { return Some(Refused(LastUsable)); }
      if id !in keys || !keys[id].active { return Some(Done(false)); }
      keys := keys[id := keys[id].(active := false, revokedAt := Some(at), revokedBy := revoker)];
      return Some(Done(true));
    }

    method CountUsable(now: int) returns (n: nat)
      ensures n == |UsableKeys(State(), now)|
    {
      n := |set id | id in keys && Usable(keys[id], now).None?|;
    }
  }
}
