/** The rest of the reconstruction (internal/intent/parent.go): buckets, order, totals, and
    what they do not depend on. */
module Reconstruction {
  import opened Wrappers
  import Int64
  import Json
  import CanonicalWriter
  import StringOrder
  import opened Sorting
  import opened Notional
  import opened Clustering

  /** Which corroborating facts held across a cluster. */
  datatype Signals = Signals(proximity: bool, sameAgent: bool, sameStrategy: bool, sameGrant: bool, sameMarket: bool)

  datatype Parent = Parent(
    key: Key,
    children: seq<string>,
    agents: seq<string>,
    gross: Amount,
    net: Amount,
    indeterminate: nat,
    firstSeen: int,
    lastSeen: int,
    signals: Signals)

  const DEFAULT_WINDOW := 60_000_000_000
  const DEFAULT_CHILDREN := 2

  // ---------------------------------------------------------------------------
  // Totals
  // ---------------------------------------------------------------------------

  /** The notional of the children whose size can be determined, in exact arithmetic. */
  function GrossOf(cluster: seq<Envelope>): int {
    if cluster == [] then 0
    else
      var n := ClusterNotional(cluster[|cluster| - 1].intent);
      GrossOf(cluster[..|cluster| - 1]) + if n.Some? then n.value else 0
  }

  function NetOf(cluster: seq<Envelope>): int {
    if cluster == [] then 0
    else
      var e := cluster[|cluster| - 1];
      var n := ClusterNotional(e.intent);
      NetOf(cluster[..|cluster| - 1]) + (if n.None? then 0 else if e.intent.side == SELL then -(n.value as int) else n.value)
  }

  function Indeterminate(cluster: seq<Envelope>): nat {
    if cluster == [] then 0
    else Indeterminate(cluster[..|cluster| - 1]) + if ClusterNotional(cluster[|cluster| - 1].intent).None? then 1 else 0
  }

  function Ids(cluster: seq<Envelope>): seq<string> {
    if cluster == [] then [] else Ids(cluster[..|cluster| - 1]) + [cluster[|cluster| - 1].envelopeID]
  }

  function Agents(cluster: seq<Envelope>): set<string> { set e | e in cluster :: e.agentID }
  function Strategies(cluster: seq<Envelope>): set<string> { set e | e in cluster :: e.strategyID }
  function GrantIds(cluster: seq<Envelope>): set<string> { set e | e in cluster :: e.grantID }
  function Markets(cluster: seq<Envelope>): set<string> { set e | e in cluster :: e.marketID }

  /** What a cluster is summarized as. The totals are int64: additions wrap. */
  ghost function SummaryOf(cluster: seq<Envelope>): Parent
    requires cluster != []
  {
    var first, last := cluster[0], cluster[|cluster| - 1];
    Parent(
      KeyOf(first), Ids(cluster), Json.SortedKeys(Agents(cluster)),
      Int64.Wrap(GrossOf(cluster)), Int64.Wrap(NetOf(cluster)), Indeterminate(cluster),
      first.receivedAt, last.receivedAt,
      Signals(last.receivedAt - first.receivedAt <= DEFAULT_WINDOW / 2,
              |Agents(cluster)| == 1, |Strategies(cluster)| == 1, |GrantIds(cluster)| == 1, |Markets(cluster)| == 1))
  }

  method Total(cluster: seq<Envelope>) returns (children: seq<string>, gross: Amount, net: Amount, indeterminate: nat)
    ensures children == Ids(cluster) && indeterminate == Indeterminate(cluster)
    ensures gross == Int64.Wrap(GrossOf(cluster)) && net == Int64.Wrap(NetOf(cluster))
  {
    children, gross, net, indeterminate := [], 0, 0, 0;
    for i := 0 to |cluster|
      invariant children == Ids(cluster[..i]) && indeterminate == Indeterminate(cluster[..i])
      invariant gross == Int64.Wrap(GrossOf(cluster[..i])) && net == Int64.Wrap(NetOf(cluster[..i]))
    {
      var e := cluster[i];
      assert cluster[..i + 1][..i] == cluster[..i];
      children := children + [e.envelopeID];
      var n := ClusterNotional(e.intent);
      if n.None? {
        indeterminate := indeterminate + 1;
        continue;
      }
      Int64.WrapAdd(GrossOf(cluster[..i]), n.value);
      Int64.WrapAdd(NetOf(cluster[..i]), if e.intent.side == SELL then -(n.value as int) else n.value);
      gross := Int64.Wrap(gross + n.value);
      net := if e.intent.side == SELL then Int64.Wrap(net - n.value) else Int64.Wrap(net + n.value);
    }
    assert cluster[..|cluster|] == cluster;
  }

  method Summarize(cluster: seq<Envelope>) returns (p: Parent)
    requires cluster != []
    ensures p == SummaryOf(cluster)
  {
    var first, last := cluster[0], cluster[|cluster| - 1];
    var children, gross, net, indeterminate := Total(cluster);
    var agents, strategies, grants, markets := Collect(cluster);
    var sorted := SortAgents(agents);
    p := Parent(KeyOf(first), children, sorted, gross, net, indeterminate, first.receivedAt, last.receivedAt,
      Signals(last.receivedAt - first.receivedAt <= DEFAULT_WINDOW / 2, |agents| == 1, |strategies| == 1, |grants| == 1, |markets| == 1));
  }

  method Collect(cluster: seq<Envelope>) returns (agents: set<string>, strategies: set<string>, grants: set<string>, markets: set<string>)
    ensures agents == Agents(cluster) && strategies == Strategies(cluster) && grants == GrantIds(cluster) && markets == Markets(cluster)
  {
    agents, strategies, grants, markets := {}, {}, {}, {};
    for i := 0 to |cluster|
      invariant agents == Agents(cluster[..i]) && strategies == Strategies(cluster[..i])
      invariant grants == GrantIds(cluster[..i]) && markets == Markets(cluster[..i])
    {
      var e := cluster[i];
      assert cluster[..i + 1] == cluster[..i] + [e];
      agents, strategies := agents + {e.agentID}, strategies + {e.strategyID};
      grants, markets := grants + {e.grantID}, markets + {e.marketID};
    }
    assert cluster[..|cluster|] == cluster;
  }

  method SortAgents(agents: set<string>) returns (sorted: seq<string>)
    ensures sorted == Json.SortedKeys(agents)
  {
    var list: seq<string> := [];
    var rest := agents;
    while rest != {}
      invariant rest <= agents && forall a :: a in list <==> a in agents && a !in rest
    {
      var a :| a in rest;
      list, rest := list + [a], rest - {a};
    }
    assert (set a | a in list) == agents;
    sorted := CanonicalWriter.SortKeys(list);
  }

  // ---------------------------------------------------------------------------
  // Orders
  // ---------------------------------------------------------------------------

  predicate KeyAtMost(a: Key, b: Key) {
    if a.tenantID != b.tenantID then Json.AtMost(a.tenantID, b.tenantID)
    else if a.principalID != b.principalID then Json.AtMost(a.principalID, b.principalID)
    else if a.accountID != b.accountID then Json.AtMost(a.accountID, b.accountID)
    else if a.instrumentID != b.instrumentID then Json.AtMost(a.instrumentID, b.instrumentID)
    else Json.AtMost(a.side, b.side)
  }

  lemma KeyOrder()
    ensures TotalPreorder(KeyAtMost)
    ensures forall a, b :: KeyAtMost(a, b) && KeyAtMost(b, a) ==> a == b
  {
    StringOrder.StringsOrdered();
    forall a, b ensures KeyAtMost(a, b) || KeyAtMost(b, a) {}
    forall a, b, c | KeyAtMost(a, b) && KeyAtMost(b, c) ensures KeyAtMost(a, c) {}
  }

  lemma TimeOrder()
    ensures TotalPreorder(Before)
    ensures forall a, b :: Before(a, b) && Before(b, a) ==> a.envelopeID == b.envelopeID
  {
    StringOrder.StringsOrdered();
  }

  // ---------------------------------------------------------------------------
  // Buckets
  // ---------------------------------------------------------------------------

  /** The envelopes with a key, in their order. */
  function Group(envelopes: seq<Envelope>, k: Key): seq<Envelope> {
    if envelopes == [] then []
    else
      var e := envelopes[|envelopes| - 1];
      Group(envelopes[..|envelopes| - 1], k) + if KeyOf(e) == k then [e] else []
  }

  function Keys(envelopes: seq<Envelope>): set<Key> {
    set e | e in envelopes :: KeyOf(e)
  }

  function Present(envelopes: seq<Option<Envelope>>): seq<Envelope> {
    if envelopes == [] then []
    else
      var e := envelopes[|envelopes| - 1];
      Present(envelopes[..|envelopes| - 1]) + if e.Some? then [e.value] else []
  }

  ghost function ListOf(keys: set<Key>): (list: seq<Key>)
    ensures multiset(list) == multiset(keys)
  {
    if keys == {} then []
    else
      var k :| k in keys;
      [k] + ListOf(keys - {k})
  }

  /** The clusters large enough to be called an intent, summarized. */
  ghost function Summaries(clusters: seq<seq<Envelope>>, minChildren: nat): seq<Parent>
    requires forall i :: 0 <= i < |clusters| ==> clusters[i] != []
    decreases |clusters|
  {
    if clusters == [] then []
    else
      var last := clusters[|clusters| - 1];
      Summaries(clusters[..|clusters| - 1], minChildren) + if |last| < minChildren then [] else [SummaryOf(last)]
  }

  ghost function ParentsOfGroup(group: seq<Envelope>, window: int, minChildren: nat): seq<Parent> {
    SplitPartitions(Sort(Before, group), window);
    Summaries(Split(Sort(Before, group), window), minChildren)
  }

  ghost function ParentsOf(keys: seq<Key>, envelopes: seq<Envelope>, window: int, minChildren: nat): seq<Parent>
    decreases |keys|
  {
    if keys == [] then []
    else ParentsOf(keys[..|keys| - 1], envelopes, window, minChildren) + ParentsOfGroup(Group(envelopes, keys[|keys| - 1]), window, minChildren)
  }

  function WindowOf(window: int): int {
    if window <= 0 then DEFAULT_WINDOW else window
  }

  function ChildrenOf(minChildren: int): nat {
    if minChildren < 2 then DEFAULT_CHILDREN else minChildren
  }

  /** What a set of envelopes reconstructs to. */
  ghost function Reconstructed(envelopes: seq<Envelope>, window: int, minChildren: int): seq<Parent> {
    ParentsOf(Sort(KeyAtMost, ListOf(Keys(envelopes))), envelopes, WindowOf(window), ChildrenOf(minChildren))
  }

  ghost predicate BucketsOf(buckets: map<Key, seq<Envelope>>, envelopes: seq<Envelope>) {
    buckets.Keys == Keys(envelopes) && forall k :: k in buckets ==> buckets[k] == Group(envelopes, k)
  }

  method FillBuckets(envelopes: seq<Option<Envelope>>) returns (buckets: map<Key, seq<Envelope>>)
    ensures BucketsOf(buckets, Present(envelopes))
  {
    buckets := map[];
    for i := 0 to |envelopes|
      invariant BucketsOf(buckets, Present(envelopes[..i]))
    {
      assert envelopes[..i + 1][..i] == envelopes[..i];
      if envelopes[i].Some? {
        var e := envelopes[i].value;
        BucketsGrow(buckets, Present(envelopes[..i]), e);
        buckets := buckets[KeyOf(e) := (if KeyOf(e) in buckets then buckets[KeyOf(e)] else []) + [e]];
      } else {
        assert Present(envelopes[..i + 1]) == Present(envelopes[..i]);
      }
    }
    assert envelopes[..|envelopes|] == envelopes;
  }

  lemma BucketsGrow(buckets: map<Key, seq<Envelope>>, before: seq<Envelope>, e: Envelope)
    requires BucketsOf(buckets, before)
    ensures BucketsOf(buckets[KeyOf(e) := (if KeyOf(e) in buckets then buckets[KeyOf(e)] else []) + [e]], before + [e])
  {
    BucketGrows(before, e);
  }

  lemma BucketGrows(before: seq<Envelope>, e: Envelope)
    ensures Keys(before + [e]) == Keys(before) + {KeyOf(e)}
    ensures forall k :: Group(before + [e], k) == Group(before, k) + if KeyOf(e) == k then [e] else []
    ensures KeyOf(e) !in Keys(before) ==> Group(before, KeyOf(e)) == []
  {
    assert (before + [e])[..|before|] == before;
    if KeyOf(e) !in Keys(before) { NoGroup(before, KeyOf(e)); }
  }

  lemma {:induction false} NoGroup(envelopes: seq<Envelope>, k: Key)
    requires k !in Keys(envelopes)
    ensures Group(envelopes, k) == []
    decreases |envelopes|
  {
    if envelopes != [] {
      var before := envelopes[..|envelopes| - 1];
      assert envelopes == before + [envelopes[|envelopes| - 1]];
      assert Keys(before) <= Keys(envelopes);
      NoGroup(before, k);
    }
  }

  /** The keys of the map, in whatever order it yields them, sorted. */
  method SortedKeysOf(buckets: map<Key, seq<Envelope>>) returns (keys: seq<Key>)
    ensures keys == Sort(KeyAtMost, ListOf(buckets.Keys))
  {
    var list: seq<Key> := [];
    var rest := buckets.Keys;
    while rest != {}
      invariant rest <= buckets.Keys && multiset(list) == multiset(buckets.Keys - rest)
    {
      var k :| k in rest;
      assert buckets.Keys - (rest - {k}) == (buckets.Keys - rest) + {k};
      list, rest := list + [k], rest - {k};
    }
    assert buckets.Keys - {} == buckets.Keys;
    KeyOrder();
    SortForgets(KeyAtMost, list, ListOf(buckets.Keys));
    keys := Sort(KeyAtMost, list);
  }

  lemma SummariesNext(clusters: seq<seq<Envelope>>, i: nat, minChildren: nat)
    requires i < |clusters| && forall j :: 0 <= j < |clusters| ==> clusters[j] != []
    ensures Summaries(clusters[..i + 1], minChildren) ==
      Summaries(clusters[..i], minChildren) + if |clusters[i]| < minChildren then [] else [SummaryOf(clusters[i])]
  {
    assert clusters[..i + 1][..i] == clusters[..i];
  }

  method SummarizeAll(clusters: seq<seq<Envelope>>, minChildren: nat) returns (out: seq<Parent>)
    requires forall j :: 0 <= j < |clusters| ==> clusters[j] != []
    ensures out == Summaries(clusters, minChildren)
  {
    out := [];
    for i := 0 to |clusters|
      invariant out == Summaries(clusters[..i], minChildren)
    {
      SummariesNext(clusters, i, minChildren);
      if |clusters[i]| < minChildren { continue; }
      var p := Summarize(clusters[i]);
      out := out + [p];
    }
    assert clusters[..|clusters|] == clusters;
  }

  method Parents(group: seq<Envelope>, window: int, minChildren: nat) returns (out: seq<Parent>)
    ensures out == ParentsOfGroup(group, window, minChildren)
  {
    var sorted := Sort(Before, group);
    var clusters := SplitByGap(sorted, window);
    SplitPartitions(sorted, window);
    out := SummarizeAll(clusters, minChildren);
  }

  lemma ParentsNext(keys: seq<Key>, i: nat, envelopes: seq<Envelope>, window: int, minChildren: nat)
    requires i < |keys|
    ensures ParentsOf(keys[..i + 1], envelopes, window, minChildren) ==
      ParentsOf(keys[..i], envelopes, window, minChildren) + ParentsOfGroup(Group(envelopes, keys[i]), window, minChildren)
  {
    assert keys[..i + 1][..i] == keys[..i];
  }

  method ParentsOfBuckets(buckets: map<Key, seq<Envelope>>, keys: seq<Key>, ghost envelopes: seq<Envelope>, window: int, minChildren: nat)
    returns (out: seq<Parent>)
    requires BucketsOf(buckets, envelopes) && forall i :: 0 <= i < |keys| ==> keys[i] in buckets
    ensures out == ParentsOf(keys, envelopes, window, minChildren)
  {
    out := [];
    for i := 0 to |keys|
      invariant out == ParentsOf(keys[..i], envelopes, window, minChildren)
    {
      ParentsNext(keys, i, envelopes, window, minChildren);
      var parents := Parents(buckets[keys[i]], window, minChildren);
      out := out + parents;
    }
    assert keys[..|keys|] == keys;
  }

  method Reconstruct(envelopes: seq<Option<Envelope>>, window: int, minChildren: int) returns (out: seq<Parent>)
    ensures out == Reconstructed(Present(envelopes), window, minChildren)
  {
    var buckets := FillBuckets(envelopes);
    var keys := SortedKeysOf(buckets);
    KeysInBuckets(buckets, keys);
    out := ParentsOfBuckets(buckets, keys, Present(envelopes), WindowOf(window), ChildrenOf(minChildren));
  }

  lemma KeysInBuckets(buckets: map<Key, seq<Envelope>>, keys: seq<Key>)
    requires keys == Sort(KeyAtMost, ListOf(buckets.Keys))
    ensures forall i :: 0 <= i < |keys| ==> keys[i] in buckets
  {
    forall i | 0 <= i < |keys| ensures keys[i] in buckets {
      assert keys[i] in multiset(keys);
    }
  }

  // ---------------------------------------------------------------------------
  // What the result does not depend on
  // ---------------------------------------------------------------------------

  lemma {:induction false} GroupCounts(envelopes: seq<Envelope>, k: Key, e: Envelope)
    ensures multiset(Group(envelopes, k))[e] == if KeyOf(e) == k then multiset(envelopes)[e] else 0
    decreases |envelopes|
  {
    if envelopes != [] {
      var before, last := envelopes[..|envelopes| - 1], envelopes[|envelopes| - 1];
      GroupCounts(before, k, e);
      assert envelopes == before + [last];
    }
  }

  lemma GroupsAgree(a: seq<Envelope>, b: seq<Envelope>, k: Key)
    requires multiset(a) == multiset(b)
    ensures multiset(Group(a, k)) == multiset(Group(b, k))
    ensures forall e :: e in multiset(Group(a, k)) ==> e in a
  {
    forall e ensures multiset(Group(a, k))[e] == multiset(Group(b, k))[e] && multiset(Group(a, k))[e] <= multiset(a)[e] {
      GroupCounts(a, k, e);
      GroupCounts(b, k, e);
    }
  }

  /** Envelope ids name envelopes. */
  predicate IdsDistinct(envelopes: seq<Envelope>) {
    forall i, j :: 0 <= i < j < |envelopes| && envelopes[i].envelopeID == envelopes[j].envelopeID ==> envelopes[i] == envelopes[j]
  }

  lemma GroupUntied(a: seq<Envelope>, k: Key)
    requires IdsDistinct(a)
    ensures Untied(Before, multiset(Group(a, k)))
  {
    GroupsAgree(a, a, k);
    TimeOrder();
    forall x, y | x in multiset(Group(a, k)) && y in multiset(Group(a, k)) && Before(x, y) && Before(y, x) ensures x == y {
      var i :| 0 <= i < |a| && a[i] == x;
      var j :| 0 <= j < |a| && a[j] == y;
    }
  }

  lemma SortedGroupsAgree(a: seq<Envelope>, b: seq<Envelope>, k: Key)
    requires multiset(a) == multiset(b) && IdsDistinct(a)
    ensures Sort(Before, Group(a, k)) == Sort(Before, Group(b, k))
  {
    GroupsAgree(a, b, k);
    TimeOrder();
    GroupUntied(a, k);
    SortForgets(Before, Group(a, k), Group(b, k));
  }

  lemma GroupParentsAgree(a: seq<Envelope>, b: seq<Envelope>, k: Key, window: int, minChildren: nat)
    requires multiset(a) == multiset(b) && IdsDistinct(a)
    ensures ParentsOfGroup(Group(a, k), window, minChildren) == ParentsOfGroup(Group(b, k), window, minChildren)
  {
    SortedGroupsAgree(a, b, k);
  }

  lemma {:induction false} ParentsAgree(keys: seq<Key>, a: seq<Envelope>, b: seq<Envelope>, window: int, minChildren: nat)
    requires multiset(a) == multiset(b) && IdsDistinct(a)
    ensures ParentsOf(keys, a, window, minChildren) == ParentsOf(keys, b, window, minChildren)
    decreases |keys|
  {
    if keys != [] {
      ParentsAgree(keys[..|keys| - 1], a, b, window, minChildren);
      GroupParentsAgree(a, b, keys[|keys| - 1], window, minChildren);
    }
  }

  lemma KeysAgree(a: seq<Envelope>, b: seq<Envelope>)
    requires multiset(a) == multiset(b)
    ensures Keys(a) == Keys(b)
  {
    forall e ensures e in a <==> e in b {
      assert e in a <==> e in multiset(a);
      assert e in b <==> e in multiset(b);
    }
  }

  /** The order the envelopes arrive in does not matter: the same clusters, with the same
      totals, in the same order. */
  lemma OrderIndependent(a: seq<Envelope>, b: seq<Envelope>, window: int, minChildren: int)
    requires multiset(a) == multiset(b) && IdsDistinct(a)
    ensures Reconstructed(a, window, minChildren) == Reconstructed(b, window, minChildren)
  {
    KeysAgree(a, b);
    ParentsAgree(Sort(KeyAtMost, ListOf(Keys(a))), a, b, WindowOf(window), ChildrenOf(minChildren));
  }

  // ---------------------------------------------------------------------------
  // What the totals say
  // ---------------------------------------------------------------------------

  function DeterminateSum(cluster: seq<Envelope>, side: string): int {
    if cluster == [] then 0
    else
      var e := cluster[|cluster| - 1];
      var n := ClusterNotional(e.intent);
      DeterminateSum(cluster[..|cluster| - 1], side) + if n.Some? && (e.intent.side == SELL) == (side == SELL) then n.value else 0
  }

  /** Every child is accounted for: its id once, and its notional in the totals or itself in
      the count of those without one. */
  lemma {:induction false} EveryChildAccounted(cluster: seq<Envelope>)
    ensures |Ids(cluster)| == |cluster|
    ensures forall i :: 0 <= i < |cluster| ==> Ids(cluster)[i] == cluster[i].envelopeID
    ensures GrossOf(cluster) == DeterminateSum(cluster, BUY) + DeterminateSum(cluster, SELL)
    ensures NetOf(cluster) == DeterminateSum(cluster, BUY) - DeterminateSum(cluster, SELL)
    ensures Indeterminate(cluster) == |cluster| <==> forall i :: 0 <= i < |cluster| ==> ClusterNotional(cluster[i].intent).None?
    ensures Indeterminate(cluster) == 0 <==> forall i :: 0 <= i < |cluster| ==> ClusterNotional(cluster[i].intent).Some?
    ensures Indeterminate(cluster) <= |cluster|
    decreases |cluster|
  {
    if cluster != [] {
      var before := cluster[..|cluster| - 1];
      EveryChildAccounted(before);
      assert forall i :: 0 <= i < |before| ==> before[i] == cluster[i];
    }
  }
}
