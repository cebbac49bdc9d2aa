/** What a reconstructed parent intent is, with no word of how it is found
    (internal/intent/parent.go:111-253): which orders are one intent, that each intent is
    found, and what its summary says of them. */
module ParentIntents {
  import KeyOrder
  import opened Sorting
  import opened Notional
  import opened Clustering
  import opened Reconstruction

  /** One principal trades one instrument in one direction through one account. */
  predicate Alike(a: Envelope, b: Envelope) {
    && a.tenantID == b.tenantID
    && a.principalID == b.principalID
    && a.accountID == b.accountID
    && a.intent.instrumentID == b.intent.instrumentID
    && a.intent.side == b.intent.side
  }

  predicate Near(a: Envelope, b: Envelope, window: int) {
    -window <= a.receivedAt - b.receivedAt <= window
  }

  /** Alike orders in the order they came, no pause beyond the window, each as often as it was
      given, and none like them left out that came within the window of one of them. */
  ghost predicate IsIntent(cluster: seq<Envelope>, envelopes: seq<Envelope>, window: int) {
    && cluster != []
    && (forall e, f :: e in cluster && f in cluster ==> Alike(e, f))
    && (forall i, j :: 0 <= i < j < |cluster| ==> cluster[i].receivedAt <= cluster[j].receivedAt)
    && (forall i :: 0 < i < |cluster| ==> cluster[i].receivedAt - cluster[i - 1].receivedAt <= window)
    && (forall e :: e in cluster ==> multiset(cluster)[e] == multiset(envelopes)[e])
    && (forall e, f :: e in cluster && f in envelopes && Alike(e, f) && Near(e, f, window) ==> f in cluster)
  }

  // ---------------------------------------------------------------------------
  // Clusters of a sorted group
  // ---------------------------------------------------------------------------

  predicate Ascending(s: seq<Envelope>) {
    forall i, j :: 0 <= i < j < |s| ==> s[i].receivedAt <= s[j].receivedAt
  }

  predicate AllAscending(clusters: seq<seq<Envelope>>) {
    forall i :: 0 <= i < |clusters| ==> Ascending(clusters[i])
  }

  lemma {:induction false} PartsAscend(clusters: seq<seq<Envelope>>)
    requires Ascending(Flatten(clusters))
    ensures AllAscending(clusters)
    decreases |clusters|
  {
    if clusters != [] {
      var init, last := clusters[..|clusters| - 1], clusters[|clusters| - 1];
      var whole := Flatten(clusters);
      assert whole == Flatten(init) + last;
      assert Flatten(init) == whole[..|Flatten(init)|] && last == whole[|Flatten(init)|..];
      PartsAscend(init);
    }
  }

  /** Later clusters lie beyond the window of every earlier one. */
  lemma {:induction false} ClustersApart(clusters: seq<seq<Envelope>>, group: seq<Envelope>, window: int, i: nat, j: nat)
    requires Partitions(clusters, group, window) && AllAscending(clusters) && window >= 0 && i < j < |clusters|
    ensures forall x, y :: x in clusters[i] && y in clusters[j] ==> y.receivedAt - x.receivedAt > window
    decreases j
  {
    var a, b, c := clusters[i], clusters[j - 1], clusters[j];
    assert b != [] && c != [] && Apart(b, c, window);
    if i < j - 1 {
      ClustersApart(clusters, group, window, i, j - 1);
    }
    forall x, y | x in a && y in c ensures y.receivedAt - x.receivedAt > window {
      var k :| 0 <= k < |c| && c[k] == y;
      assert c[0].receivedAt <= y.receivedAt;
      if i < j - 1 {
        assert b[|b| - 1] in b;
      } else {
        var l :| 0 <= l < |a| && a[l] == x;
        assert x.receivedAt <= a[|a| - 1].receivedAt;
      }
    }
  }

  lemma {:induction false} InSomeCluster(clusters: seq<seq<Envelope>>, e: Envelope) returns (i: nat)
    requires e in Flatten(clusters)
    ensures i < |clusters| && e in clusters[i]
    decreases |clusters|
  {
    var init, last := clusters[..|clusters| - 1], clusters[|clusters| - 1];
    if e in last {
      i := |clusters| - 1;
    } else {
      assert e in Flatten(init);
      i := InSomeCluster(init, e);
    }
  }

  lemma {:induction false} CountedOnce(clusters: seq<seq<Envelope>>, e: Envelope, i: nat)
    requires i < |clusters| && forall j :: 0 <= j < |clusters| && j != i ==> e !in clusters[j]
    ensures multiset(Flatten(clusters))[e] == multiset(clusters[i])[e]
    decreases |clusters|
  {
    var init, last := clusters[..|clusters| - 1], clusters[|clusters| - 1];
    assert multiset(Flatten(clusters))[e] == multiset(Flatten(init))[e] + multiset(last)[e];
    if i < |init| {
      CountedOnce(init, e, i);
      assert e !in last;
    } else {
      CountedNowhere(init, e);
    }
  }

  lemma {:induction false} CountedNowhere(clusters: seq<seq<Envelope>>, e: Envelope)
    requires forall j :: 0 <= j < |clusters| ==> e !in clusters[j]
    ensures e !in Flatten(clusters)
    decreases |clusters|
  {
    if clusters != [] { CountedNowhere(clusters[..|clusters| - 1], e); }
  }

  /** One cluster takes every element within its reach. */
  lemma ClusterTakes(clusters: seq<seq<Envelope>>, group: seq<Envelope>, window: int, i: nat)
    requires Partitions(clusters, group, window) && AllAscending(clusters) && window >= 0 && i < |clusters|
    ensures forall e :: e in clusters[i] ==> e in group && multiset(clusters[i])[e] == multiset(group)[e]
    ensures forall e, f :: e in clusters[i] && f in group && Near(e, f, window) ==> f in clusters[i]
  {
    forall e | e in clusters[i] ensures multiset(clusters[i])[e] == multiset(group)[e] {
      forall j | 0 <= j < |clusters| && j != i ensures e !in clusters[j] {
        ClustersApart(clusters, group, window, if i < j then i else j, if i < j then j else i);
      }
      CountedOnce(clusters, e, i);
    }
    forall e | e in clusters[i] ensures e in group {
      assert multiset(clusters[i])[e] > 0 && e in multiset(group);
    }
    forall e, f | e in clusters[i] && f in group && Near(e, f, window) ensures f in clusters[i] {
      var j := InSomeCluster(clusters, f);
      if j != i {
        ClustersApart(clusters, group, window, if i < j then i else j, if i < j then j else i);
      }
    }
  }

  // ---------------------------------------------------------------------------
  // The clusters of one key
  // ---------------------------------------------------------------------------

  ghost function ClustersOf(envelopes: seq<Envelope>, k: Key, window: int): seq<seq<Envelope>> {
    Split(Sort(Before, Group(envelopes, k)), window)
  }

  lemma SortedGroup(envelopes: seq<Envelope>, k: Key)
    ensures Ascending(Sort(Before, Group(envelopes, k)))
    ensures multiset(Sort(Before, Group(envelopes, k))) == multiset(Group(envelopes, k))
  {
    TimeOrder();
    SortSorted(Before, Group(envelopes, k));
  }

  /** What a key's group holds. */
  lemma GroupHolds(envelopes: seq<Envelope>, k: Key, e: Envelope)
    ensures multiset(Sort(Before, Group(envelopes, k)))[e] == if KeyOf(e) == k then multiset(envelopes)[e] else 0
    ensures e in Sort(Before, Group(envelopes, k)) <==> e in envelopes && KeyOf(e) == k
  {
    GroupCounts(envelopes, k, e);
    assert e in Sort(Before, Group(envelopes, k)) <==> e in multiset(Sort(Before, Group(envelopes, k)));
    assert e in envelopes <==> e in multiset(envelopes);
  }

  /** The group is the envelopes with the key. */
  ghost predicate GroupIs(group: seq<Envelope>, envelopes: seq<Envelope>, k: Key) {
    && (forall e :: e in group <==> e in envelopes && KeyOf(e) == k)
    && (forall e :: e in group ==> multiset(group)[e] == multiset(envelopes)[e])
  }

  lemma SortedGroupIs(envelopes: seq<Envelope>, k: Key)
    ensures GroupIs(Sort(Before, Group(envelopes, k)), envelopes, k)
  {
    var group := Sort(Before, Group(envelopes, k));
    forall e ensures e in group <==> e in envelopes && KeyOf(e) == k {
      GroupHolds(envelopes, k, e);
    }
    forall e | e in group ensures multiset(group)[e] == multiset(envelopes)[e] {
      GroupHolds(envelopes, k, e);
    }
  }

  lemma TakesAll(cluster: seq<Envelope>, group: seq<Envelope>, envelopes: seq<Envelope>, k: Key, window: int)
    requires GroupIs(group, envelopes, k)
    requires cluster != [] && Ascending(cluster) && Tight(cluster, window)
    requires forall e :: e in cluster ==> e in group && multiset(cluster)[e] == multiset(group)[e]
    requires forall e, f :: e in cluster && f in group && Near(e, f, window) ==> f in cluster
    ensures IsIntent(cluster, envelopes, window) && forall e :: e in cluster ==> KeyOf(e) == k
  {
    forall e, f | e in cluster && f in envelopes && Alike(e, f) && Near(e, f, window) ensures f in cluster {
      assert KeyOf(f) == k;
    }
  }

  lemma ClusterIsIntent(envelopes: seq<Envelope>, k: Key, window: int, i: nat)
    requires window >= 0 && i < |ClustersOf(envelopes, k, window)|
    ensures IsIntent(ClustersOf(envelopes, k, window)[i], envelopes, window)
    ensures forall e :: e in ClustersOf(envelopes, k, window)[i] ==> KeyOf(e) == k
  {
    var group, clusters := Sort(Before, Group(envelopes, k)), ClustersOf(envelopes, k, window);
    SortedGroup(envelopes, k);
    SplitPartitions(group, window);
    PartsAscend(clusters);
    ClusterTakes(clusters, group, window, i);
    SortedGroupIs(envelopes, k);
    TakesAll(clusters[i], group, envelopes, k, window);
  }

  // ---------------------------------------------------------------------------
  // Parents
  // ---------------------------------------------------------------------------

  lemma {:induction false} SummaryIsOf(clusters: seq<seq<Envelope>>, minChildren: nat, p: Parent) returns (i: nat)
    requires forall j :: 0 <= j < |clusters| ==> clusters[j] != []
    requires p in Summaries(clusters, minChildren)
    ensures i < |clusters| && |clusters[i]| >= minChildren && p == SummaryOf(clusters[i])
    decreases |clusters|
  {
    var n := |clusters| - 1;
    if p in Summaries(clusters[..n], minChildren) {
      i := SummaryIsOf(clusters[..n], minChildren, p);
    } else {
      i := n;
    }
  }

  lemma {:induction false} SummaryIsIn(clusters: seq<seq<Envelope>>, minChildren: nat, i: nat)
    requires forall j :: 0 <= j < |clusters| ==> clusters[j] != []
    requires i < |clusters| && |clusters[i]| >= minChildren
    ensures SummaryOf(clusters[i]) in Summaries(clusters, minChildren)
    decreases |clusters|
  {
    if i < |clusters| - 1 { SummaryIsIn(clusters[..|clusters| - 1], minChildren, i); }
  }

  lemma {:induction false} ParentIsOfKey(keys: seq<Key>, envelopes: seq<Envelope>, window: int, minChildren: nat, p: Parent) returns (k: Key)
    requires p in ParentsOf(keys, envelopes, window, minChildren)
    ensures k in keys && p in ParentsOfGroup(Group(envelopes, k), window, minChildren)
    decreases |keys|
  {
    var before := keys[..|keys| - 1];
    if p in ParentsOf(before, envelopes, window, minChildren) {
      k := ParentIsOfKey(before, envelopes, window, minChildren, p);
    } else {
      k := keys[|keys| - 1];
    }
  }

  lemma {:induction false} ParentIsIn(keys: seq<Key>, envelopes: seq<Envelope>, window: int, minChildren: nat, k: Key, p: Parent)
    requires k in keys && p in ParentsOfGroup(Group(envelopes, k), window, minChildren)
    ensures p in ParentsOf(keys, envelopes, window, minChildren)
    decreases |keys|
  {
    if k != keys[|keys| - 1] {
      ParentIsIn(keys[..|keys| - 1], envelopes, window, minChildren, k, p);
    }
  }

  /** The summary of some intent of enough orders. */
  ghost predicate ParentFor(p: Parent, envelopes: seq<Envelope>, window: int, minChildren: nat) {
    exists c :: IsIntent(c, envelopes, window) && |c| >= minChildren && p == SummaryOf(c)
  }

  /** Everything reported is an intent of enough orders: alike, unbroken, and complete. */
  lemma EveryParentIsAnIntent(envelopes: seq<Envelope>, window: int, minChildren: int, p: Parent)
    requires p in Reconstructed(envelopes, window, minChildren)
    ensures ParentFor(p, envelopes, WindowOf(window), ChildrenOf(minChildren))
  {
    var w, m := WindowOf(window), ChildrenOf(minChildren);
    var k := ParentIsOfKey(Sort(KeyAtMost, ListOf(Keys(envelopes))), envelopes, w, m, p);
    var clusters := ClustersOf(envelopes, k, w);
    SplitPartitions(Sort(Before, Group(envelopes, k)), w);
    var i := SummaryIsOf(clusters, m, p);
    ClusterIsIntent(envelopes, k, w, i);
  }

  /** The intent an order belongs to, and that it is reported if it has enough orders. */
  ghost predicate BelongsTo(e: Envelope, c: seq<Envelope>, envelopes: seq<Envelope>, window: int, minChildren: nat, reported: seq<Parent>) {
    e in c && IsIntent(c, envelopes, window) && (|c| >= minChildren ==> SummaryOf(c) in reported)
  }

  /** Every order belongs to an intent, which is reported exactly if it has enough orders: none
      is overlooked. */
  lemma EveryOrderHasItsIntent(envelopes: seq<Envelope>, window: int, minChildren: int, e: Envelope)
    requires e in envelopes
    ensures exists c :: BelongsTo(e, c, envelopes, WindowOf(window), ChildrenOf(minChildren), Reconstructed(envelopes, window, minChildren))
  {
    var w, m, k := WindowOf(window), ChildrenOf(minChildren), KeyOf(e);
    var group, clusters := Sort(Before, Group(envelopes, k)), ClustersOf(envelopes, k, w);
    GroupHolds(envelopes, k, e);
    SplitPartitions(group, w);
    var i := InSomeCluster(clusters, e);
    ClusterIsIntent(envelopes, k, w, i);
    if |clusters[i]| >= m {
      SummaryIsIn(clusters, m, i);
      var keys := Sort(KeyAtMost, ListOf(Keys(envelopes)));
      assert k in multiset(keys) && k in keys;
      ParentIsIn(keys, envelopes, w, m, k, SummaryOf(clusters[i]));
    }
    assert BelongsTo(e, clusters[i], envelopes, w, m, Reconstructed(envelopes, window, minChildren));
  }

  // ---------------------------------------------------------------------------
  // The summary
  // ---------------------------------------------------------------------------

  predicate AllSame(c: seq<Envelope>, f: Envelope -> string) {
    forall a, b :: a in c && b in c ==> f(a) == f(b)
  }

  lemma SizeOne(s: set<string>, x: string)
    requires x in s
    ensures |s| == 1 <==> forall y :: y in s ==> y == x
  {
    if forall y :: y in s ==> y == x {
      assert s == {x};
    } else {
      var y :| y in s && y != x;
      assert {x, y} <= s && |{x, y}| == 2;
      assert |s - {x, y}| == |s| - 2;
    }
  }

  /** What the summary of an intent says: whose it is, and when it began and ended. */
  lemma SummaryMeans(c: seq<Envelope>, envelopes: seq<Envelope>, window: int)
    requires IsIntent(c, envelopes, window)
    ensures var p := SummaryOf(c);
      && (forall e :: e in c ==> p.key == Key(e.tenantID, e.principalID, e.accountID, e.intent.instrumentID, e.intent.side))
      && (forall e :: e in c ==> p.firstSeen <= e.receivedAt <= p.lastSeen)
      && (exists e :: e in c && e.receivedAt == p.firstSeen) && (exists e :: e in c && e.receivedAt == p.lastSeen)
      && (p.signals.proximity <==> p.lastSeen - p.firstSeen <= 30_000_000_000)
  {
    assert c[0] in c && c[|c| - 1] in c;
    forall e | e in c ensures c[0].receivedAt <= e.receivedAt <= c[|c| - 1].receivedAt && Alike(c[0], e) {
      var i :| 0 <= i < |c| && c[i] == e;
      assert i == 0 || c[0].receivedAt <= c[i].receivedAt;
      assert i == |c| - 1 || c[i].receivedAt <= c[|c| - 1].receivedAt;
    }
  }

  /** Which agents took part, each once and in byte order. */
  lemma AgentsMean(c: seq<Envelope>)
    requires c != []
    ensures KeyOrder.StrictlyAscending(SummaryOf(c).agents)
    ensures forall a :: a in SummaryOf(c).agents <==> exists e :: e in c && e.agentID == a
  {
    KeyOrder.KeysAscend(Agents(c));
  }

  /** The shared facts. */
  lemma SignalsMean(c: seq<Envelope>)
    requires c != []
    ensures var s := SummaryOf(c).signals;
      && (s.sameAgent <==> AllSame(c, (e: Envelope) => e.agentID))
      && (s.sameStrategy <==> AllSame(c, (e: Envelope) => e.strategyID))
      && (s.sameGrant <==> AllSame(c, (e: Envelope) => e.grantID))
      && (s.sameMarket <==> AllSame(c, (e: Envelope) => e.marketID))
  {
    OneValue(c, Agents(c), (e: Envelope) => e.agentID);
    OneValue(c, Strategies(c), (e: Envelope) => e.strategyID);
    OneValue(c, GrantIds(c), (e: Envelope) => e.grantID);
    OneValue(c, Markets(c), (e: Envelope) => e.marketID);
  }

  lemma OneValue(c: seq<Envelope>, values: set<string>, f: Envelope -> string)
    requires c != [] && values == set e | e in c :: f(e)
    ensures |values| == 1 <==> AllSame(c, f)
  {
    assert c[0] in c;
    SizeOne(values, f(c[0]));
    if |values| == 1 {
      forall a, b | a in c && b in c ensures f(a) == f(b) {
        assert f(a) in values && f(b) in values;
      }
    }
  }
}
