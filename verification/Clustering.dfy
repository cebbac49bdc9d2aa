/** Reconstructing parent intents (internal/intent/parent.go): orders grouped by who trades
    what in which direction, sorted by time, and split wherever they fall quiet. */
module Clustering {
  import Json
  import opened Notional

  datatype Envelope = Envelope(
    envelopeID: string,
    tenantID: string,
    principalID: string,
    accountID: string,
    agentID: string,
    strategyID: string,
    grantID: string,
    marketID: string,
    receivedAt: int,
    intent: Intent)

  /** The grouping key; it leaves the agent out. */
  datatype Key = Key(tenantID: string, principalID: string, accountID: string, instrumentID: string, side: string)

  function KeyOf(e: Envelope): Key {
    Key(e.tenantID, e.principalID, e.accountID, e.intent.instrumentID, e.intent.side)
  }

  /** By time, then by envelope id. */
  predicate Before(a: Envelope, b: Envelope) {
    a.receivedAt < b.receivedAt || (a.receivedAt == b.receivedAt && Json.AtMost(a.envelopeID, b.envelopeID))
  }

  // ---------------------------------------------------------------------------
  // Splitting
  // ---------------------------------------------------------------------------

  function Split(group: seq<Envelope>, window: int): (clusters: seq<seq<Envelope>>)
    ensures group != [] ==> clusters != []
    decreases |group|
  {
    if group == [] then []
    else
      var n := |group| - 1;
      var before := Split(group[..n], window);
      if n == 0 || group[n].receivedAt - group[n - 1].receivedAt > window then before + [[group[n]]]
      else before[..|before| - 1] + [before[|before| - 1] + [group[n]]]
  }

  function Flatten(clusters: seq<seq<Envelope>>): seq<Envelope>
    decreases |clusters|
  {
    if clusters == [] then [] else Flatten(clusters[..|clusters| - 1]) + clusters[|clusters| - 1]
  }

  /** A cluster in which no gap exceeds the window. */
  predicate Tight(cluster: seq<Envelope>, window: int) {
    forall i :: 0 < i < |cluster| ==> cluster[i].receivedAt - cluster[i - 1].receivedAt <= window
  }

  predicate Apart(a: seq<Envelope>, b: seq<Envelope>, window: int) {
    a != [] && b != [] && b[0].receivedAt - a[|a| - 1].receivedAt > window
  }

  /** Nonempty tight clusters, further apart than the window, that together are the group. */
  ghost predicate Partitions(clusters: seq<seq<Envelope>>, group: seq<Envelope>, window: int) {
    && Flatten(clusters) == group
    && (forall i :: 0 <= i < |clusters| ==> clusters[i] != [] && Tight(clusters[i], window))
    && (forall i, j :: 0 <= i < j < |clusters| && j == i + 1 ==> Apart(clusters[i], clusters[j], window))
  }

  method SplitByGap(group: seq<Envelope>, window: int) returns (clusters: seq<seq<Envelope>>)
    ensures clusters == Split(group, window)
  {
    if group == [] { return []; }
    clusters := [];
    var current := [group[0]];
    assert group[..1] == [group[0]] && Split(group[..1], window) == [] + [[group[0]]];
    for i := 1 to |group|
      invariant clusters + [current] == Split(group[..i], window)
    {
      assert group[..i + 1][..i] == group[..i];
      if group[i].receivedAt - group[i - 1].receivedAt > window {
        clusters := clusters + [current];
        current := [group[i]];
      } else {
        current := current + [group[i]];
      }
    }
    clusters := clusters + [current];
    assert group[..|group|] == group;
  }

  lemma LastOfFlatten(clusters: seq<seq<Envelope>>, group: seq<Envelope>)
    requires clusters != [] && clusters[|clusters| - 1] != [] && Flatten(clusters) == group
    ensures group != [] && group[|group| - 1] == clusters[|clusters| - 1][|clusters[|clusters| - 1]| - 1]
  {
  }

  /** The group's next element, after a longer gap, starts a cluster. */
  lemma PartitionOpens(clusters: seq<seq<Envelope>>, group: seq<Envelope>, window: int, e: Envelope)
    requires Partitions(clusters, group, window) && clusters != [] && group != []
    requires e.receivedAt - group[|group| - 1].receivedAt > window
    ensures Partitions(clusters + [[e]], group + [e], window)
  {
    LastOfFlatten(clusters, group);
    assert (clusters + [[e]])[..|clusters|] == clusters;
  }

  /** And otherwise joins the last one. */
  lemma PartitionJoins(clusters: seq<seq<Envelope>>, group: seq<Envelope>, window: int, e: Envelope)
    requires Partitions(clusters, group, window) && clusters != [] && group != []
    requires e.receivedAt - group[|group| - 1].receivedAt <= window
    ensures Partitions(clusters[..|clusters| - 1] + [clusters[|clusters| - 1] + [e]], group + [e], window)
  {
    LastOfFlatten(clusters, group);
    var init, last := clusters[..|clusters| - 1], clusters[|clusters| - 1];
    var longer := last + [e];
    var clusters' := init + [longer];
    assert clusters'[..|init|] == init;
    assert Flatten(clusters') == Flatten(init) + longer;
    assert Flatten(init) + longer == group + [e];
    TightJoins(last, e, window);
    forall i, j | 0 <= i < j < |clusters'| && j == i + 1 ensures Apart(clusters'[i], clusters'[j], window) {
      assert Apart(clusters[i], clusters[j], window);
    }
  }

  lemma TightJoins(last: seq<Envelope>, e: Envelope, window: int)
    requires last != [] && Tight(last, window) && e.receivedAt - last[|last| - 1].receivedAt <= window
    ensures Tight(last + [e], window)
  {
  }

  /** Splitting partitions the group. */
  lemma {:induction false} SplitPartitions(group: seq<Envelope>, window: int)
    ensures Partitions(Split(group, window), group, window)
    decreases |group|
  {
    if |group| == 1 {
      SplitOne(group, window);
    } else if |group| > 1 {
      var before, e := group[..|group| - 1], group[|group| - 1];
      SplitPartitions(before, window);
      assert group == before + [e];
      if e.receivedAt - before[|before| - 1].receivedAt > window {
        PartitionOpens(Split(before, window), before, window, e);
      } else {
        PartitionJoins(Split(before, window), before, window, e);
      }
    }
  }

  lemma SplitOne(group: seq<Envelope>, window: int)
    requires |group| == 1
    ensures Partitions(Split(group, window), group, window)
  {
    OneCluster(group, window);
    var before := Split(group[..0], window);
    assert [group[0]] == group;
    assert before == [] && before + [[group[0]]] == [group];
  }

  lemma OneCluster(group: seq<Envelope>, window: int)
    requires |group| == 1
    ensures Partitions([group], group, window)
  {
    var c := [group];
    assert c[..0] == [] && c[0] == group;
    assert Flatten(c) == Flatten(c[..0]) + c[0];
  }

  lemma PartitionShrinks(clusters: seq<seq<Envelope>>, group: seq<Envelope>, window: int)
    requires Partitions(clusters, group, window) && group != []
    ensures clusters != []
    ensures var last := clusters[|clusters| - 1];
      |last| > 1 ==> Partitions(clusters[..|clusters| - 1] + [last[..|last| - 1]], group[..|group| - 1], window)
    ensures |clusters[|clusters| - 1]| == 1 ==> Partitions(clusters[..|clusters| - 1], group[..|group| - 1], window)
  {
    var init, last := clusters[..|clusters| - 1], clusters[|clusters| - 1];
    LastOfFlatten(clusters, group);
    assert group == Flatten(init) + last;
    if |last| > 1 {
      var shorter := last[..|last| - 1];
      assert (init + [shorter])[..|init|] == init;
      assert Flatten(init) + shorter == group[..|group| - 1];
    } else {
      assert Flatten(init) == group[..|group| - 1];
    }
  }

  /** And there is no other way to: the clusters are determined by the gaps, so none could be
      larger. */
  lemma {:induction false} SplitIsTheOnly(clusters: seq<seq<Envelope>>, group: seq<Envelope>, window: int)
    requires Partitions(clusters, group, window)
    ensures clusters == Split(group, window)
    decreases |group|
  {
    if group == [] {
      if clusters != [] { LastOfFlatten(clusters, group); }
    } else {
      PartitionShrinks(clusters, group, window);
      LastOfFlatten(clusters, group);
      var n := |group| - 1;
      var init, last := clusters[..|clusters| - 1], clusters[|clusters| - 1];
      assert clusters == init + [last];
      if |last| > 1 {
        var shorter := last[..|last| - 1];
        SplitIsTheOnly(init + [shorter], group[..n], window);
        assert last == shorter + [group[n]];
        GapInside(clusters, group, window);
      } else {
        SplitIsTheOnly(init, group[..n], window);
        assert last == [group[n]];
        if n > 0 { GapBetween(clusters, group, window); }
      }
    }
  }

  lemma GapInside(clusters: seq<seq<Envelope>>, group: seq<Envelope>, window: int)
    requires Partitions(clusters, group, window) && clusters != [] && |clusters[|clusters| - 1]| > 1
    ensures |group| > 1 && group[|group| - 1].receivedAt - group[|group| - 2].receivedAt <= window
  {
    var last := clusters[|clusters| - 1];
    assert group == Flatten(clusters[..|clusters| - 1]) + last;
    assert last[|last| - 1].receivedAt - last[|last| - 2].receivedAt <= window;
  }

  lemma GapBetween(clusters: seq<seq<Envelope>>, group: seq<Envelope>, window: int)
    requires Partitions(clusters, group, window) && clusters != [] && |clusters[|clusters| - 1]| == 1 && |group| > 1
    ensures group[|group| - 1].receivedAt - group[|group| - 2].receivedAt > window
  {
    var init, last := clusters[..|clusters| - 1], clusters[|clusters| - 1];
    assert group == Flatten(init) + last;
    assert Flatten(init) != [];
    assert init[|init| - 1] == clusters[|clusters| - 2];
    LastOfFlatten(init, Flatten(init));
    assert Apart(clusters[|clusters| - 2], clusters[|clusters| - 1], window);
  }
}
