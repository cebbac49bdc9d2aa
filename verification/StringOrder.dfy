/** Sorting strings: the order of Json.dfy on whole sequences, and the compiler's in-place
    insertion sort (internal/policy/compile.go). */
module StringOrder {
  import opened Json
  import Sorting
  import Utf8
  import KeyOrder

  ghost predicate Sorted(s: seq<string>) {
    Sorting.Sorted(AtMost, s)
  }

  /** In ascending order of the bytes. */
  ghost predicate Ascending(s: seq<string>) {
    forall i, j :: 0 <= i < j < |s| ==> KeyOrder.BytesAtMost(Utf8.Encode(s[i]), Utf8.Encode(s[j]))
  }

  lemma SortedAscends(s: seq<string>)
    ensures Sorted(s) <==> Ascending(s)
  {
    forall i, j | 0 <= i < j < |s| ensures AtMost(s[i], s[j]) <==> KeyOrder.BytesAtMost(Utf8.Encode(s[i]), Utf8.Encode(s[j])) {
      KeyOrder.OrderIsByteOrder(s[i], s[j]);
    }
  }

  predicate Less(a: string, b: string) {
    !AtMost(b, a)
  }

  /** Sorted up to `i`, but for the element on its way down at `j`. */
  ghost predicate AllBut(s: seq<string>, i: nat, j: nat)
    requires i < |s|
  {
    && (forall k, l :: 0 <= k < l <= i && k != j && l != j ==> AtMost(s[k], s[l]))
    && (forall l :: j < l <= i ==> AtMost(s[j], s[l]))
  }

  lemma AllButSettles(s: seq<string>, i: nat, j: nat)
    requires i < |s| && j <= i && AllBut(s, i, j)
    requires j > 0 ==> AtMost(s[j - 1], s[j])
    ensures forall k, l :: 0 <= k < l <= i ==> AtMost(s[k], s[l])
  {
    forall k | 0 <= k < j ensures AtMost(s[k], s[j]) {
      if k < j - 1 { OrderTransitive(s[k], s[j - 1], s[j]); }
    }
  }

  lemma AllButSwaps(s: seq<string>, i: nat, j: nat)
    requires i < |s| && 0 < j <= i && AllBut(s, i, j) && Less(s[j], s[j - 1])
    ensures AllBut(s[j := s[j - 1]][j - 1 := s[j]], i, j - 1)
  {
    OrderTotal(s[j], s[j - 1]);
  }

  /** Insertion by neighbouring swaps. */
  method SortStrings(a: array<string>)
    modifies a
    ensures Sorted(a[..]) && multiset(a[..]) == multiset(old(a[..]))
    ensures Ascending(a[..])
  {
    if a.Length == 0 { return; }
    for i := 1 to a.Length
      invariant multiset(a[..]) == multiset(old(a[..]))
      invariant forall k, l :: 0 <= k < l < i ==> AtMost(a[k], a[l])
    {
      var j := i;
      while j > 0 && Less(a[j], a[j - 1])
        invariant 0 <= j <= i
        invariant multiset(a[..]) == multiset(old(a[..]))
        invariant AllBut(a[..], i, j)
      {
        AllButSwaps(a[..], i, j);
        ghost var before := a[..];
        a[j], a[j - 1] := a[j - 1], a[j];
        assert a[..] == before[j := before[j - 1]][j - 1 := before[j]];
        j := j - 1;
      }
      if j > 0 { OrderTotal(a[j - 1], a[j]); }
      AllButSettles(a[..], i, j);
    }
    SortedAscends(a[..]);
  }

  lemma StringsOrdered()
    ensures Sorting.TotalPreorder(AtMost)
    ensures forall a, b :: AtMost(a, b) && AtMost(b, a) ==> a == b
  {
    forall a, b ensures (AtMost(a, b) || AtMost(b, a)) && (AtMost(a, b) && AtMost(b, a) ==> a == b) {
      OrderTotal(a, b);
    }
    forall a, b, c | AtMost(a, b) && AtMost(b, c) ensures AtMost(a, c) {
      OrderTransitive(a, b, c);
    }
  }

  /** A collection of strings has one sorted form. */
  lemma SortedOnce(s: seq<string>, t: seq<string>)
    requires Sorted(s) && Sorted(t) && multiset(s) == multiset(t)
    ensures s == t
  {
    StringsOrdered();
    Sorting.SortedOnce(AtMost, s, t);
  }
}
