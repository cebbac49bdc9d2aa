/** Stable sorting by an order, and when a collection has only one sorted form. */
module Sorting {
  type Order<!T> = (T, T) -> bool

  ghost predicate TotalPreorder<T(!new)>(le: Order<T>) {
    && (forall x, y :: le(x, y) || le(y, x))
    && (forall x, y, z :: le(x, y) && le(y, z) ==> le(x, z))
  }

  /** Places an element after every one it does not come before. */
  function Insert<T>(le: Order<T>, s: seq<T>, x: T): (r: seq<T>)
    ensures multiset(r) == multiset(s) + multiset{x} && |r| == |s| + 1
  {
    if s == [] then [x]
    else
      var last := s[|s| - 1];
      assert s == s[..|s| - 1] + [last];
      if le(last, x) then s + [x] else Insert(le, s[..|s| - 1], x) + [last]
  }

  function Sort<T>(le: Order<T>, s: seq<T>): (r: seq<T>)
    ensures multiset(r) == multiset(s) && |r| == |s|
  {
    if s == [] then []
    else
      assert s == s[..|s| - 1] + [s[|s| - 1]];
      Insert(le, Sort(le, s[..|s| - 1]), s[|s| - 1])
  }

  ghost predicate Sorted<T(!new)>(le: Order<T>, s: seq<T>) {
    forall i, j :: 0 <= i < j < |s| ==> le(s[i], s[j])
  }

  lemma {:induction false} InsertSorted<T(!new)>(le: Order<T>, s: seq<T>, x: T)
    requires TotalPreorder(le) && Sorted(le, s)
    ensures Sorted(le, Insert(le, s, x))
    decreases |s|
  {
    if s != [] && !le(s[|s| - 1], x) {
      var before, last := s[..|s| - 1], s[|s| - 1];
      InsertSorted(le, before, x);
      var r := Insert(le, before, x);
      forall y | y in r ensures le(y, last) {
        assert y in multiset(r);
        assert y == x || y in before;
      }
    }
  }

  lemma {:induction false} SortSorted<T(!new)>(le: Order<T>, s: seq<T>)
    requires TotalPreorder(le)
    ensures Sorted(le, Sort(le, s))
    decreases |s|
  {
    if s != [] {
      SortSorted(le, s[..|s| - 1]);
      InsertSorted(le, Sort(le, s[..|s| - 1]), s[|s| - 1]);
    }
  }

  /** No two different elements tie. */
  ghost predicate Untied<T(!new)>(le: Order<T>, s: multiset<T>) {
    forall x, y :: x in s && y in s && le(x, y) && le(y, x) ==> x == y
  }

  lemma FirstIsLeast<T(!new)>(le: Order<T>, s: seq<T>, t: seq<T>)
    requires TotalPreorder(le) && Sorted(le, s) && s != [] && t != [] && multiset(s) == multiset(t)
    ensures le(s[0], t[0])
  {
    assert t[0] in multiset(t) && t[0] in multiset(s);
    var i :| 0 <= i < |s| && s[i] == t[0];
  }

  lemma {:induction false} SortedOnce<T(!new)>(le: Order<T>, s: seq<T>, t: seq<T>)
    requires TotalPreorder(le) && Sorted(le, s) && Sorted(le, t) && multiset(s) == multiset(t) && Untied(le, multiset(s))
    ensures s == t
    decreases |s|
  {
    if s == [] {
      assert |multiset(t)| == 0;
    } else {
      assert |multiset(s)| == |multiset(t)|;
      FirstIsLeast(le, s, t);
      FirstIsLeast(le, t, s);
      assert s[0] in multiset(s) && t[0] in multiset(t);
      Rests(s, t);
      SortedOnce(le, s[1..], t[1..]);
    }
  }

  lemma Rests<T(!new)>(s: seq<T>, t: seq<T>)
    requires s != [] && t != [] && s[0] == t[0] && multiset(s) == multiset(t)
    ensures multiset(s[1..]) == multiset(t[1..])
    ensures forall x :: x in multiset(s[1..]) ==> x in multiset(s)
    ensures s[1..] == t[1..] ==> s == t
  {
    assert s == [s[0]] + s[1..] && t == [t[0]] + t[1..];
    assert multiset(s[1..]) == multiset(s) - multiset{s[0]};
    assert multiset(t[1..]) == multiset(t) - multiset{t[0]};
  }

  /** Sorting forgets the order its input came in. */
  lemma SortForgets<T(!new)>(le: Order<T>, s: seq<T>, t: seq<T>)
    requires TotalPreorder(le) && multiset(s) == multiset(t) && Untied(le, multiset(s))
    ensures Sort(le, s) == Sort(le, t)
  {
    SortSorted(le, s);
    SortSorted(le, t);
    SortedOnce(le, Sort(le, s), Sort(le, t));
  }
}
