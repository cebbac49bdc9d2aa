/** Chains in general: a head folded over items by a step that takes the previous head and
    one item's content, and what two chains with one head have in common. */
module Chain {
  import opened Wrappers

  type Step<!C> = (string, C) -> string

  /** An item without content leaves nothing after it chainable. */
  function Head<C>(step: Step<C>, contents: seq<Option<C>>): Option<string>
    decreases |contents|
  {
    if contents == [] then Some("")
    else
      var content := contents[|contents| - 1];
      match Head(step, contents[..|contents| - 1])
      case None => None
      case Some(previous) => if content.None? then None else Some(step(previous, content.value))
  }

  ghost function Contents<E, C>(content: E -> Option<C>, items: seq<E>): (contents: seq<Option<C>>)
    ensures |contents| == |items|
    decreases |items|
  {
    if items == [] then [] else Contents(content, items[..|items| - 1]) + [content(items[|items| - 1])]
  }

  /** What to look at when two steps give one head: a witness of the step's failure, or
      nothing when the steps were the same. */
  type Apart<!C, !W> = (string, C, string, C) -> Option<W>

  /** The last place at which two chains part. */
  function Parting<C, W>(step: Step<C>, apart: Apart<C, W>, a: seq<Option<C>>, b: seq<Option<C>>): Option<W>
    requires Head(step, a).Some? && Head(step, b).Some?
    decreases |a|
  {
    if a == [] || b == [] then None
    else
      var a', b' := a[..|a| - 1], b[..|b| - 1];
      match apart(Head(step, a').value, a[|a| - 1].value, Head(step, b').value, b[|b| - 1].value)
      case Some(w) => Some(w)
      case None => Parting(step, apart, a', b')
  }

  /** `apart` explains every coincidence of the step, and no step gives the empty head. */
  ghost predicate Explains<C(!new), W(!new)>(step: Step<C>, apart: Apart<C, W>, fails: W -> bool) {
    && (forall p, c :: step(p, c) != "")
    && (forall p, c, q, d :: step(p, c) == step(q, d) ==>
          match apart(p, c, q, d)
          case Some(w) => fails(w)
          case None => p == q && c == d)
  }

  lemma {:induction false} SameHead<C(!new), W(!new)>(step: Step<C>, apart: Apart<C, W>, fails: W -> bool, a: seq<Option<C>>, b: seq<Option<C>>)
    requires Explains(step, apart, fails)
    requires Head(step, a).Some? && Head(step, a) == Head(step, b)
    ensures match Parting(step, apart, a, b)
      case Some(w) => fails(w)
      case None => a == b
    decreases |a|
  {
    if a != [] && b != [] {
      var a', b' := a[..|a| - 1], b[..|b| - 1];
      var c, d := a[|a| - 1].value, b[|b| - 1].value;
      var p, q := Head(step, a').value, Head(step, b').value;
      assert step(p, c) == step(q, d);
      if apart(p, c, q, d).None? {
        SameHead(step, apart, fails, a', b');
        assert a == a' + [Some(c)] && b == b' + [Some(d)];
      }
    }
  }

  lemma {:induction false} SameContents<E(!new), C>(content: E -> Option<C>, good: E -> bool, a: seq<E>, b: seq<E>)
    requires forall e, f :: good(e) && good(f) && content(e).Some? && content(e) == content(f) ==> e == f
    requires forall i :: 0 <= i < |a| ==> good(a[i]) && content(a[i]).Some?
    requires forall i :: 0 <= i < |b| ==> good(b[i])
    requires Contents(content, a) == Contents(content, b)
    ensures a == b
    decreases |a|
  {
    if a != [] {
      assert |Contents(content, a)| == |b|;
      var a', b' := a[..|a| - 1], b[..|b| - 1];
      assert Contents(content, a)[..|a| - 1] == Contents(content, a') && Contents(content, b)[..|a| - 1] == Contents(content, b');
      assert content(a[|a| - 1]) == Contents(content, a)[|a| - 1] == content(b[|b| - 1]);
      SameContents(content, good, a', b');
      assert a == a' + [a[|a| - 1]] && b == b' + [b[|b| - 1]];
    } else {
      assert |Contents(content, b)| == |b| == 0;
    }
  }

  lemma {:induction false} HeadSome<E, C>(step: Step<C>, content: E -> Option<C>, items: seq<E>)
    ensures Head(step, Contents(content, items)).Some? <==> forall i :: 0 <= i < |items| ==> content(items[i]).Some?
    decreases |items|
  {
    if items != [] {
      var before := items[..|items| - 1];
      HeadSome(step, content, before);
      var c := Contents(content, items);
      assert c[..|c| - 1] == Contents(content, before);
      assert items == before + [items[|items| - 1]];
    }
  }

  lemma HeadNext<E, C>(step: Step<C>, content: E -> Option<C>, items: seq<E>, i: nat)
    requires i < |items| && Head(step, Contents(content, items[..i])).Some?
    ensures Head(step, Contents(content, items[..i + 1])) ==
      if content(items[i]).None? then None else Some(step(Head(step, Contents(content, items[..i])).value, content(items[i]).value))
  {
    var more := items[..i + 1];
    assert more[..i] == items[..i] && more[i] == items[i];
    var c := Contents(content, more);
    assert c[..|c| - 1] == Contents(content, items[..i]);
  }
}
