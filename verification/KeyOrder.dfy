/** The order of object keys and of compiler messages is the order of their UTF-8 bytes
    (internal/canonicaljson/canonicaljson.go:97, internal/policy/compile.go:206-212). */
module KeyOrder {
  import opened Utf8
  import opened Json

  /** At one index, with everything before it the same, the first text's byte is smaller. */
  predicate SmallerAt(x: Bytes, y: Bytes, i: int) {
    0 <= i < |x| && i < |y| && x[..i] == y[..i] && x[i] < y[i]
  }

  predicate IsPrefix(x: Bytes, y: Bytes) {
    |x| <= |y| && y[..|x|] == x
  }

  /** As two strings of bytes compare in Go: by the first byte that differs, or by length. */
  ghost predicate BytesAtMost(x: Bytes, y: Bytes) {
    IsPrefix(x, y) || exists i :: SmallerAt(x, y, i)
  }

  /** The smaller character has the smaller bytes. */
  lemma CharBytes(c: char, d: char) returns (i: int)
    requires c < d
    ensures SmallerAt(EncodeChar(c), EncodeChar(d), i)
  {
    var x, y := EncodeChar(c), EncodeChar(d);
    WidthOfChar(c);
    WidthOfChar(d);
    ScalarOfChar(c);
    ScalarOfChar(d);
    i := if x[0] != y[0] then 0 else if x[1] != y[1] then 1 else if x[2] != y[2] then 2 else 3;
    assert forall k :: 0 <= k < i ==> x[..i][k] == y[..i][k];
  }

  lemma SmallerExtends(x: Bytes, y: Bytes, i: int, b: Bytes, e: Bytes)
    requires SmallerAt(x, y, i)
    ensures SmallerAt(x + b, y + e, i)
  {
    assert (x + b)[..i] == x[..i] && (y + e)[..i] == y[..i];
  }

  lemma NotBoth(x: Bytes, y: Bytes, i: int, j: int)
    requires SmallerAt(x, y, i)
    ensures !SmallerAt(y, x, j)
  {
    if 0 <= j < i {
      assert x[j] == x[..i][j] && y[j] == y[..i][j];
    } else if i < j && j < |x| && j < |y| {
      assert x[i] == x[..j][i] && y[i] == y[..j][i];
    }
  }

  /** What is smaller at one index is not at most the other way round. */
  lemma SmallerIsStrict(x: Bytes, y: Bytes, i: int)
    requires SmallerAt(x, y, i)
    ensures BytesAtMost(x, y) && !BytesAtMost(y, x)
  {
    if |y| <= |x| {
      assert x[..|y|][i] == x[i];
    }
    forall j ensures !SmallerAt(y, x, j) {
      NotBoth(x, y, i, j);
    }
  }

  /** A common front changes nothing. */
  lemma FrontCancels(f: Bytes, x: Bytes, y: Bytes)
    ensures BytesAtMost(f + x, f + y) <==> BytesAtMost(x, y)
  {
    assert IsPrefix(x, y) ==> (f + y)[..|f + x|] == f + y[..|x|];
    if IsPrefix(f + x, f + y) {
      assert y[..|x|] == (f + y)[..|f + x|][|f|..];
      assert (f + x)[|f|..] == x;
    }
    forall i | SmallerAt(x, y, i) ensures SmallerAt(f + x, f + y, |f| + i) {
      assert (f + x)[..|f| + i] == f + x[..i] && (f + y)[..|f| + i] == f + y[..i];
    }
    forall i | SmallerAt(f + x, f + y, i) ensures i >= |f| && SmallerAt(x, y, i - |f|) {
      assert x[..i - |f|] == (f + x)[..i][|f|..] && y[..i - |f|] == (f + y)[..i][|f|..];
    }
  }

  /** The key order is the byte order. */
  lemma {:induction false} OrderIsByteOrder(a: string, b: string)
    ensures AtMost(a, b) <==> BytesAtMost(Encode(a), Encode(b))
    decreases |a|
  {
    if a == "" {
      assert IsPrefix(Encode(a), Encode(b));
    } else if b == "" {
      assert Encode(b) == [] && Encode(a) != [];
    } else if a[0] == b[0] {
      OrderIsByteOrder(a[1..], b[1..]);
      FrontCancels(EncodeChar(a[0]), Encode(a[1..]), Encode(b[1..]));
    } else if a[0] < b[0] {
      var i := CharBytes(a[0], b[0]);
      SmallerExtends(EncodeChar(a[0]), EncodeChar(b[0]), i, Encode(a[1..]), Encode(b[1..]));
      SmallerIsStrict(Encode(a), Encode(b), i);
    } else {
      var i := CharBytes(b[0], a[0]);
      SmallerExtends(EncodeChar(b[0]), EncodeChar(a[0]), i, Encode(b[1..]), Encode(a[1..]));
      SmallerIsStrict(Encode(b), Encode(a), i);
    }
  }

  /** Each text's bytes come before the next one's, and no two are the same. */
  ghost predicate StrictlyAscending(s: seq<string>) {
    forall i, j :: 0 <= i < j < |s| ==> s[i] != s[j] && BytesAtMost(Encode(s[i]), Encode(s[j]))
  }

  lemma LeastAscends(k: string, rest: seq<string>)
    requires StrictlyAscending(rest) && forall x :: x in rest ==> x != k && AtMost(k, x)
    ensures StrictlyAscending([k] + rest)
  {
    var s := [k] + rest;
    forall i, j | 0 <= i < j < |s| ensures s[i] != s[j] && BytesAtMost(Encode(s[i]), Encode(s[j])) {
      if i == 0 {
        assert rest[j - 1] in rest;
        OrderIsByteOrder(k, s[j]);
      } else {
        assert s[i] == rest[i - 1] && s[j] == rest[j - 1];
      }
    }
  }

  /** The keys of an object, each once, in strictly ascending byte order. */
  lemma {:induction false} KeysAscend(keys: set<string>)
    ensures StrictlyAscending(SortedKeys(keys))
    ensures forall k :: k in SortedKeys(keys) <==> k in keys
    decreases |keys|
  {
    if keys != {} {
      LeastExists(keys);
      var k :| Least(keys, k) && SortedKeys(keys) == [k] + SortedKeys(keys - {k});
      KeysAscend(keys - {k});
      LeastAscends(k, SortedKeys(keys - {k}));
    }
  }
}
