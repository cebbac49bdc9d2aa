/** The canonical writer as it runs: appending to a buffer, with the keys gathered in
    whatever order the map yields them and sorted. */
module CanonicalWriter {
  import opened Wrappers
  import opened Json
  import opened JsonReader
  import opened CanonicalJson
  import KeyOrder

  class Buffer {
    var text: string

    constructor ()
      ensures text == ""
    {
      text := "";
    }

    method WriteString(s: string)
      modifies this
      ensures text == old(text) + s
    {
      text := text + s;
    }
  }

  /** What is still to be written of an array after `i` items. */
  ghost function ItemsLeft(v: Json, i: nat): string
    requires v.Array? && i <= |v.items|
  {
    if 0 < i < |v.items| then "," + ItemsText(v, i) else ItemsText(v, i)
  }

  ghost function MembersLeft(v: Json, keys: seq<string>, i: nat): string
    requires v.Object? && i <= |keys| && forall k :: k in keys ==> k in v.fields
  {
    if 0 < i < |keys| then "," + MembersText(v, keys[i..]) else MembersText(v, keys[i..])
  }

  lemma ItemsStep(v: Json, i: nat)
    requires v.Array? && i < |v.items|
    ensures ItemsLeft(v, i) == (if i > 0 then "," else "") + Text(v.items[i]) + ItemsLeft(v, i + 1)
  {
  }

  lemma MembersStep(v: Json, keys: seq<string>, i: nat)
    requires v.Object? && i < |keys| && forall k :: k in keys ==> k in v.fields
    ensures MembersLeft(v, keys, i) == (if i > 0 then "," else "") + (Quoted(keys[i]) + ":" + Text(v.fields[keys[i]])) + MembersLeft(v, keys, i + 1)
  {
    var from := keys[i..];
    assert from[0] == keys[i] && from[1..] == keys[i + 1..];
    assert MemberText(v, keys[i]) == Quoted(keys[i]) + ":" + Text(v.fields[keys[i]]);
    if i + 1 < |keys| {
      assert MembersText(v, from) == MemberText(v, from[0]) + "," + MembersText(v, from[1..]);
    } else {
      assert MembersText(v, from) == MemberText(v, from[0]) && keys[i + 1..] == [];
    }
  }

  /** The keys of a map, in no particular order. */
  method KeysOf(fields: map<string, Json>) returns (keys: seq<string>)
    ensures (set k | k in keys) == fields.Keys && |keys| == |fields.Keys|
  {
    keys := [];
    var rest := fields.Keys;
    while rest != {}
      invariant rest <= fields.Keys && forall k :: k in keys <==> k in fields && k !in rest
      invariant |keys| + |rest| == |fields.Keys|
    {
      var k :| k in rest;
      keys, rest := keys + [k], rest - {k};
    }
  }

  method LeastOf(keys: set<string>) returns (least: string)
    requires keys != {}
    ensures Least(keys, least)
  {
    least :| least in keys;
    OrderTotal(least, least);
    var others := keys - {least};
    while others != {}
      invariant least in keys && others <= keys
      invariant forall k :: k in keys && k !in others ==> AtMost(least, k)
    {
      var k :| k in others;
      OrderTotal(least, k);
      if !AtMost(least, k) {
        forall x | x in keys && x !in others ensures AtMost(k, x) { OrderTransitive(k, least, x); }
        OrderTotal(k, k);
        least := k;
      }
      others := others - {k};
    }
  }

  /** The same keys, each once, in ascending order of their bytes. */
  method SortKeys(keys: seq<string>) returns (sorted: seq<string>)
    ensures sorted == SortedKeys(set k | k in keys)
    ensures KeyOrder.StrictlyAscending(sorted) && forall k :: k in sorted <==> k in keys
  {
    var rest: set<string> := set k | k in keys;
    sorted := [];
    while rest != {}
      invariant sorted + SortedKeys(rest) == SortedKeys(set k | k in keys)
    {
      var least := LeastOf(rest);
      SortedSplit(rest, least);
      sorted, rest := sorted + [least], rest - {least};
    }
    KeysAscend(keys, sorted);
  }

  lemma KeysAscend(keys: seq<string>, sorted: seq<string>)
    requires sorted == SortedKeys(set k | k in keys)
    ensures KeyOrder.StrictlyAscending(sorted) && forall k :: k in sorted <==> k in keys
  {
    KeyOrder.KeysAscend(set k | k in keys);
  }

  lemma SortedSplit(keys: set<string>, least: string)
    requires Least(keys, least)
    ensures SortedKeys(keys) == [least] + SortedKeys(keys - {least})
  {
    var k :| Least(keys, k) && SortedKeys(keys) == [k] + SortedKeys(keys - {k});
    LeastUnique(keys, least, k);
  }

  lemma {:induction false} EscapeSplit(s: string, i: nat)
    requires i < |s|
    ensures EscapeAll(s[..i + 1]) == EscapeAll(s[..i]) + Escape(s[i])
    decreases i
  {
    if i == 0 {
      assert s[..1] == [s[0]] && [s[0]][1..] == "" && s[..0] == "";
    } else {
      EscapeSplit(s[1..], i - 1);
      assert s[..i + 1][1..] == s[1..][..i] && s[..i][1..] == s[1..][..i - 1];
    }
  }

  /** One character at a time, as the standard encoder does. */
  method WriteString(out: Buffer, s: string)
    modifies out
    ensures out.text == old(out.text) + Quoted(s)
  {
    out.WriteString("\"");
    ghost var opening := out.text;
    for i := 0 to |s|
      invariant out.text == opening + EscapeAll(s[..i])
    {
      EscapeSplit(s, i);
      Join(opening, EscapeAll(s[..i]), Escape(s[i]));
      out.WriteString(Escape(s[i]));
    }
    assert s[..|s|] == s;
    Bracketed(old(out.text), "\"", EscapeAll(s), "\"");
    out.WriteString("\"");
  }

  lemma Join(a: string, b: string, c: string)
    ensures a + b + c == a + (b + c)
  {
  }

  method {:induction false} WriteItems(out: Buffer, v: Json)
    requires v.Array?
    modifies out
    ensures out.text == old(out.text) + ItemsText(v, 0)
    decreases v, 0, 1
  {
    for i := 0 to |v.items|
      invariant out.text + ItemsLeft(v, i) == old(out.text) + ItemsText(v, 0)
    {
      ItemsStep(v, i);
      Join(out.text, (if i > 0 then "," else "") + Text(v.items[i]), ItemsLeft(v, i + 1));
      WriteItem(out, v, i, i > 0);
    }
    assert ItemsLeft(v, |v.items|) == "";
  }

  method {:induction false} WriteItem(out: Buffer, v: Json, i: nat, more: bool)
    requires v.Array? && i < |v.items|
    modifies out
    ensures out.text == old(out.text) + ((if more then "," else "") + Text(v.items[i]))
    decreases v, 0, 0
  {
    if more { out.WriteString(","); }
    Write(out, v.items[i]);
  }

  method {:induction false} WriteMembers(out: Buffer, v: Json, keys: seq<string>)
    requires v.Object? && forall k :: k in keys ==> k in v.fields
    modifies out
    ensures out.text == old(out.text) + MembersText(v, keys)
    decreases v, 0, 1
  {
    assert keys[0..] == keys;
    for i := 0 to |keys|
      invariant out.text + MembersLeft(v, keys, i) == old(out.text) + MembersText(v, keys)
    {
      MembersStep(v, keys, i);
      Join(out.text, (if i > 0 then "," else "") + (Quoted(keys[i]) + ":" + Text(v.fields[keys[i]])), MembersLeft(v, keys, i + 1));
      WriteMember(out, v, keys[i], i > 0);
    }
    assert MembersLeft(v, keys, |keys|) == "";
  }

  method {:induction false} WriteMember(out: Buffer, v: Json, key: string, more: bool)
    requires v.Object? && key in v.fields
    modifies out
    ensures out.text == old(out.text) + ((if more then "," else "") + (Quoted(key) + ":" + Text(v.fields[key])))
    decreases v, 0, 0
  {
    ghost var before, comma := out.text, if more then "," else "";
    if more { out.WriteString(","); }
    assert out.text == before + comma;
    WriteString(out, key);
    out.WriteString(":");
    Write(out, v.fields[key]);
    MemberJoins(before, comma, Quoted(key), Text(v.fields[key]));
  }

  lemma MemberJoins(before: string, comma: string, key: string, value: string)
    ensures before + comma + key + ":" + value == before + (comma + (key + ":" + value))
  {
  }

  lemma Bracketed(before: string, left: string, inner: string, right: string)
    ensures before + left + inner + right == before + (left + inner + right)
  {
  }

  method {:induction false} WriteArray(out: Buffer, v: Json)
    requires v.Array?
    modifies out
    ensures out.text == old(out.text) + ("[" + ItemsText(v, 0) + "]")
    decreases v, 0, 2
  {
    Bracketed(out.text, "[", ItemsText(v, 0), "]");
    out.WriteString("[");
    WriteItems(out, v);
    out.WriteString("]");
  }

  method {:induction false} WriteObject(out: Buffer, v: Json)
    requires v.Object?
    modifies out
    ensures out.text == old(out.text) + ("{" + MembersText(v, SortedKeys(v.fields.Keys)) + "}")
    decreases v, 0, 2
  {
    var keys := KeysOf(v.fields);
    keys := SortKeys(keys);
    Bracketed(out.text, "{", MembersText(v, keys), "}");
    out.WriteString("{");
    WriteMembers(out, v, keys);
    out.WriteString("}");
  }

  /** Appends exactly the canonical text, whatever order the map yields its keys in. */
  method {:induction false} Write(out: Buffer, v: Json)
    modifies out
    ensures out.text == old(out.text) + Text(v)
    decreases v, 1
  {
    match v
    case Null => out.WriteString("null");
    case Bool(b) => if b { out.WriteString("true"); } else { out.WriteString("false"); }
    case Number(literal) => out.WriteString(literal);
    case Str(s) => WriteString(out, s);
    case Array(_) => WriteArray(out, v);
    case Object(_) => WriteObject(out, v);
  }

  /** Canonicalizes a document: the result decodes to the same value, and canonicalizing it
      again returns it. */
  method Canonicalize(raw: string) returns (text: Option<string>)
    ensures text == Canonical(raw)
    ensures text.Some? ==> Decode(text.value) == Decode(raw) && Canonical(text.value) == text
  {
    var document := Decode(raw);
    if document.None? { return None; }
    var out := new Buffer();
    Write(out, document.value);
    assert out.text == Text(document.value);
    CanonicalIdempotent(raw);
    ParsedValue(raw, MAX_NESTING);
    DecodeUndoesText(document.value);
    return Some(out.text);
  }
}
