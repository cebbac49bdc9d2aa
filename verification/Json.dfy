/** JSON values and their canonical text (internal/canonicaljson/canonicaljson.go): keys
    sorted, no whitespace, number literals verbatim. Text is a sequence of Unicode scalar
    values, whose order is the order of their UTF-8 encodings. */
module Json {

  /** A decoded document. Numbers keep their literal. */
  datatype Json =
    | Null
    | Bool(value: bool)
    | Number(literal: string)
    | Str(text: string)
    | Array(items: seq<Json>)
    | Object(fields: map<string, Json>)

  // ---------------------------------------------------------------------------
  // Strings
  // ---------------------------------------------------------------------------

  function HexDigit(n: nat): char
    requires n < 16
  {
    if n < 10 then '0' + n as char else 'a' + (n - 10) as char
  }

  /** How the standard encoder writes one character: besides what JSON requires, `<`, `>`,
      `&` and the two line separators are escaped. */
  function Escape(c: char): string {
    if c == '"' then "\\\""
    else if c == '\\' then "\\\\"
    else if c == '\U{8}' then "\\b"
    else if c == '\U{c}' then "\\f"
    else if c == '\n' then "\\n"
    else if c == '\r' then "\\r"
    else if c == '\t' then "\\t"
    else if c < ' ' || c == '<' || c == '>' || c == '&' then ['\\', 'u', '0', '0', HexDigit(c as nat / 16), HexDigit(c as nat % 16)]
    else if c == '\U{2028}' then "\\u2028"
    else if c == '\U{2029}' then "\\u2029"
    else [c]
  }

  function EscapeAll(s: string): string {
    if s == "" then "" else Escape(s[0]) + EscapeAll(s[1..])
  }

  function Quoted(s: string): string {
    "\"" + EscapeAll(s) + "\""
  }

  // ---------------------------------------------------------------------------
  // Key order
  // ---------------------------------------------------------------------------

  predicate AtMost(a: string, b: string) {
    a == "" || (b != "" && (a[0] < b[0] || (a[0] == b[0] && AtMost(a[1..], b[1..]))))
  }

  lemma {:induction false} OrderTotal(a: string, b: string)
    ensures AtMost(a, b) || AtMost(b, a)
    ensures AtMost(a, b) && AtMost(b, a) ==> a == b
    decreases |a|
  {
    if a != "" && b != "" && a[0] == b[0] {
      OrderTotal(a[1..], b[1..]);
      if AtMost(a, b) && AtMost(b, a) {
        assert a == [a[0]] + a[1..] && b == [b[0]] + b[1..];
      }
    }
  }

  lemma {:induction false} OrderTransitive(a: string, b: string, c: string)
    requires AtMost(a, b) && AtMost(b, c)
    ensures AtMost(a, c)
    decreases |a|
  {
    if a != "" && a[0] == b[0] && b[0] == c[0] {
      OrderTransitive(a[1..], b[1..], c[1..]);
    }
  }

  ghost predicate Least(keys: set<string>, k: string) {
    k in keys && forall x :: x in keys ==> AtMost(k, x)
  }

  lemma {:induction false} LeastExists(keys: set<string>)
    requires keys != {}
    ensures exists k :: Least(keys, k)
    decreases |keys|
  {
    var x :| x in keys;
    OrderTotal(x, x);
    if keys == {x} {
      assert Least(keys, x);
    } else {
      LeastExists(keys - {x});
      var y :| Least(keys - {x}, y);
      var k := if AtMost(x, y) then x else y;
      OrderTotal(x, y);
      forall z | z in keys ensures AtMost(k, z) {
        if z != x && k == x { OrderTransitive(x, y, z); }
      }
      assert Least(keys, k);
    }
  }

  lemma LeastUnique(keys: set<string>, a: string, b: string)
    requires Least(keys, a) && Least(keys, b)
    ensures a == b
  {
    OrderTotal(a, b);
  }

  ghost function SortedKeys(keys: set<string>): (sorted: seq<string>)
    ensures forall k :: k in sorted <==> k in keys
    ensures |sorted| == |keys|
    decreases |keys|
  {
    if keys == {} then []
    else
      LeastExists(keys);
      var k :| Least(keys, k);
      [k] + SortedKeys(keys - {k})
  }

  // ---------------------------------------------------------------------------
  // Text
  // ---------------------------------------------------------------------------

  ghost function Text(v: Json): string
    decreases v, 1, 0
  {
    match v
    case Null => "null"
    case Bool(b) => if b then "true" else "false"
    case Number(literal) => literal
    case Str(s) => Quoted(s)
    case Array(items) => "[" + ItemsText(v, 0) + "]"
    case Object(fields) => "{" + MembersText(v, SortedKeys(fields.Keys)) + "}"
  }

  /** The items from an index on, separated. */
  ghost function ItemsText(v: Json, from: nat): string
    requires v.Array? && from <= |v.items|
    decreases v, 0, |v.items| - from
  {
    if from == |v.items| then ""
    else if from == |v.items| - 1 then Text(v.items[from])
    else Text(v.items[from]) + "," + ItemsText(v, from + 1)
  }

  ghost function MembersText(v: Json, keys: seq<string>): string
    requires v.Object? && forall k :: k in keys ==> k in v.fields
    decreases v, 0, |keys|
  {
    if keys == [] then ""
    else if |keys| == 1 then MemberText(v, keys[0])
    else MemberText(v, keys[0]) + "," + MembersText(v, keys[1..])
  }

  ghost function MemberText(v: Json, key: string): string
    requires v.Object? && key in v.fields
    decreases v, 0, 0
  {
    Quoted(key) + ":" + Text(v.fields[key])
  }

  /** How deeply arrays and objects nest is at most `depth`. */
  ghost predicate Within(v: Json, depth: int) {
    match v
    case Array(items) => depth >= 1 && forall i :: 0 <= i < |items| ==> Within(items[i], depth - 1)
    case Object(fields) => depth >= 1 && forall k :: k in fields ==> Within(fields[k], depth - 1)
    case _ => depth >= 0
  }
}
