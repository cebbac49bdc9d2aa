/** Canonical text is unambiguous: the standard reader undoes it on every value. */
module CanonicalJson {
  import opened Wrappers
  import opened Json
  import opened JsonReader

  /** Every number literal in the value is a JSON number. */
  ghost predicate WellFormed(v: Json) {
    match v
    case Number(literal) => IsNumber(literal)
    case Array(items) => forall i :: 0 <= i < |items| ==> WellFormed(items[i])
    case Object(fields) => forall k :: k in fields ==> WellFormed(fields[k])
    case _ => true
  }

  // ---------------------------------------------------------------------------
  // Strings
  // ---------------------------------------------------------------------------

  lemma HexReads(n: nat)
    requires n < 16
    ensures HexValue(HexDigit(n)) == Some(n)
  {
  }

  lemma ControlReads(c: char, rest: string)
    requires c as nat < 0x80
    ensures ParseChar(['\\', 'u', '0', '0', HexDigit(c as nat / 16), HexDigit(c as nat % 16)] + rest) == Some(Parsed(c, rest))
  {
    var hi, lo := c as nat / 16, c as nat % 16;
    HexReads(hi);
    HexReads(lo);
    var text := ['0', '0', HexDigit(hi), HexDigit(lo)] + rest;
    assert (['\\', 'u', '0', '0', HexDigit(hi), HexDigit(lo)] + rest)[2..] == text;
    assert Hex4(text) == Some(hi * 16 + lo);
    assert text[4..] == rest;
  }

  lemma SeparatorReads(c: char, rest: string)
    requires c == '\U{2028}' || c == '\U{2029}'
    ensures ParseChar(Escape(c) + rest) == Some(Parsed(c, rest))
  {
    var last := if c == '\U{2028}' then '8' else '9';
    var text := ['2', '0', '2', last] + rest;
    assert Escape(c) == ['\\', 'u', '2', '0', '2', last];
    assert (Escape(c) + rest)[2..] == text;
    assert Hex4(text) == Some(0x2028 + (if last == '8' then 0 else 1));
    assert text[4..] == rest;
  }

  lemma CharReads(c: char, rest: string)
    ensures Escape(c) != "" && Escape(c)[0] != '"'
    ensures ParseChar(Escape(c) + rest) == Some(Parsed(c, rest))
  {
    if c == '\U{2028}' || c == '\U{2029}' {
      SeparatorReads(c, rest);
    } else if |Escape(c)| == 2 {
      assert (Escape(c) + rest)[2..] == rest;
    } else if |Escape(c)| == 1 {
      assert (Escape(c) + rest)[1..] == rest;
    } else {
      ControlReads(c, rest);
    }
  }

  lemma StringStep(text: string, c: Parsed<char>, tail: Parsed<string>)
    requires text != "" && text[0] != '"' && ParseChar(text) == Some(c) && ParseString(c.rest) == Some(tail)
    ensures ParseString(text) == Some(Parsed([c.value] + tail.value, tail.rest))
  {
  }

  lemma {:induction false} StringReads(s: string, rest: string)
    ensures ParseString(EscapeAll(s) + "\"" + rest) == Some(Parsed(s, rest))
    decreases |s|
  {
    if s == "" {
      assert (EscapeAll(s) + "\"" + rest)[1..] == rest;
    } else {
      var more := EscapeAll(s[1..]) + "\"" + rest;
      var text := Escape(s[0]) + more;
      CharReads(s[0], more);
      Reassociate(Escape(s[0]), EscapeAll(s[1..]), "\"", rest);
      assert text[0] == Escape(s[0])[0];
      StringReads(s[1..], rest);
      StringStep(text, Parsed(s[0], more), Parsed(s[1..], rest));
      assert [s[0]] + s[1..] == s;
    }
  }

  /** The characters section 7 of RFC 8259 demands an escape for. */
  predicate MustEscape(c: char) {
    c == '"' || c == '\\' || c < ' '
  }

  /** A quoted string read from its opening quote on. */
  lemma QuotedReads(s: string, rest: string)
    ensures var text := Quoted(s) + rest; text[0] == '"' && ParseString(text[1..]) == Some(Parsed(s, rest))
  {
    StringReads(s, rest);
    Requoted(EscapeAll(s), rest);
  }

  lemma Requoted(escaped: string, rest: string)
    ensures var text := "\"" + escaped + "\"" + rest; text[0] == '"' && text[1..] == escaped + "\"" + rest
  {
  }

  // ---------------------------------------------------------------------------
  // Numbers
  // ---------------------------------------------------------------------------

  /** What may follow a value in canonical text. */
  predicate Delimited(rest: string) {
    rest == "" || rest[0] == ',' || rest[0] == ']' || rest[0] == '}'
  }

  /** Two texts agree on the first `n` characters, and the second ends there. */
  predicate Same(text: string, other: string, n: nat) {
    n <= |text| && n <= |other| && text[..n] == other[..n] && Delimited(other[n..])
  }

  lemma {:induction false} DigitsSame(text: string, other: string, n: nat)
    requires Same(text, other, n) && CountDigits(text) <= n
    ensures CountDigits(other) == CountDigits(text)
    decreases n
  {
    if n == 0 {
      assert other[0..] == other;
    } else {
      assert text[0] == text[..n][0] && other[0] == other[..n][0];
      if IsDigit(text[0]) {
        SameFrom(text, other, n, 1);
        DigitsSame(text[1..], other[1..], n - 1);
      }
    }
  }

  lemma SameFrom(text: string, other: string, n: nat, i: nat)
    requires Same(text, other, n) && i <= n
    ensures Same(text[i..], other[i..], n - i)
  {
    assert text[i..][..n - i] == text[..n][i..] && other[i..][..n - i] == other[..n][i..];
    assert other[i..][n - i..] == other[n..];
  }

  lemma IntegerSame(text: string, other: string, n: nat)
    requires Same(text, other, n) && IntegerLength(text).Some? && IntegerLength(text).value <= n
    ensures IntegerLength(other) == IntegerLength(text)
  {
    var sign := if text != "" && text[0] == '-' then 1 else 0;
    assert forall i :: 0 <= i < n ==> text[i] == text[..n][i] && other[i] == other[..n][i];
    if IsDigit(text[sign]) && text[sign] != '0' {
      SameFrom(text, other, n, sign);
      DigitsSame(text[sign..], other[sign..], n - sign);
    }
  }

  lemma FractionSame(text: string, other: string, n: nat)
    requires Same(text, other, n) && FractionLength(text).Some? && FractionLength(text).value <= n
    ensures FractionLength(other) == FractionLength(text)
  {
    assert forall i :: 0 <= i < n ==> text[i] == text[..n][i] && other[i] == other[..n][i];
    if text != "" && text[0] == '.' {
      SameFrom(text, other, n, 1);
      DigitsSame(text[1..], other[1..], n - 1);
    } else if n == 0 {
      assert other[0..] == other;
    }
  }

  lemma ExponentSame(text: string, other: string, n: nat)
    requires Same(text, other, n) && ExponentLength(text).Some? && ExponentLength(text).value <= n
    ensures ExponentLength(other) == ExponentLength(text)
  {
    assert forall i :: 0 <= i < n ==> text[i] == text[..n][i] && other[i] == other[..n][i];
    if text != "" && (text[0] == 'e' || text[0] == 'E') {
      var sign := if |text| > 1 && (text[1] == '+' || text[1] == '-') then 2 else 1;
      SameFrom(text, other, n, sign);
      DigitsSame(text[sign..], other[sign..], n - sign);
    } else if n == 0 {
      assert other[0..] == other;
    }
  }

  /** A number's three parts. */
  predicate Parts(text: string, i: nat, f: nat, e: nat) {
    && i <= |text| && i + f <= |text|
    && IntegerLength(text) == Some(i) && FractionLength(text[i..]) == Some(f) && ExponentLength(text[i + f..]) == Some(e)
  }

  lemma PartsSame(text: string, other: string, i: nat, f: nat, e: nat)
    requires Parts(text, i, f, e) && Same(text, other, i + f + e)
    ensures Parts(other, i, f, e)
  {
    var n := i + f + e;
    IntegerSame(text, other, n);
    SameFrom(text, other, n, i);
    FractionSame(text[i..], other[i..], n - i);
    SameFrom(text, other, n, i + f);
    ExponentSame(text[i + f..], other[i + f..], e);
  }

  lemma NumberParts(text: string) returns (i: nat, f: nat, e: nat)
    requires NumberLength(text).Some?
    ensures Parts(text, i, f, e) && NumberLength(text) == Some(i + f + e)
  {
    i := IntegerLength(text).value;
    f := FractionLength(text[i..]).value;
    e := ExponentLength(text[i + f..]).value;
  }

  lemma PartsLength(text: string, i: nat, f: nat, e: nat)
    requires Parts(text, i, f, e)
    ensures NumberLength(text) == Some(i + f + e)
  {
  }

  /** A number's length depends only on its own characters and the end after them. */
  lemma NumberSame(text: string, other: string)
    requires NumberLength(text).Some? && Same(text, other, NumberLength(text).value)
    ensures NumberLength(other) == NumberLength(text)
  {
    var i, f, e := NumberParts(text);
    PartsSame(text, other, i, f, e);
    PartsLength(other, i, f, e);
  }

  lemma NumberReads(literal: string, rest: string)
    requires IsNumber(literal) && Delimited(rest)
    ensures ParseNumber(literal + rest) == Some(Parsed(Number(literal), rest))
  {
    var text := literal + rest;
    assert text[..|literal|] == literal[..|literal|] == literal && text[|literal|..] == rest;
    NumberSame(literal, text);
  }

  /** A literal the reader accepted is a JSON number by itself. */
  lemma NumberRead(text: string)
    requires NumberLength(text).Some?
    ensures IsNumber(text[..NumberLength(text).value])
  {
    var n := NumberLength(text).value;
    assert text[..n][..n] == text[..n] && text[..n][n..] == "";
    NumberSame(text, text[..n]);
  }

  // ---------------------------------------------------------------------------
  // Values
  // ---------------------------------------------------------------------------

  predicate NumberHead(c: char) {
    c == '-' || IsDigit(c)
  }

  /** The first character tells what kind of value a text holds. */
  lemma TextHead(v: Json)
    requires WellFormed(v)
    ensures Text(v) != ""
    ensures var c := Text(v)[0];
      match v
      case Null => c == 'n'
      case Bool(b) => c == if b then 't' else 'f'
      case Number(_) => NumberHead(c)
      case Str(_) => c == '"'
      case Array(_) => c == '['
      case Object(_) => c == '{'
  {
    if v.Number? {
      var i, f, e := NumberParts(v.literal);
    }
  }

  /** What reading a value's text, and more, gives within a nesting bound. */
  ghost function Reading(v: Json, rest: string, room: nat): Option<Parsed<Json>> {
    if Within(v, room) then Some(Parsed(v, rest)) else None
  }

  lemma ScalarReads(v: Json, rest: string, room: nat)
    requires WellFormed(v) && Delimited(rest) && !v.Array? && !v.Object?
    ensures ParseValue(Text(v) + rest, room) == Reading(v, rest, room)
  {
    var text := Text(v) + rest;
    TextHead(v);
    assert text[0] == Text(v)[0] && SkipSpace(text) == text;
    match v
    case Str(s) => QuotedReads(s, rest);
    case Number(literal) => NumberReads(literal, rest);
    case Null => assert text[..4] == "null" && text[4..] == rest;
    case Bool(b) => assert text[..|Text(v)|] == Text(v) && text[|Text(v)|..] == rest;
  }

  ghost predicate ItemsWithin(v: Json, from: nat, room: nat)
    requires v.Array?
  {
    forall i :: from <= i < |v.items| ==> Within(v.items[i], room)
  }

  ghost predicate MembersWithin(v: Json, keys: seq<string>, room: nat)
    requires v.Object?
  {
    forall k :: k in keys && k in v.fields ==> Within(v.fields[k], room)
  }

  ghost function Chosen(v: Json, keys: seq<string>): map<string, Json>
    requires v.Object?
  {
    map k | k in keys && k in v.fields :: v.fields[k]
  }

  /** What follows one item. */
  ghost function AfterItem(v: Json, from: nat, rest: string): string
    requires v.Array? && from < |v.items|
  {
    if from == |v.items| - 1 then "]" + rest else "," + (ItemsText(v, from + 1) + "]" + rest)
  }

  lemma ItemsOpen(v: Json, from: nat, rest: string)
    requires v.Array? && from < |v.items|
    ensures ItemsText(v, from) + "]" + rest == Text(v.items[from]) + AfterItem(v, from, rest)
    ensures var more := AfterItem(v, from, rest);
      && SkipSpace(more) == more && Delimited(more)
      && more[1..] == if from == |v.items| - 1 then rest else ItemsText(v, from + 1) + "]" + rest
  {
    var text := Text(v.items[from]);
    if from < |v.items| - 1 {
      Reassociate(text, ",", ItemsText(v, from + 1), "]" + rest);
    }
  }

  lemma Reassociate(a: string, b: string, c: string, d: string)
    ensures a + b + c + d == a + (b + (c + d)) == a + (b + c + d)
  {
  }

  lemma {:induction false} ItemsRead(v: Json, from: nat, rest: string, room: nat)
    requires WellFormed(v) && v.Array? && from < |v.items|
    ensures ParseItems(ItemsText(v, from) + "]" + rest, room) == if ItemsWithin(v, from, room) then Some(Parsed(v.items[from..], rest)) else None
    decreases v, 0, |v.items| - from
  {
    ItemsOpen(v, from, rest);
    ValueReads(v.items[from], AfterItem(v, from, rest), room);
    ItemsSplit(v, from, room);
    if from < |v.items| - 1 { ItemsRead(v, from + 1, rest, room); }
  }

  lemma ItemsSplit(v: Json, from: nat, room: nat)
    requires v.Array? && from < |v.items|
    ensures v.items[from..] == [v.items[from]] + v.items[from + 1..]
    ensures ItemsWithin(v, from, room) <==> Within(v.items[from], room) && ItemsWithin(v, from + 1, room)
    ensures from == |v.items| - 1 ==> v.items[from..] == [v.items[from]] && ItemsWithin(v, from + 1, room)
  {
  }

  lemma KeyReads(key: string, rest: string)
    ensures ParseKey(Quoted(key) + ":" + rest) == Some(Parsed(key, rest))
  {
    var after := ":" + rest;
    assert Quoted(key) + ":" + rest == Quoted(key) + after;
    QuotedReads(key, after);
    assert SkipSpace(after) == after && after[1..] == rest;
    assert SkipSpace(Quoted(key) + after) == Quoted(key) + after;
  }

  /** What follows the first member's value. */
  ghost function AfterMember(v: Json, keys: seq<string>, rest: string): string
    requires v.Object? && keys != [] && forall k :: k in keys ==> k in v.fields
  {
    if |keys| == 1 then "}" + rest else "," + (MembersText(v, keys[1..]) + "}" + rest)
  }

  lemma MembersOpen(v: Json, keys: seq<string>, rest: string)
    requires v.Object? && keys != [] && forall k :: k in keys ==> k in v.fields
    ensures MembersText(v, keys) + "}" + rest == Quoted(keys[0]) + ":" + (Text(v.fields[keys[0]]) + AfterMember(v, keys, rest))
    ensures var more := AfterMember(v, keys, rest);
      && SkipSpace(more) == more && Delimited(more)
      && more[1..] == if |keys| == 1 then rest else MembersText(v, keys[1..]) + "}" + rest
  {
  }

  /** The last member, read. */
  lemma LastMemberRead(text: string, key: string, after: string, value: Json, more: string, room: nat)
    requires ParseKey(text) == Some(Parsed(key, after)) && SkipSpace(more) == more && more != "" && more[0] == '}'
    requires ParseValue(after, room) == Reading(value, more, room)
    ensures ParseMembers(text, room) == if Within(value, room) then Some(Parsed(map[key := value], more[1..])) else None
  {
  }

  /** A member with others after it. */
  lemma MemberRead(text: string, key: string, after: string, value: Json, more: string, room: nat)
    requires ParseKey(text) == Some(Parsed(key, after)) && SkipSpace(more) == more && more != "" && more[0] == ','
    requires ParseValue(after, room) == Reading(value, more, room)
    ensures ParseMembers(text, room) ==
      if !Within(value, room) || ParseMembers(more[1..], room).None? then None
      else Some(Parsed(map[key := value] + ParseMembers(more[1..], room).value.value, ParseMembers(more[1..], room).value.rest))
  {
  }

  lemma {:induction false} MembersRead(v: Json, keys: seq<string>, rest: string, room: nat)
    requires WellFormed(v) && v.Object? && keys != [] && forall k :: k in keys ==> k in v.fields
    ensures ParseMembers(MembersText(v, keys) + "}" + rest, room) == if MembersWithin(v, keys, room) then Some(Parsed(Chosen(v, keys), rest)) else None
    decreases v, 0, |keys|
  {
    var value, more := v.fields[keys[0]], AfterMember(v, keys, rest);
    MembersOpen(v, keys, rest);
    KeyReads(keys[0], Text(value) + more);
    ValueReads(value, more, room);
    var text, after := MembersText(v, keys) + "}" + rest, Text(value) + more;
    if |keys| == 1 {
      LastMemberRead(text, keys[0], after, value, more, room);
      assert Chosen(v, keys) == map[keys[0] := value];
    } else {
      MemberRead(text, keys[0], after, value, more, room);
      MembersRead(v, keys[1..], rest, room);
      ChosenSplit(v, keys, room);
    }
  }

  lemma ChosenSplit(v: Json, keys: seq<string>, room: nat)
    requires v.Object? && |keys| > 1 && forall k :: k in keys ==> k in v.fields
    ensures Chosen(v, keys) == map[keys[0] := v.fields[keys[0]]] + Chosen(v, keys[1..])
    ensures MembersWithin(v, keys, room) <==> Within(v.fields[keys[0]], room) && MembersWithin(v, keys[1..], room)
  {
    assert keys == [keys[0]] + keys[1..];
  }

  lemma {:induction false} ArrayReads(v: Json, rest: string, room: nat)
    requires WellFormed(v) && v.Array?
    ensures ParseValue(Text(v) + rest, room) == Reading(v, rest, room)
    decreases v, 1, 0
  {
    var text := Text(v) + rest;
    assert SkipSpace(text) == text && text[0] == '[';
    if v.items == [] {
      assert text[1..] == "]" + rest && SkipSpace(text[1..]) == text[1..] && text[1..][1..] == rest;
    } else {
      var inner := ItemsText(v, 0) + "]" + rest;
      assert text[1..] == inner;
      TextHead(v.items[0]);
      assert inner[0] == Text(v.items[0])[0] && SkipSpace(inner) == inner;
      if room > 0 {
        ItemsRead(v, 0, rest, room - 1);
        assert v.items[0..] == v.items;
      }
    }
  }

  lemma ObjectOpen(v: Json, keys: seq<string>, rest: string)
    requires v.Object? && keys == SortedKeys(v.fields.Keys)
    ensures var text := Text(v) + rest; SkipSpace(text) == text && text[0] == '{' && text[1..] == MembersText(v, keys) + "}" + rest
  {
    Braced(MembersText(v, keys), rest);
  }

  lemma Braced(members: string, rest: string)
    ensures var text := "{" + members + "}" + rest; text[0] == '{' && text[1..] == members + "}" + rest
  {
  }

  lemma MembersHead(v: Json, keys: seq<string>, rest: string)
    requires v.Object? && keys != [] && forall k :: k in keys ==> k in v.fields
    ensures var text := MembersText(v, keys) + "}" + rest; SkipSpace(text) == text && text[0] == '"'
  {
    MembersOpen(v, keys, rest);
  }

  lemma ObjectDispatch(text: string, room: nat)
    requires text != "" && SkipSpace(text) == text && text[0] == '{'
    ensures ParseValue(text, room) == ParseObject(text[1..], room)
  {
  }

  lemma EmptyObjectReads(rest: string, room: nat)
    ensures ParseObject("}" + rest, room) == if room == 0 then None else Some(Parsed(Object(map[]), rest))
  {
    assert ("}" + rest)[1..] == rest && SkipSpace("}" + rest) == "}" + rest;
  }

  lemma ObjectFromMembers(text: string, room: nat)
    requires text != "" && SkipSpace(text) == text && text[0] == '"'
    ensures ParseObject(text, room) ==
      if room == 0 || ParseMembers(text, room - 1).None? then None
      else Some(Parsed(Object(ParseMembers(text, room - 1).value.value), ParseMembers(text, room - 1).value.rest))
  {
  }

  lemma ChosenAll(v: Json, keys: seq<string>)
    requires v.Object? && forall k :: k in keys <==> k in v.fields
    ensures Chosen(v, keys) == v.fields
    ensures forall room: nat :: room > 0 ==> (MembersWithin(v, keys, room - 1) <==> Within(v, room))
  {
  }

  lemma ChosenAllWithin(v: Json, keys: seq<string>, room: nat)
    requires v.Object? && (forall k :: k in keys <==> k in v.fields) && room > 0
    ensures Chosen(v, keys) == v.fields && (MembersWithin(v, keys, room - 1) <==> Within(v, room))
  {
    ChosenAll(v, keys);
  }

  lemma {:induction false} BodyReads(v: Json, keys: seq<string>, rest: string, room: nat)
    requires WellFormed(v) && v.Object? && keys != [] && forall k :: k in keys <==> k in v.fields
    ensures ParseObject(MembersText(v, keys) + "}" + rest, room) == Reading(v, rest, room)
    decreases v, 0, |keys| + 1
  {
    MembersHead(v, keys, rest);
    ObjectFromMembers(MembersText(v, keys) + "}" + rest, room);
    if room > 0 {
      ChosenAllWithin(v, keys, room);
      MembersRead(v, keys, rest, room - 1);
    }
  }

  lemma {:induction false} ObjectReads(v: Json, rest: string, room: nat)
    requires WellFormed(v) && v.Object?
    ensures ParseValue(Text(v) + rest, room) == Reading(v, rest, room)
    decreases v, 1, 0
  {
    var keys := SortedKeys(v.fields.Keys);
    ObjectOpen(v, keys, rest);
    ObjectDispatch(Text(v) + rest, room);
    if keys == [] {
      assert v.fields == map[];
      assert MembersText(v, keys) + "}" + rest == "}" + rest;
      EmptyObjectReads(rest, room);
    } else {
      BodyReads(v, keys, rest, room);
    }
  }

  /** An object reads the same whatever order its members are written in. */
  lemma UnsortedReads(v: Json, keys: seq<string>, rest: string, room: nat, text: string)
    requires WellFormed(v) && v.Object? && keys != [] && forall k :: k in keys <==> k in v.fields
    requires text == "{" + (MembersText(v, keys) + "}" + rest)
    ensures SkipSpace(text) == text && ParseValue(text, room) == Reading(v, rest, room)
  {
    assert text[0] == '{' && text[1..] == MembersText(v, keys) + "}" + rest;
    ObjectDispatch(text, room);
    BodyReads(v, keys, rest, room);
  }

  /** The reader undoes the canonical writer exactly on the values that nest within the
      bound. */
  lemma {:induction false} ValueReads(v: Json, rest: string, room: nat)
    requires WellFormed(v) && Delimited(rest)
    ensures ParseValue(Text(v) + rest, room) == Reading(v, rest, room)
    decreases v, 2, 0
  {
    match v
    case Array(_) => ArrayReads(v, rest, room);
    case Object(_) => ObjectReads(v, rest, room);
    case _ => ScalarReads(v, rest, room);
  }

  // ---------------------------------------------------------------------------
  // What the reader returns
  // ---------------------------------------------------------------------------

  /** Everything the reader accepts is well formed and within the bound. */
  lemma {:induction false} ParsedValue(text: string, room: nat)
    requires ParseValue(text, room).Some?
    ensures var v := ParseValue(text, room).value.value; WellFormed(v) && Within(v, room)
    decreases |text|, 2
  {
    var t := SkipSpace(text);
    if t[0] == '[' {
      var u := SkipSpace(t[1..]);
      if u[0] != ']' { ParsedItems(u, room - 1); }
    } else if t[0] == '{' {
      var u := SkipSpace(t[1..]);
      if u[0] != '}' { ParsedMembers(u, room - 1); }
    } else if t[0] != '"' && t[0] != 'n' && t[0] != 't' && t[0] != 'f' {
      NumberRead(t);
    }
  }

  lemma {:induction false} ParsedItems(text: string, room: nat)
    requires ParseItems(text, room).Some?
    ensures forall v :: v in ParseItems(text, room).value.value ==> WellFormed(v) && Within(v, room)
    decreases |text|, 3
  {
    ParsedValue(text, room);
    var t := SkipSpace(ParseValue(text, room).value.rest);
    if t[0] == ',' { ParsedItems(t[1..], room); }
  }

  lemma {:induction false} ParsedMembers(text: string, room: nat)
    requires ParseMembers(text, room).Some?
    ensures var fields := ParseMembers(text, room).value.value;
      forall k :: k in fields ==> WellFormed(fields[k]) && Within(fields[k], room)
    decreases |text|, 3
  {
    var key := ParseKey(text).value;
    ParsedValue(key.rest, room);
    var t := SkipSpace(ParseValue(key.rest, room).value.rest);
    if t[0] == ',' { ParsedMembers(t[1..], room); }
  }

  // ---------------------------------------------------------------------------
  // The canonical form
  // ---------------------------------------------------------------------------

  /** Decode, then write. */
  ghost function Canonical(raw: string): Option<string> {
    match Decode(raw)
    case None => None
    case Some(v) => Some(Text(v))
  }

  /** Decoding canonical text gives the value back exactly when it nests within the
      decoder's bound; beyond it, decoding fails. */
  lemma DecodeUndoesText(v: Json)
    requires WellFormed(v)
    ensures Decode(Text(v)) == if Within(v, MAX_NESTING) then Some(v) else None
  {
    ValueReads(v, "", MAX_NESTING);
    assert Text(v) + "" == Text(v);
  }

  /** A bound that some value fits. */
  lemma {:induction false} Fits(v: Json) returns (room: nat)
    ensures Within(v, room)
  {
    match v
    case Array(items) =>
      room := 1;
      for i := 0 to |items|
        invariant room >= 1 && forall j :: 0 <= j < i ==> Within(items[j], room - 1)
      {
        var r := Fits(items[i]);
        forall j | 0 <= j < i ensures Within(items[j], room + r) { WithinMore(items[j], room - 1, room + r); }
        WithinMore(items[i], r, room + r);
        room := room + r + 1;
      }
    case Object(fields) =>
      room := 1;
      var rest := fields.Keys;
      while rest != {}
        invariant rest <= fields.Keys
        invariant room >= 1 && forall k :: k in fields && k !in rest ==> Within(fields[k], room - 1)
      {
        var k :| k in rest;
        var r := Fits(fields[k]);
        forall j | j in fields && j !in rest ensures Within(fields[j], room + r) { WithinMore(fields[j], room - 1, room + r); }
        WithinMore(fields[k], r, room + r);
        rest, room := rest - {k}, room + r + 1;
      }
    case _ => room := 0;
  }

  lemma {:induction false} WithinMore(v: Json, room: int, more: int)
    requires Within(v, room) && room <= more
    ensures Within(v, more)
    decreases v
  {
    match v
    case Array(items) => forall i | 0 <= i < |items| ensures Within(items[i], more - 1) { WithinMore(items[i], room - 1, more - 1); }
    case Object(fields) => forall k | k in fields ensures Within(fields[k], more - 1) { WithinMore(fields[k], room - 1, more - 1); }
    case _ =>
  }

  lemma CommonBound(v: Json, w: Json) returns (room: nat)
    ensures Within(v, room) && Within(w, room)
  {
    var a := Fits(v);
    var b := Fits(w);
    room := a + b;
    WithinMore(v, a, room);
    WithinMore(w, b, room);
  }

  lemma ReadsBack(v: Json, rest: string, room: nat, text: string)
    requires WellFormed(v) && Delimited(rest) && Within(v, room) && text == Text(v) + rest
    ensures ParseValue(text, room) == Some(Parsed(v, rest))
  {
    ValueReads(v, rest, room);
  }

  /** A value's text says where it ends: no canonical text is another's continued by a
      delimiter. */
  lemma TextPrefixFree(v: Json, w: Json, rest: string, text: string)
    requires WellFormed(v) && WellFormed(w) && Delimited(rest) && text == Text(v) == Text(w) + rest
    ensures v == w && rest == ""
  {
    var room := CommonBound(v, w);
    assert text == text + "";
    ReadsBack(v, "", room, text);
    ReadsBack(w, rest, room, text);
  }

  /** Two values with one canonical text are one value, however deeply they nest. */
  lemma TextInjective(v: Json, w: Json)
    requires WellFormed(v) && WellFormed(w) && Text(v) == Text(w)
    ensures v == w
  {
    TextPrefixFree(v, w, "", Text(v));
  }

  /** Canonicalizing canonical text changes nothing. */
  lemma CanonicalIdempotent(raw: string)
    requires Canonical(raw).Some?
    ensures Canonical(Canonical(raw).value) == Canonical(raw)
  {
    ParsedValue(raw, MAX_NESTING);
    DecodeUndoesText(Decode(raw).value);
  }

  /** Two documents have one canonical form exactly when they decode to one value: nothing
      but spacing, key order, repeated keys and spelling of characters is lost. */
  lemma CanonicalDecides(raw: string, other: string)
    requires Decode(raw).Some? && Decode(other).Some?
    ensures Canonical(raw) == Canonical(other) <==> Decode(raw) == Decode(other)
  {
    ParsedValue(raw, MAX_NESTING);
    ParsedValue(other, MAX_NESTING);
    if Canonical(raw) == Canonical(other) {
      TextInjective(Decode(raw).value, Decode(other).value);
    }
  }
}
