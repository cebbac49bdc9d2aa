/** A reader for JSON texts as sections 2 to 7 of RFC 8259 define them, deciding the details
    the standard leaves open the way the platform's decoder does: a repeated key keeps its
    last value, a lone surrogate escape reads as U+FFFD, nesting is bounded, and what
    follows the first value is not read. */
module JsonReader {
  import opened Wrappers
  import opened Json

  datatype Parsed<T> = Parsed(value: T, rest: string)

  /** The decoder's nesting bound. */
  const MAX_NESTING := 10_000

  predicate IsSpace(c: char) {
    c == ' ' || c == '\t' || c == '\n' || c == '\r'
  }

  function SkipSpace(text: string): (rest: string)
    ensures |rest| <= |text|
  {
    if text != "" && IsSpace(text[0]) then SkipSpace(text[1..]) else text
  }

  // ---------------------------------------------------------------------------
  // Numbers
  // ---------------------------------------------------------------------------

  predicate IsDigit(c: char) {
    '0' <= c <= '9'
  }

  function CountDigits(text: string): (n: nat)
    ensures n <= |text|
  {
    if text != "" && IsDigit(text[0]) then 1 + CountDigits(text[1..]) else 0
  }

  /** The length of the optional sign and the integer part. */
  function IntegerLength(text: string): (n: Option<nat>)
    ensures n.Some? ==> 0 < n.value <= |text|
  {
    var sign := if text != "" && text[0] == '-' then 1 else 0;
    if sign == |text| then None
    else if text[sign] == '0' then Some(sign + 1)
    else if IsDigit(text[sign]) then Some(sign + CountDigits(text[sign..]))
    else None
  }

  /** The length of the fraction: 0 when there is none, None when it is cut off. */
  function FractionLength(text: string): (n: Option<nat>)
    ensures n.Some? ==> n.value <= |text|
  {
    if text == "" || text[0] != '.' then Some(0)
    else if CountDigits(text[1..]) == 0 then None
    else Some(1 + CountDigits(text[1..]))
  }

  function ExponentLength(text: string): (n: Option<nat>)
    ensures n.Some? ==> n.value <= |text|
  {
    if text == "" || (text[0] != 'e' && text[0] != 'E') then Some(0)
    else
      var sign := if |text| > 1 && (text[1] == '+' || text[1] == '-') then 2 else 1;
      if CountDigits(text[sign..]) == 0 then None else Some(sign + CountDigits(text[sign..]))
  }

  function NumberLength(text: string): (n: Option<nat>)
    ensures n.Some? ==> 0 < n.value <= |text|
  {
    match IntegerLength(text)
    case None => None
    case Some(i) =>
      match FractionLength(text[i..])
      case None => None
      case Some(f) =>
        match ExponentLength(text[i + f..])
        case None => None
        case Some(e) => Some(i + f + e)
  }

  /** A number literal of section 6. */
  predicate IsNumber(literal: string) {
    NumberLength(literal) == Some(|literal|)
  }

  // ---------------------------------------------------------------------------
  // Strings
  // ---------------------------------------------------------------------------

  function HexValue(c: char): (n: Option<nat>)
    ensures n.Some? ==> n.value < 16
  {
    if '0' <= c <= '9' then Some(c as nat - '0' as nat)
    else if 'a' <= c <= 'f' then Some(c as nat - 'a' as nat + 10)
    else if 'A' <= c <= 'F' then Some(c as nat - 'A' as nat + 10)
    else None
  }

  /** The four hexadecimal digits a text starts with. */
  function Hex4(text: string): (n: Option<nat>)
    ensures n.Some? ==> n.value < 0x10000 && |text| >= 4
  {
    if |text| < 4 then None
    else
      match (HexValue(text[0]), HexValue(text[1]), HexValue(text[2]), HexValue(text[3]))
      case (Some(a), Some(b), Some(c), Some(d)) => Some(a * 4096 + b * 256 + c * 16 + d)
      case _ => None
  }

  /** The second half of a surrogate pair, when one follows. */
  function LowHalf(text: string): (n: Option<nat>)
    ensures n.Some? ==> 0xDC00 <= n.value < 0xE000 && |text| >= 6
  {
    if |text| >= 6 && text[0] == '\\' && text[1] == 'u' then
      match Hex4(text[2..])
      case Some(u) => if 0xDC00 <= u < 0xE000 then Some(u) else None
      case None => None
    else
      None
  }

  /** One character after a backslash and `u`. */
  function UnicodeEscape(text: string): (r: Option<Parsed<char>>)
    ensures r.Some? ==> |r.value.rest| < |text|
  {
    match Hex4(text)
    case None => None
    case Some(u) =>
      if u < 0xD800 || 0xE000 <= u then Some(Parsed(u as char, text[4..]))
      else
        match LowHalf(text[4..])
        case Some(low) =>
          if u < 0xDC00 then Some(Parsed((0x10000 + (u - 0xD800) * 0x400 + (low - 0xDC00)) as char, text[10..]))
          else Some(Parsed('\U{FFFD}', text[4..]))
        case None => Some(Parsed('\U{FFFD}', text[4..]))
  }

  function SimpleEscape(c: char): Option<char> {
    if c == '"' || c == '\\' || c == '/' then Some(c)
    else if c == 'b' then Some('\U{8}')
    else if c == 'f' then Some('\U{c}')
    else if c == 'n' then Some('\n')
    else if c == 'r' then Some('\r')
    else if c == 't' then Some('\t')
    else None
  }

  /** One character of a string. */
  function ParseChar(text: string): (r: Option<Parsed<char>>)
    ensures r.Some? ==> |r.value.rest| < |text|
  {
    if text == "" || text[0] < ' ' then None
    else if text[0] != '\\' then Some(Parsed(text[0], text[1..]))
    else if |text| == 1 then None
    else if text[1] == 'u' then UnicodeEscape(text[2..])
    else
      match SimpleEscape(text[1])
      case Some(c) => Some(Parsed(c, text[2..]))
      case None => None
  }

  /** A string after its opening quote. */
  function ParseString(text: string): (r: Option<Parsed<string>>)
    ensures r.Some? ==> |r.value.rest| < |text|
    decreases |text|
  {
    if text == "" then None
    else if text[0] == '"' then Some(Parsed("", text[1..]))
    else
      match ParseChar(text)
      case None => None
      case Some(c) =>
        match ParseString(c.rest)
        case None => None
        case Some(s) => Some(Parsed([c.value] + s.value, s.rest))
  }

  // ---------------------------------------------------------------------------
  // Values
  // ---------------------------------------------------------------------------

  function ParseWord(text: string, word: string, v: Json): (r: Option<Parsed<Json>>)
    requires word != ""
    ensures r.Some? ==> |r.value.rest| < |text|
  {
    if |word| <= |text| && text[..|word|] == word then Some(Parsed(v, text[|word|..])) else None
  }

  function ParseNumber(text: string): (r: Option<Parsed<Json>>)
    ensures r.Some? ==> |r.value.rest| < |text|
  {
    match NumberLength(text)
    case None => None
    case Some(n) => Some(Parsed(Number(text[..n]), text[n..]))
  }

  /** One value, after leading space, in which arrays and objects may nest `room` deep. */
  function ParseValue(text: string, room: nat): (r: Option<Parsed<Json>>)
    ensures r.Some? ==> |r.value.rest| < |text|
    decreases |text|, 2
  {
    var t := SkipSpace(text);
    if t == "" then None
    else if t[0] == '"' then
      match ParseString(t[1..])
      case None => None
      case Some(s) => Some(Parsed(Str(s.value), s.rest))
    else if t[0] == '[' then ParseArray(t[1..], room)
    else if t[0] == '{' then ParseObject(t[1..], room)
    else if t[0] == 'n' then ParseWord(t, "null", Null)
    else if t[0] == 't' then ParseWord(t, "true", Bool(true))
    else if t[0] == 'f' then ParseWord(t, "false", Bool(false))
    else ParseNumber(t)
  }

  /** An array after its opening bracket. */
  function ParseArray(text: string, room: nat): (r: Option<Parsed<Json>>)
    ensures r.Some? ==> |r.value.rest| < |text|
    decreases |text|, 4
  {
    var t := SkipSpace(text);
    if room == 0 || t == "" then None
    else if t[0] == ']' then Some(Parsed(Array([]), t[1..]))
    else
      match ParseItems(t, room - 1)
      case None => None
      case Some(p) => Some(Parsed(Array(p.value), p.rest))
  }

  /** At least one item, through the closing bracket. */
  function ParseItems(text: string, room: nat): (r: Option<Parsed<seq<Json>>>)
    ensures r.Some? ==> |r.value.rest| < |text|
    decreases |text|, 3
  {
    match ParseValue(text, room)
    case None => None
    case Some(v) =>
      var t := SkipSpace(v.rest);
      if t == "" then None
      else if t[0] == ']' then Some(Parsed([v.value], t[1..]))
      else if t[0] == ',' then
        match ParseItems(t[1..], room)
        case None => None
        case Some(more) => Some(Parsed([v.value] + more.value, more.rest))
      else None
  }

  function ParseObject(text: string, room: nat): (r: Option<Parsed<Json>>)
    ensures r.Some? ==> |r.value.rest| < |text|
    decreases |text|, 4
  {
    var t := SkipSpace(text);
    if room == 0 || t == "" then None
    else if t[0] == '}' then Some(Parsed(Object(map[]), t[1..]))
    else
      match ParseMembers(t, room - 1)
      case None => None
      case Some(p) => Some(Parsed(Object(p.value), p.rest))
  }

  /** A key and its colon. */
  function ParseKey(text: string): (r: Option<Parsed<string>>)
    ensures r.Some? ==> |r.value.rest| < |text|
  {
    var t := SkipSpace(text);
    if t == "" || t[0] != '"' then None
    else
      match ParseString(t[1..])
      case None => None
      case Some(key) =>
        var u := SkipSpace(key.rest);
        if u == "" || u[0] != ':' then None else Some(Parsed(key.value, u[1..]))
  }

  /** At least one member, through the closing brace. */
  function ParseMembers(text: string, room: nat): (r: Option<Parsed<map<string, Json>>>)
    ensures r.Some? ==> |r.value.rest| < |text|
    decreases |text|, 3
  {
    match ParseKey(text)
    case None => None
    case Some(key) =>
      match ParseValue(key.rest, room)
      case None => None
      case Some(v) =>
        var t := SkipSpace(v.rest);
        if t == "" then None
        else if t[0] == '}' then Some(Parsed(map[key.value := v.value], t[1..]))
        else if t[0] == ',' then
          match ParseMembers(t[1..], room)
          case None => None
          case Some(more) => Some(Parsed(map[key.value := v.value] + more.value, more.rest))
        else None
  }

  /** The first value of a text. */
  function Decode(text: string): Option<Json> {
    match ParseValue(text, MAX_NESTING)
    case None => None
    case Some(p) => Some(p.value)
  }
}
