/** The hash chain over archived evidence (internal/retention/retention.go). The hash is any
    function from bytes to 32 bytes; nothing is assumed of it. */
module EvidenceChain {
  import opened Wrappers
  import Decimal
  import opened Utf8
  import opened Json
  import opened JsonReader
  import opened CanonicalJson
  import opened Chain

  type Digest = d: Bytes | |d| == 32 witness seq(32, _ => 0)

  type Hash = Bytes -> Digest

  /** One immutable event. The two instants are held as the UTC text they are hashed as, and
      a payload that is absent as the empty one. */
  datatype Event = Event(
    schemaVersion: string,
    eventID: string,
    name: string,
    tenantID: string,
    aggregateID: string,
    correlationID: string,
    causationID: string,
    producer: string,
    correctsEventID: string,
    occurredAt: string,
    producedAt: string,
    sequence: int,
    payload: map<string, Json>)

  ghost predicate Sound(e: Event) {
    WellFormed(Object(e.payload))
  }

  // ---------------------------------------------------------------------------
  // The bytes
  // ---------------------------------------------------------------------------

  /** `%d` of an integer. */
  function Shown(n: int): string {
    if n < 0 then "-" + Decimal.Digits(-n) else Decimal.Digits(n)
  }

  lemma ShownInjective(m: int, n: int)
    requires Shown(m) == Shown(n)
    ensures m == n
  {
    var x, y := Decimal.Digits(if m < 0 then -m else m), Decimal.Digits(if n < 0 then -n else n);
    assert Decimal.IsDigit(x[0]) && Decimal.IsDigit(y[0]);
    if m < 0 {
      assert Shown(m)[1..] == x && Shown(n)[1..] == y;
    }
    Decimal.DigitsInjective(if m < 0 then -m else m, if n < 0 then -n else n);
  }

  const COLON: Byte := 0x3A

  /** `%d:%s`: the length in bytes, a colon, the field. */
  function Prefixed(field: Bytes): Bytes {
    Encode(Decimal.Digits(|field|)) + [COLON] + field
  }

  function PrefixedAll(fields: seq<Bytes>): Bytes {
    if fields == [] then [] else Prefixed(fields[0]) + PrefixedAll(fields[1..])
  }

  /** The payload's text: through the printer, then the canonicalizer, which reads it with
      the decoder's nesting bound. */
  ghost function PayloadText(payload: map<string, Json>): Option<string> {
    if payload == map[] then Some("{}") else Canonical(Text(Object(payload)))
  }

  /** The thirteen hashed fields, in order. */
  ghost function Fields(e: Event, payload: string): seq<Bytes> {
    [Encode(e.schemaVersion), Encode(e.eventID), Encode(e.name), Encode(e.tenantID), Encode(e.aggregateID),
     Encode(e.correlationID), Encode(e.causationID), Encode(e.producer), Encode(e.correctsEventID),
     Encode(e.occurredAt), Encode(e.producedAt), Encode(Shown(e.sequence)), Encode(payload)]
  }

  ghost function ContentBytes(e: Event): Option<Bytes> {
    match PayloadText(e.payload)
    case None => None
    case Some(text) => Some(PrefixedAll(Fields(e, text)))
  }

  // ---------------------------------------------------------------------------
  // Length prefixes are unambiguous
  // ---------------------------------------------------------------------------

  predicate DigitByte(b: Byte) {
    0x30 <= b <= 0x39
  }

  lemma DigitsEncode(n: nat)
    ensures forall i :: 0 <= i < |Encode(Decimal.Digits(n))| ==> DigitByte(Encode(Decimal.Digits(n))[i])
  {
    EncodeAscii(Decimal.Digits(n));
  }

  lemma PrefixedSplits(a: Bytes, b: Bytes, r: Bytes, s: Bytes)
    requires Prefixed(a) + r == Prefixed(b) + s
    ensures a == b && r == s
  {
    var x, y := Encode(Decimal.Digits(|a|)), Encode(Decimal.Digits(|b|));
    DigitsEncode(|a|);
    DigitsEncode(|b|);
    var whole := Prefixed(a) + r;
    assert whole == x + ([COLON] + a + r) && whole == y + ([COLON] + b + s);
    FirstColon(x, [COLON] + a + r, y, [COLON] + b + s, whole);
    EncodeInjective(Decimal.Digits(|a|), Decimal.Digits(|b|));
    Decimal.DigitsInjective(|a|, |b|);
    assert ([COLON] + a + r)[1..] == a + r && ([COLON] + b + s)[1..] == b + s;
    assert (a + r)[..|a|] == a && (b + s)[..|b|] == b && (a + r)[|a|..] == r && (b + s)[|b|..] == s;
  }

  lemma FirstColon(x: Bytes, u: Bytes, y: Bytes, v: Bytes, whole: Bytes)
    requires whole == x + u && whole == y + v
    requires u != [] && v != [] && u[0] == COLON && v[0] == COLON
    requires forall i :: 0 <= i < |x| ==> DigitByte(x[i])
    requires forall i :: 0 <= i < |y| ==> DigitByte(y[i])
    ensures x == y && u == v
  {
    assert whole[|x|] == COLON && whole[|y|] == COLON;
    assert forall i :: 0 <= i < |x| ==> DigitByte(whole[i]);
    assert forall i :: 0 <= i < |y| ==> DigitByte(whole[i]);
    assert |x| == |y|;
    assert whole[..|x|] == x && whole[..|y|] == y && whole[|x|..] == u && whole[|y|..] == v;
  }

  /** Equally many fields with one encoding are the same fields. */
  lemma {:induction false} FieldsSplit(a: seq<Bytes>, b: seq<Bytes>)
    requires |a| == |b| && PrefixedAll(a) == PrefixedAll(b)
    ensures a == b
    decreases |a|
  {
    if a != [] {
      PrefixedSplits(a[0], b[0], PrefixedAll(a[1..]), PrefixedAll(b[1..]));
      FieldsSplit(a[1..], b[1..]);
      assert a == [a[0]] + a[1..] && b == [b[0]] + b[1..];
    }
  }

  lemma PayloadTextInjective(p: map<string, Json>, q: map<string, Json>)
    requires WellFormed(Object(p)) && WellFormed(Object(q))
    requires PayloadText(p).Some? && PayloadText(p) == PayloadText(q)
    ensures p == q
  {
    PayloadTextIs(p);
    PayloadTextIs(q);
    TextInjective(Object(p), Object(q));
  }

  /** The canonicalizer only ever refuses the payload; it does not change its text. */
  lemma PayloadTextIs(p: map<string, Json>)
    requires WellFormed(Object(p))
    ensures PayloadText(p) == if Within(Object(p), MAX_NESTING) then Some(Text(Object(p))) else None
  {
    if p == map[] {
      var v: Json := Object(p);
      assert v.fields.Keys == {} && SortedKeys({}) == [];
      assert MembersText(v, SortedKeys(v.fields.Keys)) == "";
      assert Text(v) == "{" + MembersText(v, SortedKeys(v.fields.Keys)) + "}";
      assert Text(v) == "{}" && Within(v, MAX_NESTING);
    } else {
      DecodeUndoesText(Object(p));
    }
  }

  /** The encoding of the thirteen fields is injective on events. */
  lemma ContentBytesInjective(e: Event, f: Event)
    requires Sound(e) && Sound(f) && ContentBytes(e).Some? && ContentBytes(e) == ContentBytes(f)
    ensures e == f
  {
    var a, b := Fields(e, PayloadText(e.payload).value), Fields(f, PayloadText(f.payload).value);
    FieldsSplit(a, b);
    FieldsEqual(e, f, PayloadText(e.payload).value, PayloadText(f.payload).value);
    PayloadTextInjective(e.payload, f.payload);
  }

  lemma FieldsEqual(e: Event, f: Event, p: string, q: string)
    requires Fields(e, p) == Fields(f, q)
    ensures e == f.(payload := e.payload) && p == q
  {
    var a, b := Fields(e, p), Fields(f, q);
    FirstFields(e, f, a, b, p, q);
    LastFields(e, f, a, b, p, q);
  }

  lemma FirstFields(e: Event, f: Event, a: seq<Bytes>, b: seq<Bytes>, p: string, q: string)
    requires a == Fields(e, p) && b == Fields(f, q) && a == b
    ensures e.schemaVersion == f.schemaVersion && e.eventID == f.eventID && e.name == f.name && e.tenantID == f.tenantID
    ensures e.aggregateID == f.aggregateID && e.correlationID == f.correlationID && e.causationID == f.causationID
  {
    assert a[0] == b[0] && a[1] == b[1] && a[2] == b[2] && a[3] == b[3] && a[4] == b[4] && a[5] == b[5] && a[6] == b[6];
    EncodeInjective(e.schemaVersion, f.schemaVersion);
    EncodeInjective(e.eventID, f.eventID);
    EncodeInjective(e.name, f.name);
    EncodeInjective(e.tenantID, f.tenantID);
    EncodeInjective(e.aggregateID, f.aggregateID);
    EncodeInjective(e.correlationID, f.correlationID);
    EncodeInjective(e.causationID, f.causationID);
  }

  lemma LastFields(e: Event, f: Event, a: seq<Bytes>, b: seq<Bytes>, p: string, q: string)
    requires a == Fields(e, p) && b == Fields(f, q) && a == b
    ensures e.producer == f.producer && e.correctsEventID == f.correctsEventID && e.occurredAt == f.occurredAt
    ensures e.producedAt == f.producedAt && e.sequence == f.sequence && p == q
  {
    assert a[7] == b[7] && a[8] == b[8] && a[9] == b[9] && a[10] == b[10] && a[11] == b[11] && a[12] == b[12];
    EncodeInjective(e.producer, f.producer);
    EncodeInjective(e.correctsEventID, f.correctsEventID);
    EncodeInjective(e.occurredAt, f.occurredAt);
    EncodeInjective(e.producedAt, f.producedAt);
    EncodeInjective(Shown(e.sequence), Shown(f.sequence));
    ShownInjective(e.sequence, f.sequence);
    EncodeInjective(p, q);
  }

  // ---------------------------------------------------------------------------
  // The chain
  // ---------------------------------------------------------------------------

  /** Lower-case hexadecimal. */
  function Hex(d: Bytes): (s: string)
    ensures |s| == 2 * |d|
  {
    if d == [] then "" else [HexDigit(d[0] / 16), HexDigit(d[0] % 16)] + Hex(d[1..])
  }

  lemma {:induction false} HexInjective(d: Bytes, e: Bytes)
    requires Hex(d) == Hex(e)
    ensures d == e
    decreases |d|
  {
    if d != [] && e != [] {
      var s := Hex(d);
      HexReads(d[0] / 16);
      HexReads(e[0] / 16);
      HexReads(d[0] % 16);
      HexReads(e[0] % 16);
      assert s[0] == HexDigit(d[0] / 16) && s[1] == HexDigit(d[0] % 16) && s[2..] == Hex(d[1..]);
      assert s[0] == HexDigit(e[0] / 16) && s[1] == HexDigit(e[0] % 16) && s[2..] == Hex(e[1..]);
      HexInjective(d[1..], e[1..]);
      assert d == [d[0]] + d[1..] && e == [e[0]] + e[1..];
    }
  }

  ghost function ContentHash(h: Hash, e: Event): Option<string> {
    match ContentBytes(e)
    case None => None
    case Some(bytes) => Some(Hex(h(bytes)))
  }

  /** The bytes one link hashes. */
  function LinkBytes(previous: string, content: string): Bytes {
    Prefixed(Encode(previous)) + Prefixed(Encode(content))
  }

  ghost function ChainHash(h: Hash, previous: string, e: Event): Option<string> {
    match ContentHash(h, e)
    case None => None
    case Some(content) => Some(Hex(h(LinkBytes(previous, content))))
  }

  /** One link on the bytes of an event's content. */
  function Link(h: Hash): Step<Bytes> {
    (previous: string, content: Bytes) => Hex(h(LinkBytes(previous, Hex(h(content)))))
  }

  ghost function ContentOf(): Event -> Option<Bytes> {
    (e: Event) => ContentBytes(e)
  }

  ghost function ChainOver(h: Hash, events: seq<Event>): Option<string> {
    Head(Link(h), Contents(ContentOf(), events))
  }

  lemma LinkSplits(p: string, c: string, q: string, d: string)
    requires LinkBytes(p, c) == LinkBytes(q, d)
    ensures p == q && c == d
  {
    PrefixedSplits(Encode(p), Encode(q), Prefixed(Encode(c)), Prefixed(Encode(d)));
    assert Prefixed(Encode(c)) + [] == Prefixed(Encode(c)) && Prefixed(Encode(d)) + [] == Prefixed(Encode(d));
    PrefixedSplits(Encode(c), Encode(d), [], []);
    EncodeInjective(p, q);
    EncodeInjective(c, d);
  }

  // ---------------------------------------------------------------------------
  // Tamper evidence
  // ---------------------------------------------------------------------------

  /** Two different byte strings with one hash. */
  predicate Collides(h: Hash, pair: (Bytes, Bytes)) {
    pair.0 != pair.1 && h(pair.0) == h(pair.1)
  }

  ghost predicate AllSound(events: seq<Event>) {
    forall i :: 0 <= i < |events| ==> Sound(events[i])
  }

  /** Where two links can differ: in what they hash, or in what that covers. */
  function ApartLink(h: Hash): Apart<Bytes, (Bytes, Bytes)> {
    (p: string, c: Bytes, q: string, d: Bytes) =>
      if LinkBytes(p, Hex(h(c))) != LinkBytes(q, Hex(h(d))) then Some((LinkBytes(p, Hex(h(c))), LinkBytes(q, Hex(h(d)))))
      else if c != d then Some((c, d))
      else None
  }

  lemma LinkExplained(h: Hash, p: string, c: Bytes, q: string, d: Bytes)
    requires Link(h)(p, c) == Link(h)(q, d)
    ensures match ApartLink(h)(p, c, q, d)
      case Some(pair) => Collides(h, pair)
      case None => p == q && c == d
  {
    var x, y := LinkBytes(p, Hex(h(c))), LinkBytes(q, Hex(h(d)));
    HexInjective(h(x), h(y));
    if x == y {
      LinkSplits(p, Hex(h(c)), q, Hex(h(d)));
      HexInjective(h(c), h(d));
    }
  }

  lemma LinkNotEmpty(h: Hash)
    ensures forall p: string, c: Bytes :: Link(h)(p, c) != ""
  {
    forall p: string, c: Bytes ensures Link(h)(p, c) != "" {
      assert |Hex(h(LinkBytes(p, Hex(h(c)))))| == 64;
    }
  }

  lemma LinkCoincides(h: Hash)
    ensures forall p: string, c: Bytes, q: string, d: Bytes :: Link(h)(p, c) == Link(h)(q, d) ==>
      match ApartLink(h)(p, c, q, d)
      case Some(pair) => Collides(h, pair)
      case None => p == q && c == d
  {
    forall p: string, c: Bytes, q: string, d: Bytes | Link(h)(p, c) == Link(h)(q, d)
      ensures match ApartLink(h)(p, c, q, d)
        case Some(pair) => Collides(h, pair)
        case None => p == q && c == d
    {
      LinkExplained(h, p, c, q, d);
    }
  }

  lemma LinkExplains(h: Hash)
    ensures Explains(Link(h), ApartLink(h), pair => Collides(h, pair))
  {
    LinkNotEmpty(h);
    LinkCoincides(h);
  }

  /** The colliding pair in hand when different lists share a head. */
  ghost function Suspect(h: Hash, a: seq<Event>, b: seq<Event>): Option<(Bytes, Bytes)>
    requires ChainOver(h, a).Some? && ChainOver(h, b).Some?
  {
    Parting(Link(h), ApartLink(h), Contents(ContentOf(), a), Contents(ContentOf(), b))
  }

  /** Lists that chain to one head are one list, or a hash collision is in hand: no event can
      be edited, inserted, removed or reordered without finding one. */
  lemma TamperEvident(h: Hash, a: seq<Event>, b: seq<Event>)
    requires AllSound(a) && AllSound(b)
    requires ChainOver(h, a).Some? && ChainOver(h, a) == ChainOver(h, b)
    ensures match Suspect(h, a, b)
      case Some(pair) => Collides(h, pair)
      case None => a == b
  {
    LinkExplains(h);
    SameHead(Link(h), ApartLink(h), pair => Collides(h, pair), Contents(ContentOf(), a), Contents(ContentOf(), b));
    if Suspect(h, a, b).None? {
      HeadSome(Link(h), ContentOf(), a);
      forall e, f | Sound(e) && Sound(f) && ContentOf()(e).Some? && ContentOf()(e) == ContentOf()(f) ensures e == f {
        ContentBytesInjective(e, f);
      }
      SameContents(ContentOf(), (e: Event) => Sound(e), a, b);
    }
  }

  // ---------------------------------------------------------------------------
  // The loops
  // ---------------------------------------------------------------------------

  lemma ChainNext(h: Hash, events: seq<Event>, i: nat)
    requires i < |events| && ChainOver(h, events[..i]).Some?
    ensures ChainOver(h, events[..i + 1]) == ChainHash(h, ChainOver(h, events[..i]).value, events[i])
  {
    HeadNext(Link(h), ContentOf(), events, i);
  }

  lemma ChainSome(h: Hash, events: seq<Event>)
    ensures ChainOver(h, events).Some? <==> forall i :: 0 <= i < |events| ==> ContentBytes(events[i]).Some?
  {
    HeadSome(Link(h), ContentOf(), events);
    assert forall i :: 0 <= i < |events| ==> ContentOf()(events[i]) == ContentBytes(events[i]);
  }
}
