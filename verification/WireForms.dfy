/** The bytes as others see them: the layout that is hashed and the line that is archived, for
    every event (internal/retention/retention.go:150-177, export.go:230-239). */
module WireForms {
  import opened Wrappers
  import Decimal
  import opened Utf8
  import opened Json
  import opened JsonReader
  import opened CanonicalJson
  import opened EvidenceChain
  import opened EvidenceArchive

  // ---------------------------------------------------------------------------
  // What is hashed
  // ---------------------------------------------------------------------------

  /** A field on the wire: its length in bytes in decimal, a colon, its bytes. */
  function Wire(field: string): Bytes {
    Encode(Decimal.Digits(|Encode(field)|)) + [0x3A] + Encode(field)
  }

  lemma {:induction false} PrefixesJoin(a: Bytes, rest: seq<Bytes>)
    ensures PrefixedAll([a] + rest) == Prefixed(a) + PrefixedAll(rest)
  {
    assert ([a] + rest)[1..] == rest;
  }

  function WireAll(fields: seq<string>): Bytes {
    if fields == [] then [] else Wire(fields[0]) + WireAll(fields[1..])
  }

  lemma {:induction false} WiresJoin(fields: seq<string>, bytes: seq<Bytes>)
    requires |fields| == |bytes| && forall i :: 0 <= i < |fields| ==> bytes[i] == Encode(fields[i])
    ensures PrefixedAll(bytes) == WireAll(fields)
    decreases |fields|
  {
    if fields != [] {
      WiresJoin(fields[1..], bytes[1..]);
      assert bytes == [bytes[0]] + bytes[1..];
      PrefixesJoin(bytes[0], bytes[1..]);
    }
  }

  function FieldTexts(e: Event, payload: string): seq<string> {
    [e.schemaVersion, e.eventID, e.name, e.tenantID, e.aggregateID, e.correlationID, e.causationID, e.producer,
     e.correctsEventID, e.occurredAt, e.producedAt, Shown(e.sequence), payload]
  }

  lemma FieldEncoded(e: Event, payload: string, i: nat)
    requires i < 13
    ensures |Fields(e, payload)| == 13 && |FieldTexts(e, payload)| == 13
    ensures Fields(e, payload)[i] == Encode(FieldTexts(e, payload)[i])
  {
  }

  lemma FieldsAreTexts(e: Event, payload: string, texts: seq<string>, bytes: seq<Bytes>)
    requires texts == FieldTexts(e, payload) && bytes == Fields(e, payload)
    ensures PrefixedAll(bytes) == WireAll(texts)
  {
    FieldEncoded(e, payload, 0);
    forall i | 0 <= i < |texts| ensures bytes[i] == Encode(texts[i]) {
      FieldEncoded(e, payload, i);
    }
    WiresJoin(texts, bytes);
  }

  /** The thirteen fields of an event in the order they are hashed, the payload last as its
      canonical text, each behind its length. */
  lemma ContentLaidOut(e: Event)
    requires ContentBytes(e).Some?
    ensures PayloadText(e.payload).Some?
    ensures ContentBytes(e).value == WireAll(FieldTexts(e, PayloadText(e.payload).value))
  {
    var payload := PayloadText(e.payload).value;
    FieldsAreTexts(e, payload, FieldTexts(e, payload), Fields(e, payload));
  }

  /** A hash as text: two lower-case hexadecimal digits a byte, the high half first. */
  predicate IsHex(text: string, bytes: Bytes) {
    && |text| == 2 * |bytes|
    && forall i :: 0 <= i < |bytes| ==>
         && HexValue(text[2 * i]) == Some(bytes[i] / 16) && HexValue(text[2 * i + 1]) == Some(bytes[i] % 16)
         && !('A' <= text[2 * i] <= 'F') && !('A' <= text[2 * i + 1] <= 'F')
  }

  lemma {:induction false} HexIs(bytes: Bytes)
    ensures IsHex(Hex(bytes), bytes)
    decreases |bytes|
  {
    if bytes != [] {
      HexIs(bytes[1..]);
      HexReads(bytes[0] / 16);
      HexReads(bytes[0] % 16);
      var text, rest := Hex(bytes), Hex(bytes[1..]);
      assert text == [text[0], text[1]] + rest;
      forall i | 1 <= i < |bytes| ensures text[2 * i] == rest[2 * (i - 1)] && text[2 * i + 1] == rest[2 * (i - 1) + 1] && bytes[i] == bytes[1..][i - 1] {
      }
    }
  }

  lemma LinkLaidOut(previous: string, content: string)
    ensures LinkBytes(previous, content) == WireAll([previous, content])
  {
    var a, b := Encode(previous), Encode(content);
    WiresJoin([previous, content], [a, b]);
    PrefixesJoin(a, [b]);
    PrefixesJoin(b, []);
    assert [a] + [b] == [a, b] && [b] + [] == [b];
    assert Prefixed(b) + [] == Prefixed(b);
  }

  /** A chain begins with the empty head, and each head is the hash of the previous head and
      the event's own hash, each behind its length. */
  lemma HeadsLaidOut(h: Hash, previous: string, e: Event)
    requires ContentBytes(e).Some?
    ensures ChainOver(h, []) == Some("")
    ensures ContentHash(h, e).Some? && IsHex(ContentHash(h, e).value, h(ContentBytes(e).value))
    ensures ChainHash(h, previous, e).Some?
    ensures IsHex(ChainHash(h, previous, e).value, h(WireAll([previous, ContentHash(h, e).value])))
  {
    var content := ContentHash(h, e).value;
    HexIs(h(ContentBytes(e).value));
    HexIs(h(LinkBytes(previous, content)));
    LinkLaidOut(previous, content);
  }

  // ---------------------------------------------------------------------------
  // What is archived
  // ---------------------------------------------------------------------------

  /** A member of the line: its name, its value's text, and whether it is there at all. */
  datatype Member = Member(name: string, text: string, there: bool)

  function Spelled(m: Member): string {
    Quoted(m.name) + ":" + m.text
  }

  function Present(members: seq<Member>): (there: seq<Member>) {
    if members == [] then [] else (if members[0].there then [members[0]] else []) + Present(members[1..])
  }

  /** Members between commas. */
  function Joined(members: seq<Member>): string {
    if members == [] then ""
    else if |members| == 1 then Spelled(members[0])
    else Spelled(members[0]) + "," + Joined(members[1..])
  }

  function MemberOf(e: Event, f: Field, text: string): Member {
    Member(Name(f), text, Written(e, f))
  }

  /** The members are those of the fields. */
  ghost predicate Matches(e: Event, fields: seq<Field>, members: seq<Member>) {
    |fields| == |members| && forall i :: 0 <= i < |fields| ==> members[i] == MemberOf(e, fields[i], Text(ValueOf(e, fields[i])))
  }

  lemma {:induction false} PresentMatches(e: Event, fields: seq<Field>, members: seq<Member>)
    requires Matches(e, fields, members)
    ensures Matches(e, WrittenOf(e, fields), Present(members))
    decreases |fields|
  {
    if fields != [] {
      PresentMatches(e, fields[1..], members[1..]);
    }
  }

  lemma SpelledIs(e: Event, f: Field)
    requires Written(e, f)
    ensures Name(f) in Shape(e).fields
    ensures MemberText(Shape(e), Name(f)) == Spelled(MemberOf(e, f, Text(ValueOf(e, f))))
  {
    ShapeHas(e, f);
  }

  lemma {:induction false} JoinedIs(e: Event, fields: seq<Field>, members: seq<Member>)
    requires Matches(e, fields, members) && forall f :: f in fields ==> Written(e, f)
    ensures forall k :: k in Names(fields) ==> k in Shape(e).fields
    ensures MembersText(Shape(e), Names(fields)) == Joined(members)
    decreases |fields|
  {
    if fields != [] {
      SpelledIs(e, fields[0]);
      JoinedIs(e, fields[1..], members[1..]);
      assert Names(fields) == [Name(fields[0])] + Names(fields[1..]);
      FirstMember(Shape(e), Names(fields));
    }
  }

  lemma FirstMember(v: Json, names: seq<string>)
    requires v.Object? && names != [] && forall k :: k in names ==> k in v.fields
    ensures MembersText(v, names) == MemberText(v, names[0]) + if |names| == 1 then "" else "," + MembersText(v, names[1..])
  {
  }

  /** An event's members in the order they are written; three are left out when empty. */
  ghost function MembersOf(e: Event): seq<Member> {
    [Member("schema_version", Quoted(e.schemaVersion), true),
     Member("event_id", Quoted(e.eventID), true),
     Member("event_name", Quoted(e.name), true),
     Member("tenant_id", Quoted(e.tenantID), true),
     Member("aggregate_id", Quoted(e.aggregateID), true),
     Member("correlation_id", Quoted(e.correlationID), true),
     Member("causation_id", Quoted(e.causationID), e.causationID != ""),
     Member("occurred_at", Quoted(e.occurredAt), true),
     Member("produced_at", Quoted(e.producedAt), true),
     Member("producer", Quoted(e.producer), true),
     Member("sequence", Shown(e.sequence), true),
     Member("corrects_event_id", Quoted(e.correctsEventID), e.correctsEventID != ""),
     Member("payload", Text(Object(e.payload)), e.payload != map[])]
  }

  /** An archived event: which members, under which names, in which order, and which are left
      out. */
  lemma LineLaidOut(e: Event)
    ensures Line(e) == "{" + Joined(Present(MembersOf(e))) + "}\n"
  {
    AllMatch(e);
    PresentMatches(e, ALL_FIELDS, MembersOf(e));
    JoinedIs(e, WrittenOf(e, ALL_FIELDS), Present(MembersOf(e)));
  }

  lemma AllMatch(e: Event)
    ensures Matches(e, ALL_FIELDS, MembersOf(e))
  {
    var all, members := ALL_FIELDS, MembersOf(e);
    forall i | 0 <= i < 13 ensures members[i] == MemberOf(e, all[i], Text(ValueOf(e, all[i]))) {
      FieldMatches(e, i);
    }
  }

  lemma FieldMatches(e: Event, i: nat)
    requires i < 13
    ensures MembersOf(e)[i] == MemberOf(e, ALL_FIELDS[i], Text(ValueOf(e, ALL_FIELDS[i])))
  {
    if i < 5 {
      EarlyMatches(e, i);
    } else if i < 8 {
      MiddleMatches(e, i);
    } else if i < 11 {
      LateMatches(e, i);
    } else {
      LastMatches(e, i);
    }
  }

  lemma EarlyMatches(e: Event, i: nat)
    requires i < 5
    ensures MembersOf(e)[i] == MemberOf(e, ALL_FIELDS[i], Text(ValueOf(e, ALL_FIELDS[i])))
  {
  }

  lemma MiddleMatches(e: Event, i: nat)
    requires 5 <= i < 8
    ensures MembersOf(e)[i] == MemberOf(e, ALL_FIELDS[i], Text(ValueOf(e, ALL_FIELDS[i])))
  {
  }

  lemma LateMatches(e: Event, i: nat)
    requires 8 <= i < 11
    ensures MembersOf(e)[i] == MemberOf(e, ALL_FIELDS[i], Text(ValueOf(e, ALL_FIELDS[i])))
  {
  }

  lemma LastMatches(e: Event, i: nat)
    requires 11 <= i < 13
    ensures MembersOf(e)[i] == MemberOf(e, ALL_FIELDS[i], Text(ValueOf(e, ALL_FIELDS[i])))
  {
  }
}
