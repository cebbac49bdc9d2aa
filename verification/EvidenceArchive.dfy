/** The archive text: one event per line (internal/retention/export.go). */
module EvidenceArchive {
  import opened Wrappers
  import Decimal
  import Int64
  import opened Json
  import opened JsonReader
  import opened CanonicalJson
  import opened EvidenceChain

  /** The event's fields, in the order its encoder writes them. */
  datatype Field =
    | SchemaVersion | EventID | EventName | TenantID | AggregateID | CorrelationID | CausationID
    | OccurredAt | ProducedAt | Producer | Sequence | CorrectsEventID | Payload

  function Name(f: Field): string {
    match f
    case SchemaVersion => "schema_version"
    case EventID => "event_id"
    case EventName => "event_name"
    case TenantID => "tenant_id"
    case AggregateID => "aggregate_id"
    case CorrelationID => "correlation_id"
    case CausationID => "causation_id"
    case OccurredAt => "occurred_at"
    case ProducedAt => "produced_at"
    case Producer => "producer"
    case Sequence => "sequence"
    case CorrectsEventID => "corrects_event_id"
    case Payload => "payload"
  }

  lemma NamesDiffer(f: Field, g: Field)
    requires Name(f) == Name(g)
    ensures f == g
  {
    assert |Name(f)| == |Name(g)| && Name(f)[0] == Name(g)[0];
  }

  function ValueOf(e: Event, f: Field): Json {
    match f
    case SchemaVersion => Str(e.schemaVersion)
    case EventID => Str(e.eventID)
    case EventName => Str(e.name)
    case TenantID => Str(e.tenantID)
    case AggregateID => Str(e.aggregateID)
    case CorrelationID => Str(e.correlationID)
    case CausationID => Str(e.causationID)
    case OccurredAt => Str(e.occurredAt)
    case ProducedAt => Str(e.producedAt)
    case Producer => Str(e.producer)
    case Sequence => Number(Shown(e.sequence))
    case CorrectsEventID => Str(e.correctsEventID)
    case Payload => Object(e.payload)
  }

  /** Three fields are left out when empty. */
  predicate Written(e: Event, f: Field) {
    match f
    case CausationID => e.causationID != ""
    case CorrectsEventID => e.correctsEventID != ""
    case Payload => e.payload != map[]
    case _ => true
  }

  const ALL_FIELDS: seq<Field> :=
    [SchemaVersion, EventID, EventName, TenantID, AggregateID, CorrelationID, CausationID,
     OccurredAt, ProducedAt, Producer, Sequence, CorrectsEventID, Payload]

  function WrittenOf(e: Event, fields: seq<Field>): (written: seq<Field>)
    ensures forall f :: f in written <==> f in fields && Written(e, f)
  {
    if fields == [] then []
    else (if Written(e, fields[0]) then [fields[0]] else []) + WrittenOf(e, fields[1..])
  }

  function Names(fields: seq<Field>): (names: seq<string>)
    ensures |names| == |fields| && forall i :: 0 <= i < |fields| ==> names[i] == Name(fields[i])
  {
    if fields == [] then [] else [Name(fields[0])] + Names(fields[1..])
  }

  /** The field a name stands for. */
  function FieldOf(name: string, fields: seq<Field>): (f: Option<Field>)
    ensures f.Some? ==> f.value in fields && Name(f.value) == name
    ensures f.None? ==> forall g :: g in fields ==> Name(g) != name
  {
    if fields == [] then None
    else if Name(fields[0]) == name then Some(fields[0])
    else FieldOf(name, fields[1..])
  }

  /** The event as an object. */
  function Shape(e: Event): Json {
    var fields := WrittenOf(e, ALL_FIELDS);
    Object(map name | name in Names(fields) && FieldOf(name, fields).Some? :: ValueOf(e, FieldOf(name, fields).value))
  }

  lemma ShapeHas(e: Event, f: Field)
    ensures Name(f) in Shape(e).fields <==> Written(e, f)
    ensures Written(e, f) ==> Shape(e).fields[Name(f)] == ValueOf(e, f)
  {
    var fields := WrittenOf(e, ALL_FIELDS);
    assert f in ALL_FIELDS by { AllFields(f); }
    if Written(e, f) {
      var i :| 0 <= i < |fields| && fields[i] == f;
      assert Names(fields)[i] == Name(f);
    }
    if FieldOf(Name(f), fields).Some? {
      NamesDiffer(f, FieldOf(Name(f), fields).value);
    }
  }

  lemma AllFields(f: Field)
    ensures f in ALL_FIELDS
  {
    var all := ALL_FIELDS;
    assert all[0] == SchemaVersion && all[1] == EventID && all[2] == EventName && all[3] == TenantID && all[4] == AggregateID;
    assert all[5] == CorrelationID && all[6] == CausationID && all[7] == OccurredAt && all[8] == ProducedAt;
    assert all[9] == Producer && all[10] == Sequence && all[11] == CorrectsEventID && all[12] == Payload;
  }

  // ---------------------------------------------------------------------------
  // Encoding
  // ---------------------------------------------------------------------------

  ghost function Line(e: Event): string {
    "{" + MembersText(Shape(e), KeysWritten(e)) + "}\n"
  }

  function KeysWritten(e: Event): (keys: seq<string>)
    ensures forall k :: k in keys <==> k in Shape(e).fields
  {
    Names(WrittenOf(e, ALL_FIELDS))
  }

  ghost function EncodeArchive(events: seq<Event>): string {
    if events == [] then "" else Line(events[0]) + EncodeArchive(events[1..])
  }

  // ---------------------------------------------------------------------------
  // Decoding
  // ---------------------------------------------------------------------------

  const NO_TIME := "0001-01-01T00:00:00Z"

  /** How an instant's text reads: its UTC rendering, or None when it is not one. */
  type Clock = string -> Option<string>

  predicate Absent(fields: map<string, Json>, f: Field) {
    Name(f) !in fields || fields[Name(f)].Null?
  }

  function TextField(fields: map<string, Json>, f: Field): Option<string> {
    if Absent(fields, f) then Some("")
    else if fields[Name(f)].Str? then Some(fields[Name(f)].text)
    else None
  }

  function TimeField(fields: map<string, Json>, f: Field, utc: Clock): Option<string> {
    if Absent(fields, f) then Some(NO_TIME)
    else if fields[Name(f)].Str? then utc(fields[Name(f)].text)
    else None
  }

  /** strconv.ParseInt of a literal: no fraction, no exponent, within int64. */
  function ParseInteger(literal: string): Option<int> {
    var digits := if literal != "" && literal[0] == '-' then literal[1..] else literal;
    if digits == "" || !Decimal.AllDigits(digits) then None
    else
      var size: int := Decimal.Value(digits);
      var n := if digits == literal then size else -size;
      if Int64.Fits(n) then Some(n) else None
  }

  function SequenceField(fields: map<string, Json>): Option<int> {
    if Absent(fields, Sequence) then Some(0)
    else if fields[Name(Sequence)].Number? then ParseInteger(fields[Name(Sequence)].literal)
    else None
  }

  function PayloadField(fields: map<string, Json>): Option<map<string, Json>> {
    if Absent(fields, Payload) then Some(map[])
    else if fields[Name(Payload)].Object? then Some(fields[Name(Payload)].fields)
    else None
  }

  function DecodeEvent(fields: map<string, Json>, utc: Clock): Option<Event> {
    match (TextField(fields, SchemaVersion), TextField(fields, EventID), TextField(fields, EventName), TextField(fields, TenantID))
    case (Some(schema), Some(id), Some(name), Some(tenant)) => DecodeRest(fields, utc, schema, id, name, tenant)
    case _ => None
  }

  function DecodeRest(fields: map<string, Json>, utc: Clock, schema: string, id: string, name: string, tenant: string): Option<Event> {
    match (TextField(fields, AggregateID), TextField(fields, CorrelationID), TextField(fields, CausationID), TextField(fields, Producer), TextField(fields, CorrectsEventID))
    case (Some(aggregate), Some(correlation), Some(causation), Some(producer), Some(corrects)) =>
      (match (TimeField(fields, OccurredAt, utc), TimeField(fields, ProducedAt, utc), SequenceField(fields), PayloadField(fields))
       case (Some(occurred), Some(produced), Some(sequence), Some(payload)) =>
         Some(Event(schema, id, name, tenant, aggregate, correlation, causation, producer, corrects, occurred, produced, sequence, payload))
       case _ => None)
    case _ => None
  }

  /** One decoded value as an event; null decodes to the empty event. */
  function EventOf(v: Json, utc: Clock): Option<Event> {
    match v
    case Object(fields) => DecodeEvent(fields, utc)
    case Null => DecodeEvent(map[], utc)
    case _ => None
  }

  /** Events until the text ends, or until a closing bracket where a value should start,
      after which the decoder looks no further. */
  function DecodeArchive(body: string, utc: Clock): Option<seq<Event>>
    decreases |body|
  {
    var t := SkipSpace(body);
    if t == "" || t[0] == ']' || t[0] == '}' then Some([])
    else
      match ParseValue(t, MAX_NESTING)
      case None => None
      case Some(p) =>
        match EventOf(p.value, utc)
        case None => None
        case Some(e) =>
          match DecodeArchive(p.rest, utc)
          case None => None
          case Some(more) => Some([e] + more)
  }

  // ---------------------------------------------------------------------------
  // The round trip
  // ---------------------------------------------------------------------------

  lemma {:induction false} CountOfDigits(s: string)
    requires Decimal.AllDigits(s)
    ensures CountDigits(s) == |s|
    decreases |s|
  {
    if s != "" {
      assert Decimal.IsDigit(s[0]);
      CountOfDigits(s[1..]);
    }
  }

  lemma ShownIsNumber(n: int)
    ensures IsNumber(Shown(n))
  {
    var m: nat := if n < 0 then -n else n;
    var digits, sign := Decimal.Digits(m), if n < 0 then 1 else 0;
    CountOfDigits(digits);
    assert Decimal.IsDigit(digits[0]);
    if m > 0 { Decimal.NoLeadingZero(m); }
    assert Shown(n)[sign..] == digits;
    assert Shown(n)[|Shown(n)|..] == "";
    assert IntegerLength(Shown(n)) == Some(|Shown(n)|);
  }

  lemma ShownParses(n: int)
    requires Int64.Fits(n)
    ensures ParseInteger(Shown(n)) == Some(n)
  {
    var m: nat := if n < 0 then -n else n;
    Decimal.ValueOfDigits(m);
    assert Decimal.IsDigit(Decimal.Digits(m)[0]);
    if n < 0 { assert Shown(n)[1..] == Decimal.Digits(m); }
  }

  /** What the encoder demands of an event it can write and read back. */
  ghost predicate Encodable(e: Event, utc: Clock) {
    && Sound(e) && Int64.Fits(e.sequence)
    && utc(e.occurredAt) == Some(e.occurredAt) && utc(e.producedAt) == Some(e.producedAt)
  }

  lemma ValueWellFormed(e: Event, f: Field)
    requires Sound(e)
    ensures WellFormed(ValueOf(e, f))
  {
    ShownIsNumber(e.sequence);
  }

  /** Every member of the object is some field's value. */
  lemma ShapeOnly(e: Event, k: string) returns (f: Field)
    requires k in Shape(e).fields
    ensures Written(e, f) && Name(f) == k && Shape(e).fields[k] == ValueOf(e, f)
  {
    f := FieldOf(k, WrittenOf(e, ALL_FIELDS)).value;
  }

  lemma ShapeWellFormed(e: Event)
    requires Sound(e)
    ensures WellFormed(Shape(e))
  {
    forall k | k in Shape(e).fields ensures WellFormed(Shape(e).fields[k]) {
      var f := ShapeOnly(e, k);
      ValueWellFormed(e, f);
    }
  }

  /** A map holds exactly the written fields of an event. */
  ghost predicate Shapes(fields: map<string, Json>, e: Event) {
    && (forall f :: Name(f) in fields <==> Written(e, f))
    && (forall f :: Written(e, f) ==> fields[Name(f)] == ValueOf(e, f))
    && (forall k :: k in fields ==> exists f :: Name(f) == k)
  }

  lemma ShapeShapes(e: Event)
    ensures Shapes(Shape(e).fields, e)
  {
    var fields := Shape(e).fields;
    forall f ensures Name(f) in fields <==> Written(e, f) {
      ShapeHas(e, f);
    }
    forall f | Written(e, f) ensures fields[Name(f)] == ValueOf(e, f) {
      ShapeHas(e, f);
    }
    forall k | k in fields ensures exists f :: Name(f) == k {
      var f := ShapeOnly(e, k);
    }
  }

  lemma TextReads(fields: map<string, Json>, e: Event, f: Field, s: string)
    requires Shapes(fields, e) && ValueOf(e, f) == Str(s) && (Written(e, f) || s == "")
    ensures TextField(fields, f) == Some(s)
  {
  }

  lemma TimeReads(fields: map<string, Json>, e: Event, f: Field, s: string, utc: Clock)
    requires Shapes(fields, e) && ValueOf(e, f) == Str(s) && Written(e, f) && utc(s) == Some(s)
    ensures TimeField(fields, f, utc) == Some(s)
  {
  }

  lemma SequenceReads(fields: map<string, Json>, e: Event)
    requires Shapes(fields, e) && Int64.Fits(e.sequence)
    ensures SequenceField(fields) == Some(e.sequence)
  {
    assert Written(e, Sequence) && fields[Name(Sequence)] == Number(Shown(e.sequence));
    ShownParses(e.sequence);
  }

  lemma PayloadReads(fields: map<string, Json>, e: Event)
    requires Shapes(fields, e)
    ensures PayloadField(fields) == Some(e.payload)
  {
    assert Name(Payload) in fields <==> Written(e, Payload);
  }

  lemma DecodeFrom(fields: map<string, Json>, utc: Clock, e: Event)
    requires TextField(fields, SchemaVersion) == Some(e.schemaVersion) && TextField(fields, EventID) == Some(e.eventID)
    requires TextField(fields, EventName) == Some(e.name) && TextField(fields, TenantID) == Some(e.tenantID)
    requires TextField(fields, AggregateID) == Some(e.aggregateID) && TextField(fields, CorrelationID) == Some(e.correlationID)
    requires TextField(fields, CausationID) == Some(e.causationID) && TextField(fields, Producer) == Some(e.producer)
    requires TextField(fields, CorrectsEventID) == Some(e.correctsEventID)
    requires TimeField(fields, OccurredAt, utc) == Some(e.occurredAt) && TimeField(fields, ProducedAt, utc) == Some(e.producedAt)
    requires SequenceField(fields) == Some(e.sequence) && PayloadField(fields) == Some(e.payload)
    ensures DecodeEvent(fields, utc) == Some(e)
  {
  }

  lemma TextsRead(fields: map<string, Json>, e: Event)
    requires Shapes(fields, e)
    ensures TextField(fields, SchemaVersion) == Some(e.schemaVersion) && TextField(fields, EventID) == Some(e.eventID)
    ensures TextField(fields, EventName) == Some(e.name) && TextField(fields, TenantID) == Some(e.tenantID)
    ensures TextField(fields, AggregateID) == Some(e.aggregateID) && TextField(fields, CorrelationID) == Some(e.correlationID)
    ensures TextField(fields, CausationID) == Some(e.causationID) && TextField(fields, Producer) == Some(e.producer)
    ensures TextField(fields, CorrectsEventID) == Some(e.correctsEventID)
  {
    TextReads(fields, e, SchemaVersion, e.schemaVersion);
    TextReads(fields, e, EventID, e.eventID);
    TextReads(fields, e, EventName, e.name);
    TextReads(fields, e, TenantID, e.tenantID);
    TextReads(fields, e, AggregateID, e.aggregateID);
    TextReads(fields, e, CorrelationID, e.correlationID);
    TextReads(fields, e, CausationID, e.causationID);
    TextReads(fields, e, Producer, e.producer);
    TextReads(fields, e, CorrectsEventID, e.correctsEventID);
  }

  lemma DecodeShape(fields: map<string, Json>, e: Event, utc: Clock)
    requires Shapes(fields, e)
    requires Int64.Fits(e.sequence) && utc(e.occurredAt) == Some(e.occurredAt) && utc(e.producedAt) == Some(e.producedAt)
    ensures DecodeEvent(fields, utc) == Some(e)
  {
    TextsRead(fields, e);
    TimeReads(fields, e, OccurredAt, e.occurredAt, utc);
    TimeReads(fields, e, ProducedAt, e.producedAt, utc);
    SequenceReads(fields, e);
    PayloadReads(fields, e);
    DecodeFrom(fields, utc, e);
  }

  /** Exactly the payloads that leave the line within the decoder's bound. */
  lemma ShapeWithinExactly(fields: map<string, Json>, e: Event)
    requires Shapes(fields, e)
    ensures Within(Object(fields), MAX_NESTING) <==> ShallowEvent(e)
  {
    var payload: Json := Object(e.payload);
    assert Written(e, Payload) ==> fields[Name(Payload)] == payload;
    forall k | k in fields && k != Name(Payload) ensures Within(fields[k], MAX_NESTING - 1) {
      var f :| Name(f) == k;
      assert f != Payload && fields[Name(f)] == ValueOf(e, f);
    }
    if !ShallowEvent(e) {
      assert Written(e, Payload) && !Within(fields[Name(Payload)], MAX_NESTING - 1);
    }
  }

  /** A payload that leaves its line within the bound. */
  ghost predicate ShallowEvent(e: Event) {
    e.payload == map[] || Within(Object(e.payload), MAX_NESTING - 1)
  }

  lemma KeysNonempty(e: Event)
    ensures KeysWritten(e) != []
  {
    ShapeHas(e, EventID);
  }

  lemma LineText(members: string, rest: string)
    ensures "{" + members + "}\n" + rest == "{" + (members + "}" + ("\n" + rest))
  {
  }

  /** Reading a written line: the value, then the rest of the archive. It fails exactly when
      the payload nests as deep as the decoder's bound, since the line adds a level. */
  lemma LineReads(e: Event, rest: string)
    requires Sound(e)
    ensures var text := Line(e) + rest;
      && SkipSpace(text) == text && text[0] == '{'
      && ParseValue(text, MAX_NESTING) == Reading(Shape(e), "\n" + rest, MAX_NESTING)
  {
    KeysNonempty(e);
    LineText(MembersText(Shape(e), KeysWritten(e)), rest);
    ShapeWellFormed(e);
    UnsortedReads(Shape(e), KeysWritten(e), "\n" + rest, MAX_NESTING, Line(e) + rest);
  }

  ghost predicate AllEncodable(events: seq<Event>, utc: Clock) {
    forall i :: 0 <= i < |events| ==> Encodable(events[i], utc)
  }

  ghost predicate Shallow(events: seq<Event>) {
    forall i :: 0 <= i < |events| ==> ShallowEvent(events[i])
  }

  /** One line at the head of an archive. */
  lemma LineDecodes(text: string, v: Json, e: Event, rest: string, utc: Clock)
    requires text != "" && SkipSpace(text) == text && text[0] == '{' && v.Object?
    requires ParseValue(text, MAX_NESTING) == if ShallowEvent(e) then Some(Parsed(v, "\n" + rest)) else None
    requires DecodeEvent(v.fields, utc) == Some(e)
    ensures DecodeArchive(text, utc) ==
      if !ShallowEvent(e) || DecodeArchive(rest, utc).None? then None else Some([e] + DecodeArchive(rest, utc).value)
  {
    NewlineSkipped(rest, utc);
  }

  lemma NewlineSkipped(rest: string, utc: Clock)
    ensures DecodeArchive("\n" + rest, utc) == DecodeArchive(rest, utc)
  {
    assert ("\n" + rest)[1..] == rest;
  }

  /** One event at the head of a list. */
  lemma EventReads(e: Event, rest: string, utc: Clock)
    requires Encodable(e, utc)
    ensures DecodeArchive(Line(e) + rest, utc) ==
      if !ShallowEvent(e) || DecodeArchive(rest, utc).None? then None else Some([e] + DecodeArchive(rest, utc).value)
  {
    LineReads(e, rest);
    ShapeShapes(e);
    ShapeWithinExactly(Shape(e).fields, e);
    DecodeShape(Shape(e).fields, e, utc);
    LineDecodes(Line(e) + rest, Shape(e), e, rest, utc);
  }

  lemma ShallowSplit(events: seq<Event>)
    requires events != []
    ensures Shallow(events) <==> ShallowEvent(events[0]) && Shallow(events[1..])
  {
    assert events == [events[0]] + events[1..];
  }

  /** What an archive of these events decodes to. */
  ghost function Readback(events: seq<Event>): Option<seq<Event>> {
    if Shallow(events) then Some(events) else None
  }

  lemma EventsRead(events: seq<Event>, rest: string, utc: Clock)
    requires events != [] && Encodable(events[0], utc)
    requires DecodeArchive(rest, utc) == Readback(events[1..])
    ensures DecodeArchive(Line(events[0]) + rest, utc) == Readback(events)
  {
    EventReads(events[0], rest, utc);
    ShallowSplit(events);
    assert events == [events[0]] + events[1..];
  }

  /** An untouched archive reads back exactly when its payloads nest one level less than the
      decoder allows; otherwise it does not read at all. */
  lemma {:induction false} ArchiveReads(events: seq<Event>, utc: Clock)
    requires AllEncodable(events, utc)
    ensures DecodeArchive(EncodeArchive(events), utc) == Readback(events)
    decreases |events|
  {
    if events != [] {
      ArchiveReads(events[1..], utc);
      EventsRead(events, EncodeArchive(events[1..]), utc);
    }
  }
}
