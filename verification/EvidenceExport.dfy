/** Export and restore (internal/retention/export.go, retention.go): the hashing loops, the
    archive's two directions, and what a manifest lets through. */
module EvidenceExport {
  import opened Wrappers
  import opened Utf8
  import opened Json
  import opened JsonReader
  import opened CanonicalJson
  import opened CanonicalWriter
  import opened EvidenceChain
  import opened EvidenceArchive

  datatype Manifest = Manifest(
    tenantID: string,
    manifestID: string,
    partition: string,
    periodStart: int,
    periodEnd: int,
    eventCount: nat,
    chainHead: string,
    destination: string,
    exportedBy: string,
    exportedAt: int)

  datatype Restored = Restored(events: seq<Event>) | Unreadable | Tampered | Truncated

  datatype Exported = Exported(manifest: Manifest) | SourceFailed | EmptyPeriod | Unhashable | UploadFailed | ManifestFailed

  function ObjectKey(tenantID: string, partition: string): string {
    "evidence/" + tenantID + "/" + partition + ".jsonl"
  }

  // ---------------------------------------------------------------------------
  // Hashing
  // ---------------------------------------------------------------------------

  /** The hash of one event, field by field. */
  method HashContent(h: Hash, e: Event) returns (content: Option<string>)
    ensures content == ContentHash(h, e)
  {
    var payload := "{}";
    if e.payload != map[] {
      var out := new Buffer();
      Write(out, Object(e.payload));
      assert out.text == Text(Object(e.payload));
      var canonical := Canonicalize(out.text);
      if canonical.None? { return None; }
      payload := canonical.value;
    }
    var fields :=
      [Encode(e.schemaVersion), Encode(e.eventID), Encode(e.name), Encode(e.tenantID), Encode(e.aggregateID),
       Encode(e.correlationID), Encode(e.causationID), Encode(e.producer), Encode(e.correctsEventID),
       Encode(e.occurredAt), Encode(e.producedAt), Encode(Shown(e.sequence)), Encode(payload)];
    assert fields == Fields(e, payload);
    var bytes := PrefixEach(fields);
    return Some(Hex(h(bytes)));
  }

  method PrefixEach(fields: seq<Bytes>) returns (bytes: Bytes)
    ensures bytes == PrefixedAll(fields)
  {
    bytes := [];
    for i := 0 to |fields|
      invariant bytes + PrefixedAll(fields[i..]) == PrefixedAll(fields)
    {
      assert fields[i..][0] == fields[i] && fields[i..][1..] == fields[i + 1..];
      bytes := bytes + Prefixed(fields[i]);
    }
  }

  method Chained(h: Hash, previous: string, e: Event) returns (head: Option<string>)
    ensures head == ChainHash(h, previous, e)
  {
    var content := HashContent(h, e);
    if content.None? { return None; }
    return Some(Hex(h(LinkBytes(previous, content.value))));
  }

  lemma StopsHere(h: Hash, events: seq<Event>, i: nat)
    requires i < |events| && ChainOver(h, events[..i]).Some?
    requires ChainHash(h, ChainOver(h, events[..i]).value, events[i]).None?
    ensures ChainOver(h, events).None? && ContentBytes(events[i]).None?
  {
    ChainSome(h, events);
  }

  /** Folds the events into one head, or says at which event that failed. */
  method ChainAll(h: Hash, events: seq<Event>) returns (head: Option<string>, stopped: nat)
    ensures head == ChainOver(h, events)
    ensures stopped <= |events| && ChainOver(h, events[..stopped]).Some?
    ensures head.Some? <==> stopped == |events|
    ensures head.None? ==> ContentBytes(events[stopped]).None?
  {
    var sofar := "";
    for i := 0 to |events|
      invariant ChainOver(h, events[..i]) == Some(sofar)
    {
      ChainNext(h, events, i);
      var next := Chained(h, sofar, events[i]);
      if next.None? {
        StopsHere(h, events, i);
        return None, i;
      }
      sofar := next.value;
    }
    assert events[..|events|] == events;
    return Some(sofar), |events|;
  }

  /** Where a chain stopped matching: None when it matches. The only places it can name are
      an event that cannot be hashed and the end; an edited event is not located. */
  method Verify(h: Hash, events: seq<Event>, expected: string) returns (stopped: Option<nat>)
    ensures stopped.None? <==> ChainOver(h, events) == Some(expected)
    ensures stopped.Some? ==> stopped.value == |events| || (stopped.value < |events| && ContentBytes(events[stopped.value]).None?)
    ensures stopped == Some(|events|) <==> ChainOver(h, events).Some? && ChainOver(h, events) != Some(expected)
  {
    var head, at := ChainAll(h, events);
    if head.None? { return Some(at); }
    return if head.value == expected then None else Some(|events|);
  }

  // ---------------------------------------------------------------------------
  // The archive's two directions
  // ---------------------------------------------------------------------------

  lemma {:induction false} ArchiveConcat(events: seq<Event>, i: nat)
    requires i < |events|
    ensures EncodeArchive(events[..i + 1]) == EncodeArchive(events[..i]) + Line(events[i])
    decreases i
  {
    if i == 0 {
      assert events[..1] == [events[0]] && events[..1][1..] == [] && events[..0] == [];
    } else {
      ArchiveConcat(events[1..], i - 1);
      assert events[..i + 1][1..] == events[1..][..i] && events[..i][1..] == events[1..][..i - 1];
    }
  }

  method WriteArchive(events: seq<Event>) returns (body: string)
    ensures body == EncodeArchive(events)
  {
    var out := new Buffer();
    for i := 0 to |events|
      invariant out.text == EncodeArchive(events[..i])
    {
      ArchiveConcat(events, i);
      WriteLine(out, events[i]);
    }
    assert events[..|events|] == events;
    return out.text;
  }

  method WriteLine(out: Buffer, e: Event)
    modifies out
    ensures out.text == old(out.text) + Line(e)
  {
    WriteObjectLine(out, Shape(e), KeysWritten(e));
  }

  method WriteObjectLine(out: Buffer, v: Json, keys: seq<string>)
    requires v.Object? && forall k :: k in keys ==> k in v.fields
    modifies out
    ensures out.text == old(out.text) + ("{" + MembersText(v, keys) + "}\n")
  {
    out.WriteString("{");
    WriteMembers(out, v, keys);
    out.WriteString("}\n");
  }

  /** Events decoded so far, then the rest of the text. */
  function Continue(done: seq<Event>, rest: Option<seq<Event>>): Option<seq<Event>> {
    if rest.None? then None else Some(done + rest.value)
  }

  method ReadArchive(body: string, utc: Clock) returns (events: Option<seq<Event>>)
    ensures events == DecodeArchive(body, utc)
  {
    var text, done := SkipSpace(body), [];
    SkipsSame(body, utc);
    ContinueFromNothing(DecodeArchive(text, utc));
    while text != "" && text[0] != ']' && text[0] != '}'
      invariant SkipSpace(text) == text
      invariant DecodeArchive(body, utc) == Continue(done, DecodeArchive(text, utc))
      decreases |text|
    {
      var next := ReadOne(text, utc, done);
      if next.None? { return None; }
      done, text := done + [next.value.value], next.value.rest;
    }
    assert DecodeArchive(text, utc) == Some([]) && done + [] == done;
    return Some(done);
  }

  method ReadOne(text: string, utc: Clock, ghost done: seq<Event>) returns (next: Option<Parsed<Event>>)
    requires text != "" && SkipSpace(text) == text && text[0] != ']' && text[0] != '}'
    ensures next.None? ==> DecodeArchive(text, utc).None?
    ensures next.Some? ==>
      && |next.value.rest| < |text| && SkipSpace(next.value.rest) == next.value.rest
      && Continue(done, DecodeArchive(text, utc)) == Continue(done + [next.value.value], DecodeArchive(next.value.rest, utc))
  {
    var p := ParseValue(text, MAX_NESTING);
    if p.None? { return None; }
    var e := EventOf(p.value.value, utc);
    if e.None? { return None; }
    DecodeNext(text, utc, p.value, e.value, done);
    return Some(Parsed(e.value, SkipSpace(p.value.rest)));
  }

  lemma ContinueFromNothing(rest: Option<seq<Event>>)
    ensures Continue([], rest) == rest
  {
    if rest.Some? { assert [] + rest.value == rest.value; }
  }

  lemma {:induction false} SkipTwice(text: string)
    ensures SkipSpace(SkipSpace(text)) == SkipSpace(text)
    decreases |text|
  {
    if text != "" && IsSpace(text[0]) { SkipTwice(text[1..]); }
  }

  lemma SkipsSame(text: string, utc: Clock)
    ensures SkipSpace(SkipSpace(text)) == SkipSpace(text)
    ensures DecodeArchive(text, utc) == DecodeArchive(SkipSpace(text), utc)
  {
    SkipTwice(text);
  }

  /** The archive's first event, and the rest. */
  lemma DecodeFirst(text: string, utc: Clock, p: Parsed<Json>, e: Event)
    requires text != "" && SkipSpace(text) == text && text[0] != ']' && text[0] != '}'
    requires ParseValue(text, MAX_NESTING) == Some(p) && EventOf(p.value, utc) == Some(e)
    ensures DecodeArchive(text, utc) == Continue([e], DecodeArchive(p.rest, utc))
  {
  }

  lemma ContinueTwice(done: seq<Event>, e: Event, rest: Option<seq<Event>>)
    ensures Continue(done, Continue([e], rest)) == Continue(done + [e], rest)
  {
    if rest.Some? { assert done + ([e] + rest.value) == done + [e] + rest.value; }
  }

  lemma DecodeNext(text: string, utc: Clock, p: Parsed<Json>, e: Event, done: seq<Event>)
    requires text != "" && SkipSpace(text) == text && text[0] != ']' && text[0] != '}'
    requires ParseValue(text, MAX_NESTING) == Some(p) && EventOf(p.value, utc) == Some(e)
    ensures SkipSpace(SkipSpace(p.rest)) == SkipSpace(p.rest)
    ensures Continue(done, DecodeArchive(text, utc)) == Continue(done + [e], DecodeArchive(SkipSpace(p.rest), utc))
  {
    SkipsSame(p.rest, utc);
    DecodeFirst(text, utc, p, e);
    ContinueTwice(done, e, DecodeArchive(p.rest, utc));
  }

  // ---------------------------------------------------------------------------
  // The exporter
  // ---------------------------------------------------------------------------

  /** What Restore answers for what the object store holds. */
  ghost function RestoreOf(h: Hash, utc: Clock, body: Option<string>, m: Manifest): Restored {
    if body.None? then Unreadable
    else
      match DecodeArchive(body.value, utc)
      case None => Tampered
      case Some(events) =>
        if |events| < m.eventCount then Truncated
        else if |events| > m.eventCount then Tampered
        else if ChainOver(h, events) != Some(m.chainHead) then Tampered
        else Restored(events)
  }

  class Exporter {
    /** The object store. */
    var objects: map<string, string>
    /** The manifests recorded so far. */
    var manifests: seq<Manifest>

    constructor ()
      ensures objects == map[] && manifests == []
    {
      objects, manifests := map[], [];
    }

    method Prepare(h: Hash, events: seq<Event>) returns (body: string, head: Option<string>)
      ensures body == EncodeArchive(events) && head == ChainOver(h, events)
    {
      body := WriteArchive(events);
      var stopped: nat;
      head, stopped := ChainAll(h, events);
    }

    /** Reads, hashes, uploads, and only then records the manifest. `period` is what the
        event source answers; `putUp` and `saveUp` whether the two stores do. */
    method Export(h: Hash, tenantID: string, partition: string, from: int, to: int, exportedBy: string, at: int,
                  period: Option<seq<Event>>, putUp: bool, saveUp: bool) returns (r: Exported)
      modifies this
      ensures period.None? <==> r == SourceFailed
      ensures period == Some([]) <==> r == EmptyPeriod
      ensures r.SourceFailed? || r.EmptyPeriod? || r.Unhashable? || r.UploadFailed? ==> objects == old(objects)
      ensures !r.Exported? ==> manifests == old(manifests)
      ensures r.Exported? || r.ManifestFailed? ==>
        objects == old(objects)[ObjectKey(tenantID, partition) := EncodeArchive(period.value)]
      ensures r.Exported? ==> var m := r.manifest;
        && manifests == old(manifests) + [m]
        && m.tenantID == tenantID && m.partition == partition && m.destination == ObjectKey(tenantID, partition)
        && m.eventCount == |period.value| > 0 && ChainOver(h, period.value) == Some(m.chainHead)
      ensures r.Unhashable? <==> period.Some? && period.value != [] && ChainOver(h, period.value).None?
      ensures period.Some? && period.value != [] && ChainOver(h, period.value).Some? && putUp && saveUp ==> r.Exported?
    {
      if period.None? { return SourceFailed; }
      var events := period.value;
      if events == [] { return EmptyPeriod; }
      var body, head := Prepare(h, events);
      if head.None? { return Unhashable; }
      r := Record(tenantID, partition, from, to, exportedBy, at, |events|, body, head.value, putUp, saveUp);
    }

    /** Uploads the body and then records its manifest. */
    method Record(tenantID: string, partition: string, from: int, to: int, exportedBy: string, at: int,
                  count: nat, body: string, head: string, putUp: bool, saveUp: bool) returns (r: Exported)
      modifies this
      ensures r.Exported? <==> putUp && saveUp
      ensures r.UploadFailed? <==> !putUp
      ensures r.ManifestFailed? <==> putUp && !saveUp
      ensures objects == if putUp then old(objects)[ObjectKey(tenantID, partition) := body] else old(objects)
      ensures manifests == if r.Exported? then old(manifests) + [r.manifest] else old(manifests)
      ensures r.Exported? ==>
        r.manifest == Manifest(tenantID, "man_" + tenantID + "_" + partition, partition, from, to, count, head,
                               ObjectKey(tenantID, partition), exportedBy, at)
    {
      if !putUp { return UploadFailed; }
      var key := ObjectKey(tenantID, partition);
      objects := objects[key := body];
      if !saveUp { return ManifestFailed; }
      var m := Manifest(tenantID, "man_" + tenantID + "_" + partition, partition, from, to, count, head, key, exportedBy, at);
      manifests := manifests + [m];
      return Exported(m);
    }

    /** Returns events only when everything checks. */
    method Restore(h: Hash, utc: Clock, m: Manifest, up: bool) returns (r: Restored)
      ensures r == RestoreOf(h, utc, if up && m.destination in objects then Some(objects[m.destination]) else None, m)
    {
      if !up || m.destination !in objects { return Unreadable; }
      var events := ReadArchive(objects[m.destination], utc);
      if events.None? { return Tampered; }
      if |events.value| < m.eventCount { return Truncated; }
      if |events.value| > m.eventCount { return Tampered; }
      var stopped := Verify(h, events.value, m.chainHead);
      if stopped.Some? { return Tampered; }
      return Restored(events.value);
    }
  }

  // ---------------------------------------------------------------------------
  // What a manifest lets through
  // ---------------------------------------------------------------------------

  /** The manifest is of exactly these events. */
  ghost predicate Describes(h: Hash, m: Manifest, events: seq<Event>) {
    m.eventCount == |events| && ChainOver(h, events) == Some(m.chainHead)
  }

  /** An untouched archive restores to the exported events, exactly when no payload nests
      as deep as the decoder's bound; a deeper one exports and can never be restored. */
  lemma RestoreUntouched(h: Hash, utc: Clock, m: Manifest, events: seq<Event>)
    requires AllEncodable(events, utc) && Describes(h, m, events)
    ensures RestoreOf(h, utc, Some(EncodeArchive(events)), m) == if Shallow(events) then Restored(events) else Tampered
  {
    ArchiveReads(events, utc);
  }

  lemma DecodedSound(v: Json, utc: Clock)
    requires WellFormed(v) && EventOf(v, utc).Some?
    ensures Sound(EventOf(v, utc).value)
  {
    var fields := if v.Object? then v.fields else map[];
    assert PayloadField(fields).Some? && EventOf(v, utc).value.payload == PayloadField(fields).value;
  }

  lemma {:induction false} ArchiveSound(body: string, utc: Clock)
    requires DecodeArchive(body, utc).Some?
    ensures AllSound(DecodeArchive(body, utc).value)
    decreases |body|
  {
    var t := SkipSpace(body);
    if t != "" && t[0] != ']' && t[0] != '}' {
      var p := ParseValue(t, MAX_NESTING).value;
      ParsedValue(t, MAX_NESTING);
      DecodedSound(p.value, utc);
      ArchiveSound(p.rest, utc);
    }
  }

  /** Whatever the object store holds, Restore returns the exported events or nothing, unless
      a hash collision is in hand. */
  lemma RestoreAcceptsOnlyTheExported(h: Hash, utc: Clock, m: Manifest, exported: seq<Event>, body: Option<string>)
    requires AllSound(exported) && Describes(h, m, exported)
    requires RestoreOf(h, utc, body, m).Restored?
    ensures var events := RestoreOf(h, utc, body, m).events;
      && ChainOver(h, events) == ChainOver(h, exported)
      && match Suspect(h, events, exported)
         case Some(pair) => Collides(h, pair)
         case None => events == exported
  {
    var events := RestoreOf(h, utc, body, m).events;
    ArchiveSound(body.value, utc);
    TamperEvident(h, events, exported);
  }
}
