/** How deep a payload may nest: one level more can be exported than can be restored
    (internal/retention/export.go, retention.go). */
module EvidenceDepth {
  import opened Wrappers
  import opened Json
  import opened JsonReader
  import opened CanonicalJson
  import opened EvidenceChain
  import opened EvidenceArchive
  import opened EvidenceExport

  /** Objects within objects. */
  function Nest(depth: nat): Json {
    if depth == 0 then Json.Null else Object(Level(depth))
  }

  function Level(depth: nat): map<string, Json>
    requires depth > 0
    decreases depth, 0
  {
    map["a" := Nest(depth - 1)]
  }

  /** Nesting counts the levels, and is exactly what the bound bounds. */
  lemma {:induction false} NestWithin(depth: nat, bound: int)
    ensures Within(Nest(depth), bound) <==> depth <= bound
    ensures WellFormed(Nest(depth))
    decreases depth
  {
    if depth > 0 {
      NestWithin(depth - 1, bound - 1);
      var v: Json := Nest(depth);
      assert v.fields == Level(depth) && "a" in v.fields && v.fields["a"] == Nest(depth - 1);
    }
  }

  /** An event whose payload nests to a depth. */
  function Deep(at: string, depth: nat): Event
    requires depth > 0
  {
    Event("1", "id", "name", "tenant", "aggregate", "", "", "producer", "", at, at, 0, Level(depth))
  }

  lemma DeepIs(at: string, depth: nat, utc: Clock)
    requires depth > 0 && utc(at) == Some(at)
    ensures Encodable(Deep(at, depth), utc)
    ensures ContentBytes(Deep(at, depth)).Some? <==> depth <= MAX_NESTING
    ensures ShallowEvent(Deep(at, depth)) <==> depth < MAX_NESTING
  {
    var e := Deep(at, depth);
    assert Object(e.payload) == Nest(depth) && "a" in e.payload;
    NestWithin(depth, MAX_NESTING);
    NestWithin(depth, MAX_NESTING - 1);
    PayloadTextIs(e.payload);
  }

  lemma DeepChains(h: Hash, utc: Clock, at: string, depth: nat)
    requires depth > 0 && utc(at) == Some(at)
    ensures ChainOver(h, [Deep(at, depth)]).Some? <==> depth <= MAX_NESTING
  {
    var events := [Deep(at, depth)];
    DeepIs(at, depth, utc);
    ChainSome(h, events);
    assert events[0] == Deep(at, depth);
  }

  lemma OneRestores(h: Hash, utc: Clock, m: Manifest, e: Event)
    requires Encodable(e, utc) && Describes(h, m, [e])
    ensures RestoreOf(h, utc, Some(EncodeArchive([e])), m) == if ShallowEvent(e) then Restored([e]) else Tampered
  {
    RestoreUntouched(h, utc, m, [e]);
    assert Shallow([e]) <==> ShallowEvent([e][0]);
  }

  lemma DeepRestores(h: Hash, utc: Clock, at: string, depth: nat, m: Manifest)
    requires depth > 0 && utc(at) == Some(at) && Describes(h, m, [Deep(at, depth)])
    ensures RestoreOf(h, utc, Some(EncodeArchive([Deep(at, depth)])), m) == if depth < MAX_NESTING then Restored([Deep(at, depth)]) else Tampered
  {
    DeepIs(at, depth, utc);
    OneRestores(h, utc, m, Deep(at, depth));
  }

  /** Exporting one such event and restoring what was written: refused beyond the bound,
      restored below it, and at the bound itself exported, with a manifest, and unreadable
      from then on. */
  method ExportAndRestore(h: Hash, utc: Clock, at: string, depth: nat) returns (exported: Exported, restored: Restored)
    requires depth > 0 && utc(at) == Some(at)
    ensures exported.Exported? <==> depth <= MAX_NESTING
    ensures depth < MAX_NESTING ==> restored == Restored([Deep(at, depth)])
    ensures depth == MAX_NESTING ==> restored == Tampered
    ensures depth > MAX_NESTING ==> exported == Unhashable
  {
    var events := [Deep(at, depth)];
    DeepChains(h, utc, at, depth);
    var exporter := new Exporter();
    exported := exporter.Export(h, "tenant", "p", 0, 1, "operator", 2, Some(events), true, true);
    if !exported.Exported? { return exported, Unreadable; }
    restored := exporter.Restore(h, utc, exported.manifest, true);
    DeepRestores(h, utc, at, depth, exported.manifest);
  }
}
