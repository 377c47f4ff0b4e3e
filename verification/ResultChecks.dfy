/** What decoding demands of a search result without provenance (legal_rag/evaluation_artifacts.py, search_result_from_artifact). */
module ResultChecks {
  import opened Common
  import opened Json
  import opened Turns
  import opened Codecs
  import opened LegacyShapes
  import opened ArtifactChain
  import opened LegacyHashes
  import opened LegacyTwins

  function FieldNamed(s: string): Key { Custom(Encode(s)) }

  const CHUNK_ID := FieldNamed("chunk_id")
  const CHUNK_TEXT := FieldNamed("text")
  const LAW_NAMES := FieldNamed("law_names")
  const ARTICLE_NUMBERS := FieldNamed("article_numbers")
  const SOURCE_FILES := FieldNamed("source_files")
  const LINE_NOS := FieldNamed("line_nos")
  const STRATEGY := FieldNamed("strategy")
  const METADATA := FieldNamed("metadata")

  const CHUNK_FIELDS: set<Key> := {CHUNK_ID, CHUNK_TEXT, LAW_NAMES, ARTICLE_NUMBERS, SOURCE_FILES, LINE_NOS, STRATEGY, METADATA}

  const BOUNDARY_FINGERPRINT := FieldNamed("boundary_fingerprint")
  const ACCESS_SCOPE_IDS := FieldNamed("access_scope_ids")
  const ARTICLE_REFS := FieldNamed("article_refs")

  predicate NonBlankText(j: Json) {
    j.JString? && !Blank(j.text)
  }

  predicate TextList(j: Json) {
    j.JArray? && forall i | 0 <= i < |j.items| :: j.items[i].JString?
  }

  predicate PositiveList(j: Json) {
    j.JArray? && forall i | 0 <= i < |j.items| :: j.items[i].JInt? && j.items[i].i >= 1
  }

  /** The types of the fields of a chunk besides its metadata. */
  predicate ChunkTyped(f: Fields)
    requires f.Keys == CHUNK_FIELDS
  {
    && NonBlankText(f[CHUNK_ID]) && f[CHUNK_TEXT].JString? && NonBlankText(f[STRATEGY])
    && TextList(f[LAW_NAMES]) && TextList(f[ARTICLE_NUMBERS]) && TextList(f[SOURCE_FILES]) && PositiveList(f[LINE_NOS])
  }

  predicate FiltersMarked(filters: Json) {
    filters.JObject? && (ProfileId in filters.fields || {ScopeId, SnapshotId} <= filters.fields.Keys)
  }

  /** has_boundary_marker */
  predicate Marked(metadata: Fields, trace: Fields) {
    || BOUNDARY_FINGERPRINT in metadata || BOUNDARY_FINGERPRINT in trace || ProfileId in metadata || ARTICLE_REFS in metadata
    || {ScopeId, SnapshotId, ACCESS_SCOPE_IDS} <= metadata.Keys
    || (FiltersField in trace && FiltersMarked(trace[FiltersField]))
  }

  predicate UnboundResult(chunk: Json, trace: Fields) {
    && chunk.JObject? && chunk.fields.Keys == CHUNK_FIELDS && ChunkTyped(chunk.fields)
    && chunk.fields[METADATA].JObject? && !Marked(chunk.fields[METADATA].fields, trace)
  }

  lemma ListsArePlain(j: Json)
    requires TextList(j) || PositiveList(j)
    ensures !HasEnvelope(j)
  {
  }

  lemma LeafIsPlain(j: Json)
    requires j.JString?
    ensures !HasEnvelope(j)
  {
  }

  lemma KeysStripAlike(f: Fields, g: Fields)
    requires Strip(JObject(f), false) == Strip(JObject(g), false)
    ensures f.Keys == g.Keys
    ensures f.Keys != {ArtifactSchemaVersion, SearchResultField} ==> forall k | k in f :: Strip(f[k], false) == Strip(g[k], false)
  {
    hide Strip;
    StripOfObject(f);
    StripOfObject(g);
  }

  lemma ChunkIsNoEnvelope()
    ensures CHUNK_FIELDS != {ArtifactSchemaVersion, SearchResultField}
  {
    assert METADATA in CHUNK_FIELDS;
  }

  /** The typed fields of a chunk are what stripping shows. */
  lemma TypedAlike(f: Fields, g: Fields)
    requires f.Keys == CHUNK_FIELDS && ChunkTyped(f) && Strip(JObject(f), false) == Strip(JObject(g), false)
    ensures g.Keys == CHUNK_FIELDS && ChunkTyped(g) && g[CHUNK_TEXT] == f[CHUNK_TEXT]
  {
    hide Strip, HasEnvelope, TextList, PositiveList, Blank, Encode;
    KeysStripAlike(f, g);
    ChunkIsNoEnvelope();
    forall k | k in CHUNK_FIELDS && k != METADATA ensures g[k] == f[k] {
      if f[k].JString? { LeafIsPlain(f[k]); } else { ListsArePlain(f[k]); }
      StripIsInjective(f[k], g[k]);
    }
    KeysDiffer();
  }

  lemma KeysDiffer()
    ensures METADATA !in {CHUNK_ID, CHUNK_TEXT, LAW_NAMES, ARTICLE_NUMBERS, SOURCE_FILES, LINE_NOS, STRATEGY}
  {
    assert METADATA.name[0] == 'm' as int;
    assert CHUNK_ID.name[0] == 'c' as int && CHUNK_TEXT.name[0] == 't' as int && LAW_NAMES.name[1] == 'a' as int && METADATA.name[1] == 'e' as int;
    assert ARTICLE_NUMBERS.name[0] == 'a' as int && SOURCE_FILES.name[0] == 's' as int && LINE_NOS.name[0] == 'l' as int && STRATEGY.name[0] == 's' as int;
    assert LAW_NAMES.name[0] == 'l' as int;
  }

  lemma FiltersAlike(a: Json, b: Json)
    requires Strip(a, false) == Strip(b, false)
    ensures FiltersMarked(a) == FiltersMarked(b)
  {
    hide Strip;
    StripStaysObject(a, false);
    StripStaysObject(b, false);
    if a.JObject? { KeysStripAlike(a.fields, b.fields); }
  }

  /** The markers are what stripping shows. */
  lemma MarkersAlike(m: Fields, n: Fields, f: Fields, g: Fields)
    requires m.Keys == n.Keys && Strip(JObject(f), false) == Strip(JObject(g), false)
    ensures Marked(m, f) == Marked(n, g)
  {
    hide Strip, FiltersMarked, Encode;
    KeysStripAlike(f, g);
    if FiltersField in f {
      assert FiltersField in f.Keys;
      FiltersAlike(f[FiltersField], g[FiltersField]);
    }
  }

  lemma MetadataAlike(f: Fields, g: Fields)
    requires f.Keys == CHUNK_FIELDS && g.Keys == CHUNK_FIELDS && Strip(JObject(f), false) == Strip(JObject(g), false)
    ensures f[METADATA].JObject? == g[METADATA].JObject?
    ensures f[METADATA].JObject? ==> f[METADATA].fields.Keys == g[METADATA].fields.Keys
  {
    hide Strip, Encode;
    KeysStripAlike(f, g);
    ChunkIsNoEnvelope();
    StripStaysObject(f[METADATA], false);
    StripStaysObject(g[METADATA], false);
    if f[METADATA].JObject? { KeysStripAlike(f[METADATA].fields, g[METADATA].fields); }
  }

  lemma UnboundAlike(a: Json, b: Json, f: Fields, g: Fields)
    requires UnboundResult(a, f) && Strip(a, false) == Strip(b, false) && Strip(JObject(f), false) == Strip(JObject(g), false)
    ensures UnboundResult(b, g) && b.fields[CHUNK_TEXT] == a.fields[CHUNK_TEXT]
  {
    hide Strip, ChunkTyped, Marked, Encode;
    StripStaysObject(a, false);
    StripStaysObject(b, false);
    TypedAlike(a.fields, b.fields);
    MetadataAlike(a.fields, b.fields);
    MarkersAlike(a.fields[METADATA].fields, b.fields[METADATA].fields, f, g);
  }

  ghost predicate ChecksUnbound(check: ResultCheck) {
    forall x: SearchResult | x.provenance.None? :: check(x) <==> UnboundResult(x.chunk, x.trace)
  }

  /** Main theorem: a check that does this with results without provenance sees nothing there that stripping
      removes, whatever it does with the others. */
  lemma UnboundCheckSeesNoProvenance(check: ResultCheck)
    requires ChecksUnbound(check)
    ensures SeesNoProvenance(check)
  {
    hide Strip, UnboundResult;
    forall x: SearchResult, y: SearchResult | x.provenance.None? && y == x.(chunk := y.chunk, trace := y.trace) &&
      Strip(y.chunk, false) == Strip(x.chunk, false) && Strip(JObject(y.trace), false) == Strip(JObject(x.trace), false)
      ensures check(y) == check(x)
    {
      if UnboundResult(x.chunk, x.trace) { UnboundAlike(x.chunk, y.chunk, x.trace, y.trace); }
      if UnboundResult(y.chunk, y.trace) { UnboundAlike(y.chunk, x.chunk, y.trace, x.trace); }
    }
  }

  // ----- retrieval-only answers -----

  /** The text of a retrieval-only answer shows of its results the ranks and the chunk texts. */
  ghost predicate ShowsTexts(kit: Toolkit) {
    forall xs: seq<SearchResult>, ys: seq<SearchResult> | |xs| == |ys| && (forall i | 0 <= i < |xs| :: SameShown(xs[i], ys[i])) ::
      kit.retrievalOnlyText(xs) == kit.retrievalOnlyText(ys)
  }

  predicate SameShown(x: SearchResult, y: SearchResult) {
    && x.rank == y.rank && x.chunk.JObject? && y.chunk.JObject? && CHUNK_TEXT in x.chunk.fields && CHUNK_TEXT in y.chunk.fields
    && x.chunk.fields[CHUNK_TEXT] == y.chunk.fields[CHUNK_TEXT]
  }

  lemma TwinShowsTheSame(t: Tools, r: Retrieved)
    requires ShowsTexts(t.kit) && ChecksUnbound(t.check) && Known(t, r)
    ensures t.kit.retrievalOnlyText(Twin(r).results) == t.kit.retrievalOnlyText(r.results)
  {
    hide ShowsTexts, ChecksUnbound, Known;
    assert NoProvenance(r.results) && ValidResults(t.check, r.results) by { KnownResults(t, r); }
    forall i | 0 <= i < |r.results| ensures SameShown(Twin(r).results[i], r.results[i]) {
      assert r.results[i] in r.results;
      assert ValidResult(t.check, r.results[i]);
      TwinTextStays(t.check, r.results[i]);
    }
    hide SameShown, Twin;
    SameTexts(t.kit, Twin(r).results, r.results);
  }

  lemma SameTexts(kit: Toolkit, xs: seq<SearchResult>, ys: seq<SearchResult>)
    requires ShowsTexts(kit) && |xs| == |ys| && forall i | 0 <= i < |xs| :: SameShown(xs[i], ys[i])
    ensures kit.retrievalOnlyText(xs) == kit.retrievalOnlyText(ys)
  {
    hide SameShown;
  }

  lemma KnownResults(t: Tools, r: Retrieved)
    requires Known(t, r)
    ensures NoProvenance(r.results) && ValidResults(t.check, r.results)
  {
    hide ValidResults, RetrievedAccepted, EncodePrepared, EncodeRetrieved;
    RetrievedChecked(t, r);
  }

  lemma TwinTextStays(check: ResultCheck, x: SearchResult)
    requires ChecksUnbound(check) && ValidResult(check, x) && x.provenance.None?
    ensures SameShown(FlipResult(x), x)
  {
    hide Strip, Flip, FlipFields, Encode, ChunkTyped, Marked;
    FlipStripsAlike(x.chunk, false);
    FlipFieldsStripAlike(x.trace, false);
    UnboundAlike(x.chunk, FlipResult(x).chunk, x.trace, FlipResult(x).trace);
    assert CHUNK_TEXT in CHUNK_FIELDS;
  }

  // ----- the theorems on older hashes, for these checks -----

  /** Main theorem: under the checks of the decoder, the oldest hash of an unbound turn is shared by a turn with
      another artifact exactly when an envelope hides in it. */
  lemma OldestHashIsSharedIffHidden(t: Tools, r: Retrieved)
    requires ChecksUnbound(t.check) && Known(t, r) && PlainReports(r)
    ensures SharesOldestHash(t, r) <==> HidesEnvelope(r)
  {
    hide ChecksUnbound, Known, PlainReports, HidesEnvelope, SharesOldestHash, SeesNoProvenance;
    UnboundCheckSeesNoProvenance(t.check);
    OldestHashIsSharedIffEnvelopeHidden(t, r);
  }

  /** Main theorem: a generated artifact of any kind that carries the oldest hash of a turn with a hidden envelope
      is accepted beside two turns with different artifacts. */
  lemma HiddenEnvelopesConfuse(t: Tools, g: Generated, j: Json)
    requires ChecksUnbound(t.check) && ShowsTexts(t.kit)
    requires GeneratedWritable(t.kit, g) && Known(t, g.retrieved) && HidesEnvelope(g.retrieved)
    requires Artifact(GeneratedTurn, GeneratedPayload(g, JDigest(OldestOf(t, g.retrieved)))) == Some(j)
    ensures var twin := Twin(g.retrieved);
            && EncodeRetrieved(t, twin).Some? && EncodeRetrieved(t, twin) != EncodeRetrieved(t, g.retrieved)
            && DecodeGenerated(t, j, g.retrieved) == Some(g) && DecodeGenerated(t, j, twin) == Some(g.(retrieved := twin))
  {
    hide ChecksUnbound, ShowsTexts, GeneratedWritable, Known, HidesEnvelope, Artifact, GeneratedPayload, OldestOf, Twin, EncodeRetrieved,
         DecodeGenerated, SeesNoProvenance;
    UnboundCheckSeesNoProvenance(t.check);
    TwinShowsTheSame(t, g.retrieved);
    HiddenEnvelopesConfuseDecoder(t, g, j);
  }
}
