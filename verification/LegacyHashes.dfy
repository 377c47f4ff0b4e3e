/** What the oldest accepted hash of a retrieved turn still says about the turn
    (legal_rag/chat_artifacts.py, _retrieved_artifact_hash_candidates): it belongs to one artifact exactly
    as long as no search-result envelope hides in the parts of the turn. */
module LegacyHashes {
  import opened Common
  import opened Json
  import opened Turns
  import opened Codecs
  import opened SourceMaps
  import opened LegacyShapes
  import opened ArtifactChain

  // ----- where a turn could hide an envelope -----

  predicate PlainResult(r: SearchResult) {
    !HasEnvelope(r.chunk) && !HasEnvelope(JObject(r.trace))
  }

  /** An envelope in the chunk, or in a value of the trace. */
  predicate HidesInResult(r: SearchResult) {
    HasEnvelope(r.chunk) || exists k | k in r.trace :: HasEnvelope(r.trace[k])
  }

  /** An envelope in what the turn was retrieved with: a result, the merge trace or the planning details. */
  predicate HidesEnvelope(r: Retrieved) {
    r.adaptive.Some? &&
    var a := r.adaptive.value;
    (exists x | x in a.results :: HidesInResult(x)) || HasEnvelope(JObject(a.mergeTrace)) || HasEnvelope(a.detail)
  }

  /** The analysis and the evidence check, which the source writes as records of texts and flags. */
  predicate PlainReports(r: Retrieved) {
    && (r.evidence.Some? ==> !HasEnvelope(r.evidence.value.detail))
    && (r.adaptive.Some? ==> !HasEnvelope(r.adaptive.value.analysis.detail) && !HasEnvelope(r.adaptive.value.evidence.detail))
  }

  lemma {:induction false} TextsArePlain(ts: seq<Text>)
    ensures !HasEnvelope(Texts(ts))
  {
    if ts != [] {
      TextsArePlain(ts[1..]);
      var items := Items(ts, t => JString(t));
      forall i | 0 <= i < |items| ensures !HasEnvelope(items[i]) {
        if i > 0 {
          assert items[i] == Texts(ts[1..]).items[i - 1];
        }
      }
    }
  }

  lemma TextMapIsPlain(m: map<Text, Text>)
    ensures !HasEnvelope(TextMap(m))
  {
    var f := TextMap(m).fields;
    assert forall k | k in f :: k.Custom? && f[k].JString?;
    assert SearchResultField !in f;
  }

  lemma ObjectIsPlain(f: Fields)
    requires f.Keys != {ArtifactSchemaVersion, SearchResultField} && forall k | k in f :: !HasEnvelope(f[k])
    ensures !HasEnvelope(JObject(f))
  {
  }

  lemma EvidenceIsPlain(e: EvidenceCheck)
    requires !HasEnvelope(e.detail)
    ensures !HasEnvelope(EncodeEvidence(e))
  {
    TextsArePlain(e.missingFacts);
    hide Texts;
    var f := EncodeEvidence(e).fields;
    assert DetailField in f.Keys;
    ObjectIsPlain(f);
  }

  lemma AnalysisIsPlain(a: Analysis)
    requires !HasEnvelope(a.detail)
    ensures !HasEnvelope(EncodeAnalysis(a))
  {
    TextsArePlain(a.riskFlags);
    hide Texts;
    var f := EncodeAnalysis(a).fields;
    assert DetailField in f.Keys;
    ObjectIsPlain(f);
  }

  lemma ClaimIsPlain(c: Claim)
    ensures !HasEnvelope(EncodeClaim(c))
  {
    TextsArePlain(c.sourceIds);
    hide Texts;
    var f := EncodeClaim(c).fields;
    assert ClaimId in f.Keys;
    ObjectIsPlain(f);
  }

  lemma {:induction false} ClaimsArePlain(claims: seq<Claim>)
    ensures !HasEnvelope(JArray(Items(claims, EncodeClaim)))
  {
    if claims != [] {
      ClaimIsPlain(claims[0]);
      ClaimsArePlain(claims[1..]);
      hide EncodeClaim;
      var items := Items(claims, EncodeClaim);
      forall i | 0 <= i < |items| ensures !HasEnvelope(items[i]) {
        if i > 0 {
          assert items[i] == JArray(Items(claims[1..], EncodeClaim)).items[i - 1];
        }
      }
    }
  }

  lemma AnswerIsPlain(a: Answer)
    ensures !HasEnvelope(EncodeAnswer(a))
  {
    TextsArePlain(a.limitations);
    TextsArePlain(a.parseErrors);
    ClaimsArePlain(a.claims);
    var f := EncodeAnswer(a).fields;
    hide Texts, Items;
    assert AnswerMode in f.Keys;
    ObjectIsPlain(f);
  }

  // ----- equal after stripping -----

  lemma FieldsStripAlike(a: Fields, b: Fields)
    requires a.Keys != {ArtifactSchemaVersion, SearchResultField} && b.Keys != {ArtifactSchemaVersion, SearchResultField}
    requires Strip(JObject(a), false) == Strip(JObject(b), false)
    ensures a.Keys == b.Keys && forall k | k in a :: Strip(a[k], false) == Strip(b[k], false)
  {
    hide Strip;
    StripOfObject(a);
    StripOfObject(b);
  }

  const RESULT_FIELDS: set<Key> := LEGACY_RESULT_FIELDS + {ProvenanceField}

  function ResultFields(r: SearchResult): (f: Fields)
    ensures f.Keys == RESULT_FIELDS
    ensures f[ChunkField] == r.chunk && f[ScoreField] == JReal(r.score) && f[RankField] == JInt(r.rank)
    ensures f[RetrieverField] == JString(r.retriever) && f[TraceField] == JObject(r.trace)
    ensures r.provenance.None? ==> f[ProvenanceField] == JNull
    ensures EncodeResult(r) == JObject(map[ArtifactSchemaVersion := JInt(RESULT_SCHEMA_VERSION), SearchResultField := JObject(f)])
  {
    EncodeResult(r).fields[SearchResultField].fields
  }

  lemma KeptOfResult(r: SearchResult)
    ensures KeptKeys(ResultFields(r), true) == LEGACY_RESULT_FIELDS && !IsEnvelope(ResultFields(r), LEGACY_RESULT_FIELDS)
  {
    var f := ResultFields(r);
    hide EncodeResult, ResultFields;
    assert ChunkField in LEGACY_RESULT_FIELDS && ProvenanceField !in LEGACY_RESULT_FIELDS;
  }

  lemma EnvelopeOfResult(r: SearchResult)
    ensures EncodeResult(r).JObject? && IsEnvelope(EncodeResult(r).fields, EncodeResult(r).fields.Keys)
    ensures EncodeResult(r).fields[SearchResultField] == JObject(ResultFields(r))
  {
    hide ResultFields;
    var e := map[ArtifactSchemaVersion := JInt(RESULT_SCHEMA_VERSION), SearchResultField := JObject(ResultFields(r))];
    assert EncodeResult(r).fields == e;
    assert e.Keys == {ArtifactSchemaVersion, SearchResultField};
  }

  lemma StripOfResult(r: SearchResult)
    ensures Strip(EncodeResult(r), false).JObject? && SearchResultField in Strip(EncodeResult(r), false).fields
    ensures var s := Strip(EncodeResult(r), false).fields[SearchResultField];
            s.JObject? && s.fields.Keys == LEGACY_RESULT_FIELDS &&
            forall k | k in LEGACY_RESULT_FIELDS :: s.fields[k] == Strip(ResultFields(r)[k], false)
  {
    EnvelopeOfResult(r);
    var e, f := EncodeResult(r).fields, ResultFields(r);
    assert SearchResultField in e;
    hide EncodeResult, ResultFields, Strip, IsEnvelope, KeptKeys;
    StripOfObject(e);
    KeptOfResult(r);
    StripOf(f, true);
  }

  lemma StrippedScalars(x: SearchResult, y: SearchResult)
    requires Strip(EncodeResult(x), false) == Strip(EncodeResult(y), false)
    ensures x.score == y.score && x.rank == y.rank && x.retriever == y.retriever
    ensures Strip(x.chunk, false) == Strip(y.chunk, false) && Strip(JObject(x.trace), false) == Strip(JObject(y.trace), false)
  {
    hide EncodeResult, ResultFields;
    StripOfResult(x);
    StripOfResult(y);
    var f, g := ResultFields(x), ResultFields(y);
    assert forall k | k in LEGACY_RESULT_FIELDS :: Strip(f[k], false) == Strip(g[k], false);
    assert ChunkField in LEGACY_RESULT_FIELDS && TraceField in LEGACY_RESULT_FIELDS && ScoreField in LEGACY_RESULT_FIELDS;
    assert RankField in LEGACY_RESULT_FIELDS && RetrieverField in LEGACY_RESULT_FIELDS;
    assert Strip(f[ScoreField], false) == f[ScoreField] && Strip(g[ScoreField], false) == g[ScoreField];
    assert Strip(f[RankField], false) == f[RankField] && Strip(g[RankField], false) == g[RankField];
    assert Strip(f[RetrieverField], false) == f[RetrieverField] && Strip(g[RetrieverField], false) == g[RetrieverField];
  }

  /** Among results without provenance, a plain one is determined by its stripped form. */
  lemma StrippedResultIdentifies(x: SearchResult, y: SearchResult)
    requires PlainResult(x) && x.provenance.None? && y.provenance.None?
    requires Strip(EncodeResult(x), false) == Strip(EncodeResult(y), false)
    ensures x == y
  {
    hide EncodeResult, HasEnvelope, Strip;
    StrippedScalars(x, y);
    StripIsInjective(x.chunk, y.chunk);
    StripIsInjective(JObject(x.trace), JObject(y.trace));
  }

  lemma {:induction false} ItemsLength<T>(xs: seq<T>, write: T -> Json)
    ensures |Items(xs, write)| == |xs| && forall i | 0 <= i < |xs| :: Items(xs, write)[i] == write(xs[i])
  {
    if xs != [] {
      ItemsLength(xs[1..], write);
    }
  }

  lemma StrippedItems(xs: seq<SearchResult>)
    ensures var j := Strip(JArray(Items(xs, EncodeResult)), false);
            j.JArray? && |j.items| == |xs| && forall i | 0 <= i < |xs| :: j.items[i] == Strip(EncodeResult(xs[i]), false)
  {
    hide EncodeResult;
    ItemsLength(xs, EncodeResult);
  }

  lemma {:induction false} StrippedResultsIdentify(xs: seq<SearchResult>, ys: seq<SearchResult>)
    requires forall x | x in xs :: PlainResult(x) && x.provenance.None?
    requires forall y | y in ys :: y.provenance.None?
    requires Strip(JArray(Items(xs, EncodeResult)), false) == Strip(JArray(Items(ys, EncodeResult)), false)
    ensures xs == ys
  {
    hide PlainResult, EncodeResult, Strip, Items;
    StrippedItems(xs);
    StrippedItems(ys);
    var j := Strip(JArray(Items(xs, EncodeResult)), false);
    forall i | 0 <= i < |xs| ensures xs[i] == ys[i] {
      assert j.items[i] == Strip(EncodeResult(xs[i]), false);
      assert xs[i] in xs && ys[i] in ys;
      StrippedResultIdentifies(xs[i], ys[i]);
    }
  }

  predicate NoProvenance(results: seq<SearchResult>) {
    forall x | x in results :: x.provenance.None?
  }

  const ADAPTIVE_FIELDS: set<Key> := {ResultsField, AnalysisField, EvidenceCheckField, MergeTrace, DetailField}

  lemma AdaptiveFields(a: Adaptive)
    ensures EncodeAdaptive(a).JObject? && EncodeAdaptive(a).fields.Keys == ADAPTIVE_FIELDS
    ensures var f := EncodeAdaptive(a).fields;
            && f[ResultsField] == JArray(Items(a.results, EncodeResult)) && f[AnalysisField] == EncodeAnalysis(a.analysis)
            && f[EvidenceCheckField] == EncodeEvidence(a.evidence) && f[MergeTrace] == JObject(a.mergeTrace)
            && f[DetailField] == a.detail
    ensures DetailField in ADAPTIVE_FIELDS && ADAPTIVE_FIELDS != {ArtifactSchemaVersion, SearchResultField}
  {
    hide Items, EncodeAnalysis, EncodeEvidence;
    assert DetailField in ADAPTIVE_FIELDS;
  }

  lemma TracedIsPlain(x: SearchResult)
    requires EvidenceFilter in x.trace && !HidesInResult(x)
    ensures PlainResult(x)
  {
    hide HasEnvelope;
    assert EvidenceFilter in x.trace.Keys;
    ObjectIsPlain(x.trace);
  }

  lemma RenumberedIsPlain(x: SearchResult, n: nat)
    requires !HidesInResult(x)
    ensures PlainResult(Renumbered(x, n))
  {
    FilterTraceIsPlain(SourceId(Number(x)), SourceId(n));
    hide HasEnvelope, SourceId, FilterTrace;
    TracedIsPlain(Renumbered(x, n));
  }

  lemma FilterTraceIsPlain(original: Text, filtered: Text)
    ensures !HasEnvelope(FilterTrace(original, filtered))
  {
  }

  lemma RenumberedArePlain(xs: seq<SearchResult>, results: seq<SearchResult>)
    requires AllRenumbered(xs, results) && forall x | x in xs :: !HidesInResult(x)
    ensures forall x | x in results :: PlainResult(x)
  {
    hide PlainResult, HidesInResult, Renumbered;
    forall x | x in results ensures PlainResult(x) {
      var i :| 0 <= i < |results| && results[i] == x;
      assert xs[i] in xs;
      RenumberedIsPlain(xs[i], i + 1);
    }
  }

  lemma FilteredArePlain(results: seq<SearchResult>, sourceMap: map<Text, Text>)
    requires forall x | x in results :: !HidesInResult(x)
    requires forall i | 0 <= i < |results| :: FilteredTrace(results[i], i + 1, sourceMap)
    ensures forall x | x in results :: PlainResult(x)
  {
    hide PlainResult, HidesInResult, SourceId, Exactly;
    forall x | x in results ensures PlainResult(x) {
      var i :| 0 <= i < |results| && results[i] == x;
      assert FilteredTrace(results[i], i + 1, sourceMap);
      TracedIsPlain(x);
    }
  }

  /** The results of an accepted turn hide nothing that its retrieval does not. */
  lemma ResultsArePlain(kit: Toolkit, r: Retrieved)
    requires RetrievedAccepted(kit, r) && !HidesEnvelope(r)
    ensures forall x | x in r.results :: PlainResult(x)
  {
    hide PlainResult, HidesInResult, UnfilteredAccepted, FilteredTrace, NumberedIds, MergeTraceMatches, AllRenumbered, SourceIdsAccepted,
         HasEnvelope;
    if r.adaptive.Some? {
      if r.rejectedIds == [] {
        UnfilteredMeans(r.adaptive.value.results, r.results, r.sourceMap);
        RenumberedArePlain(r.adaptive.value.results, r.results);
      } else {
        FilteredArePlain(r.results, r.sourceMap);
      }
    }
  }

  lemma SameBesides(f: Fields, g: Fields, k: Key, value: Json)
    requires f.Keys == g.Keys && f[k := value] == g[k := value] && (k in f ==> f[k] == g[k])
    ensures f == g
  {
    forall l | l in f ensures f[l] == g[l] {
      assert l != k ==> f[l] == f[k := value][l] && g[l] == g[k := value][l];
    }
  }

  lemma TracesIdentify(f: Fields, g: Fields, value: Json)
    requires f[EvidenceFilter := value] == g[EvidenceFilter := value] && Strip(JObject(f), false) == Strip(JObject(g), false)
    requires EvidenceFilter in f ==> !HasEnvelope(f[EvidenceFilter])
    ensures f == g
  {
    hide Strip, HasEnvelope;
    StripOfObject(f);
    StripOfObject(g);
    if EvidenceFilter in f {
      assert EvidenceFilter in f.Keys && f.Keys == g.Keys;
      StripIsInjective(f[EvidenceFilter], g[EvidenceFilter]);
    }
    SameBesides(f, g, EvidenceFilter, value);
  }

  /** Of two results under one new number, a plain one is determined by its stripped form. */
  lemma RenumberedIdentifies(x: SearchResult, y: SearchResult, n: nat)
    requires !HidesInResult(x) && x.provenance.None? && y.provenance.None?
    requires Renumbered(x, n) == Renumbered(y, n) && Strip(EncodeResult(x), false) == Strip(EncodeResult(y), false)
    ensures x == y
  {
    hide EncodeResult, HasEnvelope, Strip, FilterTrace, SourceId;
    StrippedScalars(x, y);
    TracesIdentify(x.trace, y.trace, FilterTrace(SourceId(Number(x)), SourceId(n)));
  }

  lemma AllRenumberedIdentify(xs: seq<SearchResult>, ys: seq<SearchResult>, results: seq<SearchResult>)
    requires AllRenumbered(xs, results) && AllRenumbered(ys, results) && NoProvenance(xs) && NoProvenance(ys)
    requires forall x | x in xs :: !HidesInResult(x)
    requires Strip(JArray(Items(xs, EncodeResult)), false) == Strip(JArray(Items(ys, EncodeResult)), false)
    ensures xs == ys
  {
    hide HidesInResult, EncodeResult, Renumbered, Strip, Items;
    StrippedItems(xs);
    StrippedItems(ys);
    var j := Strip(JArray(Items(xs, EncodeResult)), false);
    forall i | 0 <= i < |xs| ensures xs[i] == ys[i] {
      assert j.items[i] == Strip(EncodeResult(xs[i]), false);
      assert xs[i] in xs && ys[i] in ys;
      RenumberedIdentifies(xs[i], ys[i], i + 1);
    }
  }

  /** What was retrieved follows from the results of the turn, up to what stripping shows. */
  lemma RetrievedResultsIdentify(kit: Toolkit, r: Retrieved, s: Retrieved)
    requires RetrievedAccepted(kit, r) && RetrievedAccepted(kit, s) && Unbound(r) && Unbound(s) && r.adaptive.Some? && s.adaptive.Some?
    requires !HidesEnvelope(r) && r.results == s.results && r.rejectedIds == s.rejectedIds
    requires var xs, ys := r.adaptive.value.results, s.adaptive.value.results;
             Strip(JArray(Items(xs, EncodeResult)), false) == Strip(JArray(Items(ys, EncodeResult)), false)
    ensures s.adaptive.value.results == r.adaptive.value.results
  {
    hide Strip, Items, EncodeResult, HasEnvelope, HidesInResult, UnfilteredAccepted, FilteredTrace, NumberedIds, MergeTraceMatches,
         AllRenumbered, SourceIdsAccepted;
    var a, b := r.adaptive.value, s.adaptive.value;
    if r.rejectedIds == [] {
      UnfilteredMeans(a.results, r.results, r.sourceMap);
      UnfilteredMeans(b.results, s.results, s.sourceMap);
      AllRenumberedIdentify(a.results, b.results, r.results);
    }
  }

  lemma StrippedAdaptiveIdentifies(a: Adaptive, b: Adaptive)
    requires !HasEnvelope(JObject(a.mergeTrace)) && !HasEnvelope(a.detail) && a.results == b.results
    requires !HasEnvelope(a.analysis.detail) && !HasEnvelope(a.evidence.detail)
    requires Strip(EncodeAdaptive(a), false) == Strip(EncodeAdaptive(b), false)
    ensures EncodeAdaptive(a) == EncodeAdaptive(b)
  {
    AdaptiveFields(a);
    AdaptiveFields(b);
    AnalysisIsPlain(a.analysis);
    EvidenceIsPlain(a.evidence);
    var f, g := EncodeAdaptive(a).fields, EncodeAdaptive(b).fields;
    hide EncodeAdaptive, EncodeAnalysis, EncodeEvidence, HasEnvelope, EncodeResult, Items, Strip;
    FieldsStripAlike(f, g);
    assert ResultsField in f && AnalysisField in f && EvidenceCheckField in f && MergeTrace in f && DetailField in f;
    StripIsInjective(f[AnalysisField], g[AnalysisField]);
    StripIsInjective(f[EvidenceCheckField], g[EvidenceCheckField]);
    StripIsInjective(f[MergeTrace], g[MergeTrace]);
    StripIsInjective(f[DetailField], g[DetailField]);
    assert f == g;
  }

  lemma OptionalPartsArePlain(r: Retrieved)
    requires r.evidence.Some? ==> !HasEnvelope(r.evidence.value.detail)
    ensures !HasEnvelope(WriteEvidence(r.evidence)) && !HasEnvelope(WriteAnswer(r.terminal.answer))
    ensures !HasEnvelope(WriteWord(r.terminal.kind)) && !HasEnvelope(WriteWord(r.terminal.mode))
  {
    if r.evidence.Some? { EvidenceIsPlain(r.evidence.value); }
    if r.terminal.answer.Some? { AnswerIsPlain(r.terminal.answer.value); }
    hide EncodeEvidence, EncodeAnswer;
  }

  /** Of the written parts, only the adaptive evidence and the results can hide an envelope. */
  lemma PartsArePlain(r: Retrieved, prepared: Json)
    requires r.evidence.Some? ==> !HasEnvelope(r.evidence.value.detail)
    ensures var f := LegacyRetrievedPayload(r, prepared);
            forall k | k in f && k != AdaptiveResultField && k != ResultsField :: !HasEnvelope(f[k])
  {
    DigestIsPlain(prepared);
    hide LegacyRetrievedPayload, WriteEvidence, WriteAnswer, Texts, TextMap, WriteWord, WriteAdaptive, Items, HasEnvelope;
    LegacyFields(r, prepared);
    OptionalPartsArePlain(r);
    TextsArePlain(r.rejectedIds);
    TextMapIsPlain(r.sourceMap);
    var f := LegacyRetrievedPayload(r, prepared);
    forall k | k in f && k != AdaptiveResultField && k != ResultsField ensures !HasEnvelope(f[k]) {
      assert k in {PreparedSha256, EvidenceCheckField, RejectedSourceIds, SourceIdMap, TerminalKind, TerminalAnswer, TerminalMode};
    }
  }

  lemma DigestIsPlain(j: Json)
    ensures !HasEnvelope(JDigest(j))
  {
  }

  predicate Known(t: Tools, r: Retrieved) {
    EncodeRetrieved(t, r).Some? && EncodePrepared(t.kit, r.prepared).Some? && Unbound(r)
  }

  function PreparedOf(t: Tools, r: Retrieved): Json
    requires Known(t, r)
  {
    EncodePrepared(t.kit, r.prepared).value
  }

  function OldestOf(t: Tools, r: Retrieved): Json
    requires Known(t, r)
  {
    Oldest(r, PreparedOf(t, r))
  }

  lemma OldestAlike(t: Tools, r: Retrieved, s: Retrieved)
    requires Known(t, r) && Known(t, s) && OldestOf(t, r) == OldestOf(t, s)
    ensures var f, g := LegacyRetrievedPayload(r, PreparedOf(t, r)), LegacyRetrievedPayload(s, PreparedOf(t, s));
            f.Keys == g.Keys == LEGACY_RETRIEVED_FIELDS && forall k | k in f :: Strip(f[k], false) == Strip(g[k], false)
  {
    hide EncodeRetrieved, EncodePrepared, Unbound, LegacyRetrievedPayload, Strip, Oldest, Envelope, RetrievedPayload, BoundaryFree;
    var f, g := LegacyRetrievedPayload(r, PreparedOf(t, r)), LegacyRetrievedPayload(s, PreparedOf(t, s));
    BoundaryFreeIs(r, PreparedOf(t, r));
    BoundaryFreeIs(s, PreparedOf(t, s));
    StripOfObject(f);
    StripOfObject(g);
    EnvelopeInjective(RetrievedTurn, Strip(JObject(f), false).fields, Strip(JObject(g), false).fields);
    LegacyFields(r, PreparedOf(t, r));
    LegacyFields(s, PreparedOf(t, s));
    LegacyKeysDiffer();
    FieldsStripAlike(f, g);
  }

  lemma LegacyKeysDiffer()
    ensures LEGACY_RETRIEVED_FIELDS != {ArtifactSchemaVersion, SearchResultField}
  {
    assert PreparedSha256 in LEGACY_RETRIEVED_FIELDS;
  }

  lemma SameLegacySameArtifact(t: Tools, r: Retrieved, s: Retrieved)
    requires Known(t, r) && Known(t, s)
    requires LegacyRetrievedPayload(r, PreparedOf(t, r)) == LegacyRetrievedPayload(s, PreparedOf(t, s))
    ensures EncodeRetrieved(t, r) == EncodeRetrieved(t, s)
  {
    RetrievedIsEnvelope(t, r);
    RetrievedIsEnvelope(t, s);
    hide EncodeRetrieved, EncodePrepared, LegacyRetrievedPayload;
  }

  lemma AdaptiveNotNull(a: Adaptive)
    ensures Strip(EncodeAdaptive(a), false) != Strip(JNull, false)
  {
    AdaptiveFields(a);
    StripOfObject(EncodeAdaptive(a).fields);
    hide EncodeAdaptive;
  }

  lemma StrippedOptionIdentifies(kit: Toolkit, r: Retrieved, s: Retrieved)
    requires RetrievedAccepted(kit, r) && RetrievedAccepted(kit, s) && Unbound(r) && Unbound(s)
    requires PlainReports(r) && !HidesEnvelope(r) && r.results == s.results && r.rejectedIds == s.rejectedIds
    requires Strip(WriteAdaptive(r.adaptive), false) == Strip(WriteAdaptive(s.adaptive), false)
    ensures WriteAdaptive(r.adaptive) == WriteAdaptive(s.adaptive)
  {
    hide HasEnvelope, HidesInResult, EncodeAdaptive, RetrievedAccepted, Strip;
    if r.adaptive.Some? { AdaptiveNotNull(r.adaptive.value); }
    if s.adaptive.Some? { AdaptiveNotNull(s.adaptive.value); }
    if r.adaptive.Some? && s.adaptive.Some? {
      StrippedArrays(r.adaptive.value, s.adaptive.value);
      RetrievedResultsIdentify(kit, r, s);
      StrippedAdaptiveIdentifies(r.adaptive.value, s.adaptive.value);
    }
  }

  lemma StrippedArrays(a: Adaptive, b: Adaptive)
    requires Strip(EncodeAdaptive(a), false) == Strip(EncodeAdaptive(b), false)
    ensures Strip(JArray(Items(a.results, EncodeResult)), false) == Strip(JArray(Items(b.results, EncodeResult)), false)
  {
    hide EncodeAdaptive, EncodeAnalysis, EncodeEvidence, EncodeResult, Items, Strip;
    AdaptiveFields(a);
    AdaptiveFields(b);
    var f, g := EncodeAdaptive(a).fields, EncodeAdaptive(b).fields;
    FieldsStripAlike(f, g);
    assert ResultsField in f;
  }

  lemma SameTexts(xs: seq<Text>, ys: seq<Text>)
    requires Texts(xs) == Texts(ys)
    ensures xs == ys
  {
    TextsRead(xs);
    TextsRead(ys);
  }

  /** Without envelopes to hide, all fields but the retrieval are determined by their stripped forms. */
  lemma OtherFieldsIdentify(t: Tools, r: Retrieved, s: Retrieved)
    requires Known(t, r) && Known(t, s) && PlainReports(r) && (forall x | x in r.results :: PlainResult(x))
    requires OldestOf(t, r) == OldestOf(t, s)
    ensures var f, g := LegacyRetrievedPayload(r, PreparedOf(t, r)), LegacyRetrievedPayload(s, PreparedOf(t, s));
            && f.Keys == g.Keys == LEGACY_RETRIEVED_FIELDS && (forall k | k in f && k != AdaptiveResultField :: f[k] == g[k])
            && r.results == s.results && r.rejectedIds == s.rejectedIds
            && Strip(WriteAdaptive(r.adaptive), false) == Strip(WriteAdaptive(s.adaptive), false)
  {
    hide EncodeRetrieved, EncodePrepared, LegacyRetrievedPayload, HasEnvelope, PlainResult, Strip, Oldest, Items, EncodeResult,
         WriteAdaptive, WriteEvidence, WriteWord, WriteAnswer, TextMap, Texts;
    var pr, ps := PreparedOf(t, r), PreparedOf(t, s);
    var f, g := LegacyRetrievedPayload(r, pr), LegacyRetrievedPayload(s, ps);
    OldestAlike(t, r, s);
    PartsArePlain(r, pr);
    LegacyFields(r, pr);
    LegacyFields(s, ps);
    assert AdaptiveResultField in f && ResultsField in f && RejectedSourceIds in f;
    StrippedResultsIdentify(r.results, s.results);
    forall k | k in f && k != AdaptiveResultField ensures f[k] == g[k] {
      if k != ResultsField {
        StripIsInjective(f[k], g[k]);
      }
    }
    SameTexts(r.rejectedIds, s.rejectedIds);
  }

  lemma SameAdaptiveSamePayload(r: Retrieved, s: Retrieved, pr: Json, ps: Json)
    requires var f, g := LegacyRetrievedPayload(r, pr), LegacyRetrievedPayload(s, ps);
             f.Keys == g.Keys && forall k | k in f && k != AdaptiveResultField :: f[k] == g[k]
    requires WriteAdaptive(r.adaptive) == WriteAdaptive(s.adaptive)
    ensures LegacyRetrievedPayload(r, pr) == LegacyRetrievedPayload(s, ps)
  {
    hide LegacyRetrievedPayload, WriteAdaptive, WriteEvidence, WriteWord, WriteAnswer, TextMap, Texts, Items;
    LegacyFields(r, pr);
    LegacyFields(s, ps);
    SameFields(LegacyRetrievedPayload(r, pr), LegacyRetrievedPayload(s, ps));
  }

  /** Main theorem, first half: the oldest hash of a turn without hidden envelopes is no other turn's. */
  lemma OldestHashIdentifiesPlainTurns(t: Tools, r: Retrieved, s: Retrieved)
    requires Known(t, r) && Known(t, s) && PlainReports(r) && !HidesEnvelope(r) && OldestOf(t, r) == OldestOf(t, s)
    ensures EncodeRetrieved(t, r) == EncodeRetrieved(t, s)
  {
    hide EncodeRetrieved, EncodePrepared, LegacyRetrievedPayload, HidesEnvelope, PlainReports, PlainResult, Strip, OldestOf, WriteAdaptive,
         RetrievedAccepted, RetrievedWritable, RetrievedPayload, Unbound;
    RetrievedChecked(t, r);
    RetrievedChecked(t, s);
    ResultsArePlain(t.kit, r);
    OtherFieldsIdentify(t, r, s);
    StrippedOptionIdentifies(t.kit, r, s);
    SameAdaptiveSamePayload(r, s, PreparedOf(t, r), PreparedOf(t, s));
    SameLegacySameArtifact(t, r, s);
  }

  lemma StrictPayload(kind: Word, payload: Fields)
    ensures Strict(Envelope(kind, payload)) <==> ProperWord(kind) && Strict(JObject(payload))
  {
    StrictEnvelope(kind, payload);
    hide Envelope;
  }

  lemma StrictField(fields: Fields, k: Key)
    requires Strict(JObject(fields)) && k in fields
    ensures Strict(fields[k])
  {
  }
}
