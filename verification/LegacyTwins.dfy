/** Turns with another artifact and the same oldest hash (legal_rag/chat_artifacts.py,
    _strip_search_result_provenance and _retrieved_artifact_hash_candidates): the twin of a turn holds its
    hidden envelopes under another provenance. */
module LegacyTwins {
  import opened Common
  import opened Conversation
  import opened Json
  import opened Turns
  import opened Codecs
  import opened SourceMaps
  import opened LegacyShapes
  import opened ArtifactChain
  import opened LegacyHashes

  function FlipResult(x: SearchResult): SearchResult {
    x.(chunk := Flip(x.chunk), trace := FlipFields(x.trace))
  }

  function FlipResults(xs: seq<SearchResult>): (flipped: seq<SearchResult>)
    ensures |flipped| == |xs| && forall i | 0 <= i < |xs| :: flipped[i] == FlipResult(xs[i])
  {
    seq(|xs|, i requires 0 <= i < |xs| => FlipResult(xs[i]))
  }

  function FlipAdaptive(a: Adaptive): Adaptive {
    a.(results := FlipResults(a.results), mergeTrace := Flip(JObject(a.mergeTrace)).fields, detail := Flip(a.detail))
  }

  function Twin(r: Retrieved): Retrieved {
    r.(results := FlipResults(r.results),
       adaptive := match r.adaptive case None => None case Some(a) => Some(FlipAdaptive(a)))
  }

  /** Of a result without provenance, the check looks at chunk and trace only where stripping leaves them alone.
      What the source looks for there are the fields of a chunk and which boundary markers its metadata and the
      trace have (ResultChecks); with a provenance it also compares a fingerprint of the whole chunk. */
  ghost predicate SeesNoProvenance(check: ResultCheck) {
    forall x: SearchResult, y: SearchResult | x.provenance.None? && y == x.(chunk := y.chunk, trace := y.trace) &&
      Strip(y.chunk, false) == Strip(x.chunk, false) && Strip(JObject(y.trace), false) == Strip(JObject(x.trace), false) ::
      check(y) == check(x)
  }

  // ----- the twin is accepted -----

  lemma FilterTraceStays(original: Text, filtered: Text)
    ensures Flip(FilterTrace(original, filtered)) == FilterTrace(original, filtered)
  {
    FlipChangesIffEnvelope(FilterTrace(original, filtered));
  }

  lemma FlipRenumbered(x: SearchResult, n: nat)
    ensures FlipResult(Renumbered(x, n)) == Renumbered(FlipResult(x), n)
  {
    hide SourceId, Flip, FilterTrace;
    FilterTraceStays(SourceId(Number(x)), SourceId(n));
    assert FlipResult(Renumbered(x, n)).trace == Renumbered(FlipResult(x), n).trace;
  }

  lemma FilteredTraceStays(x: SearchResult, n: nat, sourceMap: map<Text, Text>)
    requires FilteredTrace(x, n, sourceMap)
    ensures FilteredTrace(FlipResult(x), n, sourceMap)
  {
    hide SourceId, Flip, FilteredTrace, FilterTrace, TraceOriginal, Blank;
    FilteredTraceIs(x, n, sourceMap);
    FilteredTraceIs(FlipResult(x), n, sourceMap);
    FilterTraceStays(TraceOriginal(x), SourceId(n));
    SameTraceSameOriginal(x, FlipResult(x));
  }

  lemma SameTraceSameOriginal(x: SearchResult, y: SearchResult)
    requires EvidenceFilter in x.trace && EvidenceFilter in y.trace && x.trace[EvidenceFilter] == y.trace[EvidenceFilter]
    ensures TraceOriginal(x) == TraceOriginal(y)
  {
  }

  lemma {:induction false} ReadTextsHoldNoEnvelope(items: seq<Json>)
    requires ItemsOf(items, TextOf).Some?
    ensures forall i | 0 <= i < |items| :: !HasEnvelope(items[i])
  {
    if items != [] {
      ReadTextsHoldNoEnvelope(items[1..]);
      forall i | 0 <= i < |items| ensures !HasEnvelope(items[i]) {
        if i > 0 { assert items[i] == items[1..][i - 1]; }
      }
    }
  }

  lemma ReadMapHoldsNoEnvelope(j: Json)
    requires TextMapOf(j).Some?
    ensures !HasEnvelope(j)
  {
    assert SearchResultField !in j.fields;
  }

  /** What the filter left in a merge trace holds no envelope. */
  lemma FilterEntryStays(trace: Fields, sourceMap: map<Text, Text>, rejected: seq<Text>, count: nat)
    requires MergeTraceMatches(trace, sourceMap, rejected, count)
    ensures Flip(trace[EvidenceFilter]) == trace[EvidenceFilter]
  {
    var j := trace[EvidenceFilter];
    ReadTextsHoldNoEnvelope(j.fields[RejectedOriginalSourceIds].items);
    ReadMapHoldsNoEnvelope(j.fields[SourceIdMap]);
    hide ItemsOf, TextMapOf;
    assert ReturnedCount in j.fields.Keys;
    ObjectIsPlain(j.fields);
    FlipChangesIffEnvelope(j);
  }

  lemma MergeTraceStays(trace: Fields, sourceMap: map<Text, Text>, rejected: seq<Text>, count: nat)
    requires MergeTraceMatches(trace, sourceMap, rejected, count)
    ensures MergeTraceMatches(Flip(JObject(trace)).fields, sourceMap, rejected, count)
  {
    hide ListOf, TextMapOf;
    FilterEntryStays(trace, sourceMap, rejected, count);
    assert EvidenceFilter in trace.Keys;
    assert Flip(JObject(trace)).fields[EvidenceFilter] == trace[EvidenceFilter];
  }

  lemma FlippedStayRenumbered(adaptive: seq<SearchResult>, results: seq<SearchResult>, sourceMap: map<Text, Text>)
    requires UnfilteredAccepted(adaptive, results, sourceMap, [])
    ensures UnfilteredAccepted(FlipResults(adaptive), FlipResults(results), sourceMap, [])
  {
    hide UnfilteredAccepted, DistinctRanks, MapsInOrder, AllRenumbered, FlipResults;
    UnfilteredMeans(adaptive, results, sourceMap);
    RanksStay(adaptive);
    MapStays(adaptive, sourceMap);
    RenumberingStays(adaptive, results);
    UnfilteredMeans(FlipResults(adaptive), FlipResults(results), sourceMap);
  }

  lemma RenumberingStays(adaptive: seq<SearchResult>, results: seq<SearchResult>)
    requires AllRenumbered(adaptive, results)
    ensures AllRenumbered(FlipResults(adaptive), FlipResults(results))
  {
    hide Renumbered, FlipResult;
    forall i | 0 <= i < |adaptive| ensures FlipResults(results)[i] == Renumbered(FlipResults(adaptive)[i], i + 1) {
      FlipRenumbered(adaptive[i], i + 1);
    }
  }

  lemma RanksStay(xs: seq<SearchResult>)
    ensures forall i | 0 <= i < |xs| :: FlipResults(xs)[i].rank == xs[i].rank
    ensures DistinctRanks(FlipResults(xs)) == DistinctRanks(xs)
  {
  }

  lemma MapStays(xs: seq<SearchResult>, sourceMap: map<Text, Text>)
    ensures MapsInOrder(FlipResults(xs), sourceMap) == MapsInOrder(xs, sourceMap)
  {
    hide SourceId;
    forall i | 0 <= i < |xs| ensures OriginalId(FlipResults(xs)[i]) == OriginalId(xs[i]) {
    }
  }

  lemma FlippedStayFiltered(a: Adaptive, results: seq<SearchResult>, sourceMap: map<Text, Text>, rejected: seq<Text>)
    requires ScopeFilteredAccepted(a, results, sourceMap, rejected)
    ensures ScopeFilteredAccepted(FlipAdaptive(a), FlipResults(results), sourceMap, rejected)
  {
    hide FilteredTrace, NumberedIds, MergeTraceMatches, FlipResult, Flip;
    MergeTraceStays(a.mergeTrace, sourceMap, rejected, |results|);
    var ys := FlipResults(results);
    forall i | 0 <= i < |ys| ensures FilteredTrace(ys[i], i + 1, sourceMap) {
      FilteredTraceStays(results[i], i + 1, sourceMap);
    }
  }

  lemma ValidResultStays(check: ResultCheck, x: SearchResult)
    requires SeesNoProvenance(check) && ValidResult(check, x) && x.provenance.None?
    ensures ValidResult(check, FlipResult(x))
  {
    hide Strip, Flip, Blank;
    FlipStripsAlike(x.chunk, false);
    FlipFieldsStripAlike(x.trace, false);
  }

  lemma ValidResultsStay(check: ResultCheck, xs: seq<SearchResult>)
    requires SeesNoProvenance(check) && ValidResults(check, xs) && NoProvenance(xs)
    ensures ValidResults(check, FlipResults(xs))
  {
    hide ValidResult, FlipResult, SeesNoProvenance;
    forall x | x in FlipResults(xs) ensures ValidResult(check, x) {
      var i :| 0 <= i < |xs| && FlipResults(xs)[i] == x;
      assert xs[i] in xs;
      ValidResultStays(check, xs[i]);
    }
  }

  lemma NoProvenanceStays(xs: seq<SearchResult>)
    requires NoProvenance(xs)
    ensures NoProvenance(FlipResults(xs))
  {
    hide Flip, FlipFields;
    forall x | x in FlipResults(xs) ensures x.provenance.None? {
      var i :| 0 <= i < |xs| && FlipResults(xs)[i] == x;
      assert xs[i] in xs;
    }
  }

  lemma TwinIsUnbound(r: Retrieved)
    requires Unbound(r)
    ensures Unbound(Twin(r))
  {
    hide FlipResults, Flip;
    NoProvenanceStays(r.results);
    if r.adaptive.Some? { NoProvenanceStays(r.adaptive.value.results); }
  }

  lemma TwinIsAccepted(t: Tools, r: Retrieved)
    requires RetrievedAccepted(t.kit, r) && Unbound(r)
    ensures RetrievedAccepted(t.kit, Twin(r))
  {
    hide ScopeFilteredAccepted, UnfilteredAccepted, Flip, FlipResult, SourceIdsAccepted;
    TwinIsUnbound(r);
    if r.adaptive.Some? {
      if r.rejectedIds == [] {
        FlippedStayRenumbered(r.adaptive.value.results, r.results, r.sourceMap);
      } else {
        FlippedStayFiltered(r.adaptive.value, r.results, r.sourceMap, r.rejectedIds);
      }
      assert SourceIdsAccepted(Twin(r)) by { SourceIdsSeeNoResults(r, Twin(r)); }
    }
  }

  lemma SourceIdsSeeNoResults(r: Retrieved, s: Retrieved)
    requires SourceIdsAccepted(r) && s.sourceMap == r.sourceMap && s.rejectedIds == r.rejectedIds
    ensures SourceIdsAccepted(s)
  {
    hide NoBlanks, IsSourceId, OrderedUnique;
  }

  lemma TwinIsWritable(check: ResultCheck, r: Retrieved)
    requires SeesNoProvenance(check) && RetrievedWritable(check, r) && Unbound(r)
    ensures RetrievedWritable(check, Twin(r))
  {
    hide SeesNoProvenance, ValidResults, FlipResults, Flip;
    ValidResultsStay(check, r.results);
    if r.adaptive.Some? { ValidResultsStay(check, r.adaptive.value.results); }
  }

  // ----- the twin is written alike -----

  lemma ObjectsStripAlike(f: Fields, g: Fields)
    requires f.Keys == g.Keys != {ArtifactSchemaVersion, SearchResultField}
    requires forall k | k in f :: Strip(f[k], false) == Strip(g[k], false)
    ensures Strip(JObject(f), false) == Strip(JObject(g), false)
  {
    hide Strip;
    assert KeptKeys(f, false) == f.Keys == KeptKeys(g, false);
    StripAlike(f, g, false);
  }

  lemma ResultFieldsStripAlike(x: SearchResult)
    ensures Strip(JObject(ResultFields(FlipResult(x))), true) == Strip(JObject(ResultFields(x)), true)
  {
    var f, g := ResultFields(FlipResult(x)), ResultFields(x);
    FlipStripsAlike(x.chunk, false);
    FlipFieldsStripAlike(x.trace, false);
    KeptOfResult(x);
    KeptOfResult(FlipResult(x));
    hide Strip, Flip, FlipFields, ResultFields, IsEnvelope, KeptKeys;
    forall k | k in LEGACY_RESULT_FIELDS ensures Strip(f[k], false) == Strip(g[k], false) {
      assert k in {ChunkField, ScoreField, RankField, RetrieverField, TraceField};
    }
    StripAlike(f, g, true);
  }

  function ResultEnvelope(f: Fields): (e: Fields)
    ensures e.Keys == {ArtifactSchemaVersion, SearchResultField}
    ensures e[ArtifactSchemaVersion] == JInt(RESULT_SCHEMA_VERSION) && e[SearchResultField] == JObject(f)
  {
    map[ArtifactSchemaVersion := JInt(RESULT_SCHEMA_VERSION), SearchResultField := JObject(f)]
  }

  lemma EnvelopesStripAlike(f: Fields, g: Fields)
    requires Strip(JObject(f), true) == Strip(JObject(g), true)
    ensures Strip(JObject(ResultEnvelope(f)), false) == Strip(JObject(ResultEnvelope(g)), false)
  {
    hide Strip, ResultEnvelope;
    var e, d := ResultEnvelope(f), ResultEnvelope(g);
    assert KeptKeys(e, false) == e.Keys && KeptKeys(d, false) == d.Keys;
    assert IsEnvelope(e, e.Keys) && IsEnvelope(d, d.Keys);
    StripAlike(e, d, false);
  }

  lemma EnvelopeStrictIff(f: Fields)
    ensures Strict(JObject(ResultEnvelope(f))) <==> Strict(JObject(f))
  {
    hide ResultEnvelope;
    var e := ResultEnvelope(f);
    assert SearchResultField in e && Strict(e[ArtifactSchemaVersion]);
  }

  lemma ResultStripsAlike(x: SearchResult)
    ensures Strip(EncodeResult(FlipResult(x)), false) == Strip(EncodeResult(x), false)
  {
    hide Strip, FlipResult;
    ResultFieldsStripAlike(x);
    EnvelopesStripAlike(ResultFields(FlipResult(x)), ResultFields(x));
    hide ResultFields;
  }

  lemma SameProvenance(x: SearchResult)
    ensures ResultFields(FlipResult(x))[ProvenanceField] == ResultFields(x)[ProvenanceField]
  {
    hide Flip, FlipFields, EncodeProvenance;
  }

  lemma ResultIsEnveloped(x: SearchResult)
    ensures EncodeResult(x) == JObject(ResultEnvelope(ResultFields(x)))
  {
    hide ResultFields;
  }

  lemma ResultFieldsKeepStrict(x: SearchResult)
    requires Strict(JObject(ResultFields(x)))
    ensures Strict(JObject(ResultFields(FlipResult(x))))
  {
    var f, g := ResultFields(x), ResultFields(FlipResult(x));
    SameProvenance(x);
    hide ResultFields, Flip, FlipFields, Strict;
    forall k | k in g ensures !k.Custom? && Strict(g[k]) {
      assert k in {ChunkField, ScoreField, RankField, RetrieverField, TraceField, ProvenanceField};
      StrictField(f, k);
      if k == ChunkField { FlipKeepsStrict(x.chunk); }
      if k == TraceField { FlipFieldsKeepStrict(x.trace); }
    }
    StrictObject(g);
  }

  lemma ResultKeepsStrict(x: SearchResult)
    requires Strict(EncodeResult(x))
    ensures Strict(EncodeResult(FlipResult(x)))
  {
    hide ResultFields, EncodeResult, FlipResult, Strict, ResultEnvelope;
    ResultIsEnveloped(x);
    ResultIsEnveloped(FlipResult(x));
    EnvelopeStrictIff(ResultFields(x));
    EnvelopeStrictIff(ResultFields(FlipResult(x)));
    ResultFieldsKeepStrict(x);
  }

  lemma ResultsStripAlike(xs: seq<SearchResult>)
    ensures Strip(JArray(Items(FlipResults(xs), EncodeResult)), false) == Strip(JArray(Items(xs, EncodeResult)), false)
  {
    hide EncodeResult, FlipResult;
    ItemsLength(xs, EncodeResult);
    ItemsLength(FlipResults(xs), EncodeResult);
    var a, b := JArray(Items(FlipResults(xs), EncodeResult)), JArray(Items(xs, EncodeResult));
    forall i | 0 <= i < |xs| ensures Strip(a.items[i], false) == Strip(b.items[i], false) {
      ResultStripsAlike(xs[i]);
    }
    assert Strip(a, false).items == Strip(b, false).items;
  }

  lemma ResultsKeepStrict(xs: seq<SearchResult>)
    requires Strict(JArray(Items(xs, EncodeResult)))
    ensures Strict(JArray(Items(FlipResults(xs), EncodeResult)))
  {
    hide EncodeResult, FlipResult;
    ItemsLength(xs, EncodeResult);
    ItemsLength(FlipResults(xs), EncodeResult);
    forall i | 0 <= i < |xs| ensures Strict(Items(FlipResults(xs), EncodeResult)[i]) {
      assert Strict(Items(xs, EncodeResult)[i]);
      ResultKeepsStrict(xs[i]);
    }
  }

  lemma AdaptiveStripsAlike(a: Adaptive)
    ensures Strip(EncodeAdaptive(FlipAdaptive(a)), false) == Strip(EncodeAdaptive(a), false)
    ensures Strict(EncodeAdaptive(a)) ==> Strict(EncodeAdaptive(FlipAdaptive(a)))
  {
    var b := FlipAdaptive(a);
    AdaptiveFields(a);
    AdaptiveFields(b);
    ResultsStripAlike(a.results);
    FlipStripsAlike(JObject(a.mergeTrace), false);
    FlipStripsAlike(a.detail, false);
    hide EncodeAdaptive, Strip, Flip, FlipResults, Items, EncodeAnalysis, EncodeEvidence, Strict;
    var f, g := EncodeAdaptive(b).fields, EncodeAdaptive(a).fields;
    forall k | k in f ensures Strip(f[k], false) == Strip(g[k], false) {
      assert k in {ResultsField, AnalysisField, EvidenceCheckField, MergeTrace, DetailField};
    }
    ObjectsStripAlike(f, g);
    if Strict(EncodeAdaptive(a)) { AdaptiveKeepsStrict(a); }
  }

  lemma AdaptiveKeepsStrict(a: Adaptive)
    requires Strict(EncodeAdaptive(a))
    ensures Strict(EncodeAdaptive(FlipAdaptive(a)))
  {
    hide EncodeAdaptive, Strict, Flip, FlipResults, Items, EncodeAnalysis, EncodeEvidence;
    var b := FlipAdaptive(a);
    AdaptiveFields(a);
    AdaptiveFields(b);
    var f, g := EncodeAdaptive(b).fields, EncodeAdaptive(a).fields;
    forall k | k in f ensures !k.Custom? && Strict(f[k]) {
      assert k in {ResultsField, AnalysisField, EvidenceCheckField, MergeTrace, DetailField};
      StrictField(g, k);
      if k == ResultsField { ResultsKeepStrict(a.results); }
      if k == MergeTrace { FlipKeepsStrict(JObject(a.mergeTrace)); }
      if k == DetailField { FlipKeepsStrict(a.detail); }
    }
    StrictObject(f);
  }

  lemma StrictObject(f: Fields)
    requires forall k | k in f :: !k.Custom? && Strict(f[k])
    ensures Strict(JObject(f))
  {
  }

  /** The older payload of the twin strips to the same, and can be written when the turn's can. */
  lemma TwinStripsAlike(r: Retrieved, prepared: Json)
    ensures Strip(JObject(LegacyRetrievedPayload(Twin(r), prepared)), false) == Strip(JObject(LegacyRetrievedPayload(r, prepared)), false)
    ensures Strict(JObject(LegacyRetrievedPayload(r, prepared))) ==> Strict(JObject(LegacyRetrievedPayload(Twin(r), prepared)))
  {
    hide LegacyRetrievedPayload, Strip, Strict, FlipAdaptive, EncodeAdaptive, FlipResults, Items, Texts, TextMap, WriteWord, WriteAnswer,
         WriteEvidence;
    LegacyFields(r, prepared);
    LegacyFields(Twin(r), prepared);
    LegacyKeysDiffer();
    ResultsStripAlike(r.results);
    if r.adaptive.Some? { AdaptiveStripsAlike(r.adaptive.value); }
    var f, g := LegacyRetrievedPayload(Twin(r), prepared), LegacyRetrievedPayload(r, prepared);
    assert Strip(WriteAdaptive(Twin(r).adaptive), false) == Strip(WriteAdaptive(r.adaptive), false);
    assert Strict(WriteAdaptive(r.adaptive)) ==> Strict(WriteAdaptive(Twin(r).adaptive));
    hide WriteAdaptive, Twin;
    forall k | k in f ensures Strip(f[k], false) == Strip(g[k], false) {
      assert k in LEGACY_RETRIEVED_FIELDS;
    }
    ObjectsStripAlike(f, g);
    if Strict(JObject(g)) {
      forall k | k in f ensures !k.Custom? && Strict(f[k]) {
        StrictField(g, k);
        if k == ResultsField { ResultsKeepStrict(r.results); }
      }
      StrictObject(f);
    }
  }

  lemma PayloadStrictIff(r: Retrieved, prepared: Json)
    ensures Strict(Envelope(RetrievedTurn, RetrievedPayload(r, prepared))) <==>
            Strict(JObject(LegacyRetrievedPayload(r, prepared))) && Strict(WriteBoundary(r.boundary))
  {
    var full, legacy := RetrievedPayload(r, prepared), LegacyRetrievedPayload(r, prepared);
    StrictPayload(RetrievedTurn, full);
    RetrievedKeys(r, prepared);
    hide LegacyRetrievedPayload, WriteBoundary, Envelope;
    assert full == legacy[RetrievalBoundaryField := WriteBoundary(r.boundary)];
    hide RetrievedPayload, Strict;
    StrictWith(legacy, RetrievalBoundaryField, WriteBoundary(r.boundary));
  }

  lemma StrictWith(fields: Fields, k: Key, value: Json)
    requires !k.Custom? && k !in fields
    ensures Strict(JObject(fields[k := value])) <==> Strict(JObject(fields)) && Strict(value)
  {
    var changed := fields[k := value];
    assert changed[k] == value && forall l | l in fields :: l != k && changed[l] == fields[l];
  }

  lemma TwinIsKnown(t: Tools, r: Retrieved)
    requires Known(t, r) && SeesNoProvenance(t.check)
    ensures Known(t, Twin(r))
  {
    hide RetrievedAccepted, RetrievedWritable, Strict, Strip, Envelope, EncodePrepared, RetrievedPayload, LegacyRetrievedPayload, Flip,
         FlipResults, SeesNoProvenance, Unbound;
    RetrievedChecked(t, r);
    TwinIsUnbound(r);
    TwinIsAccepted(t, r);
    TwinIsWritable(t.check, r);
    TwinStripsAlike(r, PreparedOf(t, r));
    PayloadStrictIff(r, PreparedOf(t, r));
    PayloadStrictIff(Twin(r), PreparedOf(t, r));
  }

  lemma ResultDiffers(x: SearchResult)
    requires HidesInResult(x)
    ensures FlipResult(x) != x
  {
    FlipChangesIffEnvelope(x.chunk);
    hide Flip;
    if !HasEnvelope(x.chunk) {
      var k :| k in x.trace && HasEnvelope(x.trace[k]);
      FlipChangesIffEnvelope(x.trace[k]);
      assert FlipFields(x.trace)[k] != x.trace[k];
    }
  }

  lemma TwinDiffers(r: Retrieved)
    requires HidesEnvelope(r)
    ensures Twin(r).adaptive != r.adaptive
  {
    hide Flip, FlipResult, HidesInResult, HasEnvelope;
    var a := r.adaptive.value;
    FlipChangesIffEnvelope(JObject(a.mergeTrace));
    FlipChangesIffEnvelope(a.detail);
    if x :| x in a.results && HidesInResult(x) {
      ResultDiffers(x);
      var i :| 0 <= i < |a.results| && a.results[i] == x;
      assert FlipResults(a.results)[i] != a.results[i];
    }
  }

  /** A turn with a hidden envelope and its twin have one oldest shape, and two artifacts. */
  lemma HiddenEnvelopesCollide(t: Tools, r: Retrieved)
    requires Known(t, r) && SeesNoProvenance(t.check) && HidesEnvelope(r)
    ensures Known(t, Twin(r)) && OldestOf(t, Twin(r)) == OldestOf(t, r) && EncodeRetrieved(t, Twin(r)) != EncodeRetrieved(t, r)
  {
    hide HidesEnvelope, Strip, Strict, LegacyRetrievedPayload, Envelope, Oldest, EncodePrepared, EncodeRetrieved, Unbound, Flip,
         FlipResults, SeesNoProvenance, BoundaryFree;
    TwinIsKnown(t, r);
    TwinStripsAlike(r, PreparedOf(t, r));
    BoundaryFreeIs(r, PreparedOf(t, r));
    BoundaryFreeIs(Twin(r), PreparedOf(t, r));
    TwinDiffers(r);
    if EncodeRetrieved(t, Twin(r)) == EncodeRetrieved(t, r) {
      RetrievedArtifactIdentifies(t, r, Twin(r));
    }
  }

  ghost predicate SharesOldestHash(t: Tools, r: Retrieved)
    requires Known(t, r)
  {
    exists s :: Known(t, s) && OldestOf(t, s) == OldestOf(t, r) && EncodeRetrieved(t, s) != EncodeRetrieved(t, r)
  }

  /** Main theorem: the oldest hash of an unbound turn is shared by a turn with another artifact exactly when
      an envelope hides in a result, the merge trace or the planning details of the turn. */
  lemma OldestHashIsSharedIffEnvelopeHidden(t: Tools, r: Retrieved)
    requires Known(t, r) && PlainReports(r) && SeesNoProvenance(t.check)
    ensures SharesOldestHash(t, r) <==> HidesEnvelope(r)
  {
    hide Known, OldestOf, EncodeRetrieved, HidesEnvelope, PlainReports, SeesNoProvenance;
    if HidesEnvelope(r) {
      HiddenEnvelopesCollide(t, r);
    } else if s :| Known(t, s) && OldestOf(t, s) == OldestOf(t, r) && EncodeRetrieved(t, s) != EncodeRetrieved(t, r) {
      OldestHashIdentifiesPlainTurns(t, r, s);
    }
  }

  // ----- which turns answer to the older hashes of another -----

  lemma BoundaryFreeStripsTo(r: Retrieved, prepared: Json)
    ensures Strip(BoundaryFree(r, prepared), false) == Oldest(r, prepared)
    ensures Strip(Oldest(r, prepared), false) == Oldest(r, prepared)
  {
    hide Strip, BoundaryFree;
    StripTwice(BoundaryFree(r, prepared), false);
  }

  /** Main theorem: the oldest hash of a turn is a candidate of another exactly when that one is unbound too
      and has the same oldest shape. */
  lemma OldestHashAnswers(t: Tools, r: Retrieved, s: Retrieved)
    requires Known(t, r) && EncodeRetrieved(t, s).Some?
    ensures RetrievedHashes(t, s).Some?
    ensures JDigest(OldestOf(t, r)) in RetrievedHashes(t, s).value <==> Unbound(s) && Known(t, s) && OldestOf(t, s) == OldestOf(t, r)
  {
    hide EncodeRetrieved, EncodePrepared, BoundaryFree, Oldest, Unbound, Strip;
    RetrievedHasPrepared(t, s);
    ShapesDiffer(t, s, r, PreparedOf(t, r));
    BoundaryFreeStripsTo(r, PreparedOf(t, r));
    BoundaryFreeStripsTo(s, EncodePrepared(t.kit, s.prepared).value);
  }

  /** Main theorem: turns share their shape without the boundary field exactly when they share their artifact. */
  lemma BoundaryFreeIdentifies(t: Tools, r: Retrieved, s: Retrieved)
    requires Known(t, r) && Known(t, s)
    ensures BoundaryFree(r, PreparedOf(t, r)) == BoundaryFree(s, PreparedOf(t, s)) <==> EncodeRetrieved(t, r) == EncodeRetrieved(t, s)
  {
    hide EncodeRetrieved, EncodePrepared, LegacyRetrievedPayload, RetrievedPayload, BoundaryFree, Oldest, Envelope, Unbound, Strip;
    BoundaryFreeIs(r, PreparedOf(t, r));
    BoundaryFreeIs(s, PreparedOf(t, s));
    if BoundaryFree(r, PreparedOf(t, r)) == BoundaryFree(s, PreparedOf(t, s)) {
      EnvelopeInjective(RetrievedTurn, LegacyRetrievedPayload(r, PreparedOf(t, r)), LegacyRetrievedPayload(s, PreparedOf(t, s)));
      SameLegacySameArtifact(t, r, s);
    }
    if EncodeRetrieved(t, r) == EncodeRetrieved(t, s) {
      RetrievedIsEnvelope(t, r);
      RetrievedIsEnvelope(t, s);
      EnvelopeInjective(RetrievedTurn, RetrievedPayload(r, PreparedOf(t, r)), RetrievedPayload(s, PreparedOf(t, s)));
      hide *;
      SamePayloadSameShape(r, s, PreparedOf(t, r), PreparedOf(t, s));
    }
  }

  lemma SamePayloadSameShape(r: Retrieved, s: Retrieved, p: Json, q: Json)
    requires RetrievedPayload(r, p) == RetrievedPayload(s, q)
    ensures BoundaryFree(r, p) == BoundaryFree(s, q)
  {
    hide RetrievedPayload;
  }

  lemma ShapesWithResultsDiffer(r: Retrieved, s: Retrieved, p: Json, q: Json)
    requires r.results != []
    ensures BoundaryFree(r, p) != Oldest(s, q)
  {
    hide LegacyRetrievedPayload, Envelope, Oldest, BoundaryFree, Strip, Items, EncodeResult;
    BoundaryFreeIs(r, p);
    BoundaryFreeIs(s, q);
    var f, g := LegacyRetrievedPayload(r, p), LegacyRetrievedPayload(s, q);
    StripOfObject(g);
    var h := Strip(JObject(g), false).fields;
    if BoundaryFree(r, p) == Oldest(s, q) {
      EnvelopeInjective(RetrievedTurn, f, h);
      LegacyFields(r, p);
      LegacyFields(s, q);
      LegacyKeysDiffer();
      assert ResultsField in g && h[ResultsField] == f[ResultsField];
      StrippedItems(s.results);
      ItemsLength(r.results, EncodeResult);
      assert EncodeResult(r.results[0]) == Strip(EncodeResult(s.results[0]), false);
      StrippedLacksProvenance(r.results[0], s.results[0]);
    }
  }

  lemma StrippedLacksProvenance(x: SearchResult, y: SearchResult)
    ensures EncodeResult(x) != Strip(EncodeResult(y), false)
  {
    hide EncodeResult, ResultFields, Strip;
    EnvelopeOfResult(x);
    StripOfResult(y);
    assert ProvenanceField in RESULT_FIELDS && ProvenanceField !in LEGACY_RESULT_FIELDS;
  }

  /** Main theorem: the hash of the shape without a boundary is, for a turn with results, a candidate exactly of
      the turns with the same artifact; without results also of those whose oldest shape it is. */
  lemma BoundaryFreeHashAnswers(t: Tools, r: Retrieved, s: Retrieved)
    requires Known(t, r) && EncodeRetrieved(t, s).Some?
    ensures RetrievedHashes(t, s).Some?
    ensures var h := JDigest(BoundaryFree(r, PreparedOf(t, r)));
            h in RetrievedHashes(t, s).value <==>
            || EncodeRetrieved(t, s) == EncodeRetrieved(t, r)
            || (r.results == [] && Known(t, s) && OldestOf(t, s) == BoundaryFree(r, PreparedOf(t, r)))
  {
    hide EncodeRetrieved, EncodePrepared, BoundaryFree, Oldest, Unbound, Strip;
    RetrievedHasPrepared(t, s);
    ShapesDiffer(t, s, r, PreparedOf(t, r));
    if EncodeRetrieved(t, s) == EncodeRetrieved(t, r) {
      RetrievedArtifactIdentifies(t, r, s);
      assert Unbound(s) by { UnboundSeesNoQuestion(r, s); }
    }
    if Unbound(s) {
      BoundaryFreeIdentifies(t, r, s);
      if r.results != [] { ShapesWithResultsDiffer(r, s, PreparedOf(t, r), PreparedOf(t, s)); }
    }
  }

  lemma UnboundSeesNoQuestion(r: Retrieved, s: Retrieved)
    requires s == r.(prepared := s.prepared) && Unbound(r)
    ensures Unbound(s)
  {
  }

  // ----- what follows for the next artifact -----

  /** Read beside another turn, a generated artifact gives what it was written from on top of that turn, if the
      two go together. */
  lemma GeneratedReadsBeside(t: Tools, g: Generated, h: Json, s: Retrieved)
    requires GeneratedWritable(t.kit, g)
    ensures GeneratedPayload(g, h).Keys == GENERATED_FIELDS && GeneratedPayload(g, h)[RetrievedSha256] == h
    ensures DecodeGeneratedFields(t, GeneratedPayload(g, h), s) ==
            if GeneratedAccepted(t.kit, g.(retrieved := s)) then Some(g.(retrieved := s)) else None
  {
    hide GeneratedPayload, WriteWord, WriteAnswer, EncodeRaw, DecodeRaw, ReadWord, ReadAnswer, ReadMode, GeneratedAccepted;
    GeneratedFields(g, h);
    OptionalAnswerRoundTrip(g.answer);
    OptionalWordRoundTrip(g.generationError);
    OptionalWordRoundTrip(g.expectedMode);
    OptionalWordRoundTrip(g.parserVersion);
    RawRoundTrip(g.raw);
  }

  /** Main theorem: a generated artifact with the oldest hash of its turn is accepted exactly beside unbound
      turns of the same oldest shape that its answer goes together with. */
  lemma OldestChainIff(t: Tools, g: Generated, j: Json, s: Retrieved)
    requires GeneratedWritable(t.kit, g) && Known(t, g.retrieved) && EncodeRetrieved(t, s).Some?
    requires Artifact(GeneratedTurn, GeneratedPayload(g, JDigest(OldestOf(t, g.retrieved)))) == Some(j)
    ensures DecodeGenerated(t, j, s) ==
            if Unbound(s) && Known(t, s) && OldestOf(t, s) == OldestOf(t, g.retrieved) && GeneratedAccepted(t.kit, g.(retrieved := s))
            then Some(g.(retrieved := s)) else None
  {
    hide EncodeRetrieved, EncodePrepared, Opened, Artifact, GeneratedPayload, RetrievedHashes, DecodeGeneratedFields, GeneratedWritable,
         GeneratedAccepted, OldestOf, Unbound, Known;
    var h := JDigest(OldestOf(t, g.retrieved));
    OpenedIffWrapped(GeneratedTurn, GeneratedPayload(g, h), j);
    GeneratedReadsBeside(t, g, h, s);
    OldestHashAnswers(t, g.retrieved, s);
  }

  /** The same for the shape without a boundary: accepted exactly beside turns with the same artifact and, when
      there are no results, beside turns whose oldest shape it is and that its answer goes together with. */
  lemma BoundaryFreeChainIff(t: Tools, g: Generated, j: Json, s: Retrieved)
    requires GeneratedWritable(t.kit, g) && Known(t, g.retrieved) && EncodeRetrieved(t, s).Some?
    requires Artifact(GeneratedTurn, GeneratedPayload(g, JDigest(BoundaryFree(g.retrieved, PreparedOf(t, g.retrieved))))) == Some(j)
    ensures DecodeGenerated(t, j, s) ==
            if || EncodeRetrieved(t, s) == EncodeRetrieved(t, g.retrieved)
               || (&& g.retrieved.results == [] && Known(t, s) && OldestOf(t, s) == BoundaryFree(g.retrieved, PreparedOf(t, g.retrieved))
                   && GeneratedAccepted(t.kit, g.(retrieved := s)))
            then Some(g.(retrieved := s)) else None
  {
    hide EncodeRetrieved, EncodePrepared, Opened, Artifact, GeneratedPayload, RetrievedHashes, DecodeGeneratedFields, GeneratedWritable,
         GeneratedAccepted, BoundaryFree, OldestOf, PreparedOf, Known;
    var h := JDigest(BoundaryFree(g.retrieved, PreparedOf(t, g.retrieved)));
    OpenedIffWrapped(GeneratedTurn, GeneratedPayload(g, h), j);
    BoundaryFreeHashAnswers(t, g.retrieved, s);
    GeneratedReadsBeside(t, g, h, s);
    KnownIsWritten(t, g.retrieved);
    if EncodeRetrieved(t, s) == EncodeRetrieved(t, g.retrieved) {
      RetrievedArtifactIdentifies(t, g.retrieved, s);
      GeneratedReads(t, g, h, s);
    }
  }

  lemma KnownIsWritten(t: Tools, r: Retrieved)
    requires Known(t, r)
    ensures EncodeRetrieved(t, r).Some?
  {
    hide EncodeRetrieved;
  }

  /** A generated turn written under an older hash decides all of the turn but its evidence. */
  lemma SameWrittenSameTurn(t: Tools, g: Generated, other: Generated, h: Json, k: Json)
    requires GeneratedWritable(t.kit, g) && GeneratedWritable(t.kit, other)
    ensures GeneratedWith(other, k) == GeneratedWith(g, h) <==> k == h && other == g.(retrieved := other.retrieved)
  {
    hide GeneratedPayload, Envelope, GeneratedAccepted, DecodeGeneratedFields;
    if GeneratedWith(other, k) == GeneratedWith(g, h) {
      SameEvidenceHash(other, g, k, h);
      EnvelopeInjective(GeneratedTurn, GeneratedPayload(other, h), GeneratedPayload(g, h));
      GeneratedReadsBeside(t, g, h, other.retrieved);
      GeneratedReadsBeside(t, other, h, other.retrieved);
      assert other.(retrieved := other.retrieved) == other;
    }
    if k == h && other == g.(retrieved := other.retrieved) {
      PayloadSeesNoEvidence(g, other.retrieved, h);
    }
  }

  lemma PayloadSeesNoEvidence(g: Generated, r: Retrieved, h: Json)
    ensures GeneratedPayload(g.(retrieved := r), h) == GeneratedPayload(g, h)
  {
    hide WriteAnswer, WriteWord, EncodeRaw;
  }

  /** A verified artifact that carries a generated hash over any retrieved hash is accepted exactly beside the
      same generated turn on top of evidence that answers to that retrieved hash. */
  lemma VerifiedOverHashIff(t: Tools, v: Verified, h: Json, j: Json, g: Generated)
    requires VerifiedAccepted(t.kit, v) && GeneratedWritable(t.kit, v.generated) && EncodeGenerated(t, g).Some?
    requires Artifact(VerifiedTurn, VerifiedPayload(v, JDigest(GeneratedWith(v.generated, h)))) == Some(j)
    ensures RetrievedHashes(t, g.retrieved).Some?
    ensures DecodeVerified(t, j, g) ==
            if h in RetrievedHashes(t, g.retrieved).value && g == v.generated.(retrieved := g.retrieved)
            then Some(v.(generated := g)) else None
  {
    hide EncodeGenerated, EncodeRetrieved, RetrievedHashes, Opened, Artifact, VerifiedPayload, DecodeVerifiedFields, VerifiedAccepted,
         GeneratedWritable, GeneratedWith, GeneratedHashes;
    var hashed := JDigest(GeneratedWith(v.generated, h));
    GeneratedIs(t, g);
    GeneratedHasRetrieved(t, g);
    OpenedIffWrapped(VerifiedTurn, VerifiedPayload(v, hashed), j);
    forall k ensures GeneratedWith(g, k) == GeneratedWith(v.generated, h) <==> k == h && g == v.generated.(retrieved := g.retrieved) {
      SameWrittenSameTurn(t, v.generated, g, h, k);
    }
    VerifiedReads(t, v, hashed, v.generated);
    if g == v.generated.(retrieved := g.retrieved) {
      VerifiedReads(t, v, hashed, g);
    }
  }

  /** Main theorem: a verified artifact over the oldest hash of its evidence is accepted exactly beside the same
      generated turn on top of unbound evidence of the same oldest shape. */
  lemma OldestVerifiedIff(t: Tools, v: Verified, j: Json, g: Generated)
    requires VerifiedAccepted(t.kit, v) && GeneratedWritable(t.kit, v.generated) && EncodeGenerated(t, g).Some?
    requires Known(t, v.generated.retrieved)
    requires Artifact(VerifiedTurn, VerifiedPayload(v, JDigest(GeneratedWith(v.generated, JDigest(OldestOf(t, v.generated.retrieved)))))) == Some(j)
    ensures DecodeVerified(t, j, g) ==
            if && g == v.generated.(retrieved := g.retrieved)
               && Known(t, g.retrieved) && OldestOf(t, g.retrieved) == OldestOf(t, v.generated.retrieved)
            then Some(v.(generated := g)) else None
  {
    hide EncodeGenerated, EncodeRetrieved, RetrievedHashes, Artifact, VerifiedPayload, VerifiedAccepted, GeneratedWritable, GeneratedWith,
         DecodeVerified, Known, OldestOf;
    GeneratedHasRetrieved(t, g);
    VerifiedOverHashIff(t, v, JDigest(OldestOf(t, v.generated.retrieved)), j, g);
    OldestHashAnswers(t, v.generated.retrieved, g.retrieved);
    KnownIsUnbound(t, g.retrieved);
  }

  lemma KnownIsUnbound(t: Tools, r: Retrieved)
    ensures Known(t, r) ==> Unbound(r)
  {
    hide Unbound, EncodeRetrieved, EncodePrepared;
  }

  /** The same over the hash of the shape without a boundary. */
  lemma BoundaryFreeVerifiedIff(t: Tools, v: Verified, j: Json, g: Generated)
    requires VerifiedAccepted(t.kit, v) && GeneratedWritable(t.kit, v.generated) && EncodeGenerated(t, g).Some?
    requires Known(t, v.generated.retrieved)
    requires var h := JDigest(BoundaryFree(v.generated.retrieved, PreparedOf(t, v.generated.retrieved)));
             Artifact(VerifiedTurn, VerifiedPayload(v, JDigest(GeneratedWith(v.generated, h)))) == Some(j)
    ensures var r, s := v.generated.retrieved, g.retrieved;
            DecodeVerified(t, j, g) ==
            if && g == v.generated.(retrieved := s)
               && (|| EncodeRetrieved(t, s) == EncodeRetrieved(t, r)
                   || (r.results == [] && Known(t, s) && OldestOf(t, s) == BoundaryFree(r, PreparedOf(t, r))))
            then Some(v.(generated := g)) else None
  {
    hide EncodeGenerated, EncodeRetrieved, RetrievedHashes, Artifact, VerifiedPayload, VerifiedAccepted, GeneratedWritable, GeneratedWith,
         DecodeVerified, Known, OldestOf, BoundaryFree, PreparedOf;
    GeneratedHasRetrieved(t, g);
    VerifiedOverHashIff(t, v, JDigest(BoundaryFree(v.generated.retrieved, PreparedOf(t, v.generated.retrieved))), j, g);
    BoundaryFreeHashAnswers(t, v.generated.retrieved, g.retrieved);
  }

  lemma AnswerGoesWithTwin(kit: Toolkit, g: Generated)
    requires GeneratedAccepted(kit, g)
    requires g.kind == RetrievalOnly ==> kit.retrievalOnlyText(Twin(g.retrieved).results) == kit.retrievalOnlyText(g.retrieved.results)
    ensures GeneratedAccepted(kit, g.(retrieved := Twin(g.retrieved)))
  {
    hide FlipResults, FlipAdaptive;
  }

  /** Main theorem: with an envelope hidden in its turn, a generated artifact that carries the oldest hash is
      accepted beside two turns with different artifacts. */
  lemma HiddenEnvelopesConfuseDecoder(t: Tools, g: Generated, j: Json)
    requires GeneratedWritable(t.kit, g) && Known(t, g.retrieved) && HidesEnvelope(g.retrieved) && SeesNoProvenance(t.check)
    requires g.kind == RetrievalOnly ==> t.kit.retrievalOnlyText(Twin(g.retrieved).results) == t.kit.retrievalOnlyText(g.retrieved.results)
    requires Artifact(GeneratedTurn, GeneratedPayload(g, JDigest(OldestOf(t, g.retrieved)))) == Some(j)
    ensures var twin := Twin(g.retrieved);
            && EncodeRetrieved(t, twin).Some? && EncodeRetrieved(t, twin) != EncodeRetrieved(t, g.retrieved)
            && DecodeGenerated(t, j, g.retrieved) == Some(g) && DecodeGenerated(t, j, twin) == Some(g.(retrieved := twin))
  {
    hide EncodeRetrieved, EncodePrepared, Artifact, GeneratedPayload, DecodeGenerated, OldestOf, HidesEnvelope, SeesNoProvenance, Twin,
         GeneratedAccepted;
    AnswerGoesWithTwin(t.kit, g);
    HiddenEnvelopesCollide(t, g.retrieved);
    OldestChainIff(t, g, j, g.retrieved);
    OldestChainIff(t, g, j, Twin(g.retrieved));
    assert g.(retrieved := g.retrieved) == g;
  }
}
