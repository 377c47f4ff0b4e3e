/** Decoding read backwards: which JSON a decoder accepts (legal_rag/chat_artifacts.py, legal_rag/evaluation_artifacts.py).
    Round trips say that what was written is accepted; here nothing else is. */
module Canonical {
  import opened Common
  import opened Conversation
  import opened Json
  import opened Turns
  import opened Session
  import opened Codecs
  import opened SourceMaps
  import opened LegacyShapes
  import opened ArtifactChain

  // ----- lists, maps and optional parts -----

  lemma {:induction false} ItemsBack<T>(items: seq<Json>, read: Json -> Option<T>, write: T -> Json)
    requires ItemsOf(items, read).Some?
    requires forall j | j in items :: read(j).Some? ==> write(read(j).value) == j
    ensures Items(ItemsOf(items, read).value, write) == items
  {
    if items != [] {
      ItemsBack(items[1..], read, write);
      var first, rest := read(items[0]).value, ItemsOf(items[1..], read).value;
      assert ([first] + rest)[1..] == rest;
      assert items[0] in items;
    }
  }

  lemma TextsBack(j: Json, ts: seq<Text>)
    ensures ListOf(j, TextOf) == Some(ts) <==> j == Texts(ts)
  {
    TextsRead(ts);
    if ListOf(j, TextOf) == Some(ts) {
      ItemsBack(j.items, TextOf, (t: Text) => JString(t));
    }
  }

  lemma TextMapBack(j: Json, m: map<Text, Text>)
    requires NoBlanks(m)
    ensures TextMapOf(j) == Some(m) <==> j == TextMap(m)
  {
    hide Blank;
    TextMapRead(m);
    if TextMapOf(j) == Some(m) {
      forall k | k in j.fields ensures k in TextMap(m).fields && TextMap(m).fields[k] == j.fields[k] {
        assert k == Custom(k.name);
      }
      forall k | k in TextMap(m).fields ensures k in j.fields {
        var named :| named in j.fields && named.name == k.name;
        assert named == Custom(named.name);
      }
    }
  }

  // ----- the parts of a turn -----

  lemma AnalysisBack(j: Json, a: Analysis)
    ensures DecodeAnalysis(j) == Some(a) <==> j == EncodeAnalysis(a)
  {
    hide ListOf, Texts;
    AnalysisRoundTrip(a);
    if DecodeAnalysis(j) == Some(a) {
      TextsBack(j.fields[RiskFlags], a.riskFlags);
      assert j.fields == EncodeAnalysis(a).fields;
    }
  }

  lemma EvidenceBack(j: Json, e: EvidenceCheck)
    ensures DecodeEvidence(j) == Some(e) <==> j == EncodeEvidence(e)
  {
    hide ListOf, Texts;
    EvidenceRoundTrip(e);
    if DecodeEvidence(j) == Some(e) {
      TextsBack(j.fields[MissingFacts], e.missingFacts);
      assert j.fields == EncodeEvidence(e).fields;
    }
  }

  lemma VerificationBack(j: Json, v: Verification)
    ensures DecodeVerification(j) == Some(v) <==> j == EncodeVerification(v)
  {
    VerificationRoundTrip(v);
    if DecodeVerification(j) == Some(v) {
      assert j.fields == EncodeVerification(v).fields;
    }
  }

  lemma BoundaryBack(j: Json, b: Boundary)
    ensures DecodeBoundary(j) == Some(b) <==> j == EncodeBoundary(b)
  {
    BoundaryRoundTrip(b);
    if DecodeBoundary(j) == Some(b) {
      assert j.fields == EncodeBoundary(b).fields;
    }
  }

  lemma ProvenanceBack(j: Json, p: Provenance)
    ensures DecodeProvenance(j) == Some(p) <==> j == EncodeProvenance(p)
  {
    hide DecodeBoundary, EncodeBoundary;
    ProvenanceRoundTrip(p);
    if DecodeProvenance(j) == Some(p) {
      BoundaryBack(j.fields[BoundaryField], p.boundary);
      assert j.fields == EncodeProvenance(p).fields;
    }
  }

  lemma ClaimBack(j: Json, c: Claim)
    ensures DecodeClaim(j) == Some(c) <==> j == EncodeClaim(c)
  {
    hide ListOf, Texts;
    ClaimRoundTrip(c);
    if DecodeClaim(j) == Some(c) {
      TextsBack(j.fields[SourceIds], c.sourceIds);
      assert j.fields == EncodeClaim(c).fields;
    }
  }

  lemma ClaimsBack(j: Json, claims: seq<Claim>)
    ensures ListOf(j, DecodeClaim) == Some(claims) <==> j == JArray(Items(claims, EncodeClaim))
  {
    hide DecodeClaim, EncodeClaim;
    ClaimsRead(claims);
    if ListOf(j, DecodeClaim) == Some(claims) {
      forall x | x in j.items && DecodeClaim(x).Some? ensures EncodeClaim(DecodeClaim(x).value) == x {
        ClaimBack(x, DecodeClaim(x).value);
      }
      ItemsBack(j.items, DecodeClaim, EncodeClaim);
    }
  }

  const ANSWER_FIELDS: set<Key> :=
    {AnswerTextField, AnswerMode, ClaimsField, LimitationsField, Clarification, SchemaValid, AdapterSource, ParseErrors}

  lemma AnswerFields(a: Answer)
    ensures var f := EncodeAnswer(a).fields;
            && f.Keys == ANSWER_FIELDS
            && f[AnswerTextField] == JString(a.text) && f[AnswerMode] == JWord(a.mode)
            && f[ClaimsField] == JArray(Items(a.claims, EncodeClaim)) && f[LimitationsField] == Texts(a.limitations)
            && f[Clarification] == Maybe(a.clarification, t => JString(t)) && f[SchemaValid] == JBool(a.schemaValid)
            && f[AdapterSource] == JString(a.adapterSource) && f[ParseErrors] == Texts(a.parseErrors)
  {
    hide Items, Texts, Maybe;
  }

  lemma AnswerBack(j: Json, a: Answer)
    ensures DecodeAnswer(j) == Some(a) <==> j == EncodeAnswer(a)
  {
    hide ListOf, Texts, Items, DecodeClaim, EncodeClaim;
    AnswerRoundTrip(a);
    if DecodeAnswer(j) == Some(a) {
      ClaimsBack(j.fields[ClaimsField], a.claims);
      TextsBack(j.fields[LimitationsField], a.limitations);
      TextsBack(j.fields[ParseErrors], a.parseErrors);
      AnswerFields(a);
      hide EncodeAnswer;
      forall k | k in ANSWER_FIELDS ensures j.fields[k] == EncodeAnswer(a).fields[k] {
      }
      assert j.fields == EncodeAnswer(a).fields;
    }
  }

  lemma RawBack(j: Json, raw: RawResponse)
    ensures DecodeRaw(j) == Some(raw) <==> j == EncodeRaw(raw)
  {
    hide DecodeAnswer, EncodeAnswer;
    RawRoundTrip(raw);
    if DecodeRaw(j) == Some(raw) {
      if raw.StructuredResponse? { AnswerBack(j.fields[ValueField], raw.answer); }
      assert j.fields == EncodeRaw(raw).fields;
    }
  }

  lemma MessageBack(j: Json, m: Message)
    ensures DecodeMessage(j) == Some(m) <==> KnownRole(m.role) && j == EncodeMessage(m)
  {
    hide Encode;
    if DecodeMessage(j) == Some(m) {
      assert j.fields == EncodeMessage(m).fields;
    }
    if KnownRole(m.role) { MessageRoundTrip(m); }
  }

  lemma {:induction false} MessagesKnown(items: seq<Json>)
    requires ItemsOf(items, DecodeMessage).Some?
    ensures forall m | m in ItemsOf(items, DecodeMessage).value :: KnownRole(m.role)
  {
    if items != [] {
      MessagesKnown(items[1..]);
      MessageBack(items[0], DecodeMessage(items[0]).value);
    }
  }

  lemma CheckpointBack(j: Json, c: SessionCheckpoint)
    ensures DecodeCheckpoint(j) == Some(c) <==> (forall m | m in c.memory.messages :: KnownRole(m.role)) && j == EncodeCheckpoint(c)
  {
    hide DecodeMessage, EncodeMessage;
    if DecodeCheckpoint(j) == Some(c) {
      var inner := j.fields[MemoryField];
      var items := inner.fields[MessagesField].items;
      MessagesKnown(items);
      forall x | x in items && DecodeMessage(x).Some? ensures EncodeMessage(DecodeMessage(x).value) == x {
        MessageBack(x, DecodeMessage(x).value);
      }
      ItemsBack(items, DecodeMessage, EncodeMessage);
      assert inner.fields == EncodeCheckpoint(c).fields[MemoryField].fields;
      assert j.fields == EncodeCheckpoint(c).fields;
    }
    if forall m | m in c.memory.messages :: KnownRole(m.role) { CheckpointRoundTrip(c); }
  }

  // ----- optional parts -----

  lemma OptionalBack<T>(j: Json, x: Option<T>, read: Json -> Option<T>, write: T -> Json)
    requires x.Some? ==> (read(j) == Some(x.value) <==> j == write(x.value)) && !write(x.value).JNull?
    ensures MaybeOf(j, read) == Some(x) <==> j == Maybe(x, write)
  {
  }

  lemma WordBack(j: Json, x: Option<Word>)
    ensures ReadWord(j) == Some(x) <==> j == WriteWord(x)
    ensures ReadMode(j) == Some(x) <==> j == WriteWord(x) && KnownModeOrNone(x)
  {
  }

  lemma OptionalAnswerBack(j: Json, x: Option<Answer>)
    ensures ReadAnswer(j) == Some(x) <==> j == WriteAnswer(x)
  {
    if x.Some? { AnswerBack(j, x.value); }
    assert x.Some? ==> !EncodeAnswer(x.value).JNull?;
    hide DecodeAnswer, EncodeAnswer;
    OptionalBack(j, x, DecodeAnswer, EncodeAnswer);
  }

  lemma OptionalVerificationBack(j: Json, x: Option<Verification>)
    ensures ReadVerification(j) == Some(x) <==> j == WriteVerification(x)
  {
    if x.Some? { VerificationBack(j, x.value); }
    assert x.Some? ==> !EncodeVerification(x.value).JNull?;
    hide DecodeVerification, EncodeVerification;
    OptionalBack(j, x, DecodeVerification, EncodeVerification);
  }

  lemma OptionalEvidenceBack(j: Json, x: Option<EvidenceCheck>)
    ensures ReadEvidence(j) == Some(x) <==> j == WriteEvidence(x)
  {
    if x.Some? { EvidenceBack(j, x.value); }
    assert x.Some? ==> !EncodeEvidence(x.value).JNull?;
    hide DecodeEvidence, EncodeEvidence;
    OptionalBack(j, x, DecodeEvidence, EncodeEvidence);
  }

  lemma OptionalBoundaryBack(j: Json, x: Option<Boundary>)
    ensures ReadBoundary(j) == Some(x) <==> j == WriteBoundary(x)
  {
    if x.Some? { BoundaryBack(j, x.value); }
    assert x.Some? ==> !EncodeBoundary(x.value).JNull?;
    hide DecodeBoundary, EncodeBoundary;
    OptionalBack(j, x, DecodeBoundary, EncodeBoundary);
  }

  // ----- prepared questions -----

  /** Main theorem: a cached preparation is decoded to q exactly when q is what the assistant would prepare now and
      the artifact is the one q is written to. */
  lemma PreparedDecodedIff(kit: Toolkit, s: AssistantState, j: Json, q: Prepared)
    requires WellKept(s.memory)
    ensures DecodePrepared(kit, s, j) == Some(q) <==> PreparedAt(s, q) && EncodePrepared(kit, q) == Some(j)
  {
    if DecodePrepared(kit, s, j) == Some(q) {
      PreparedBack(kit, s, j, q);
    }
    hide DecodePrepared, EncodePrepared, CurrentCheckpoint, Render, WellKept;
    if PreparedAt(s, q) && EncodePrepared(kit, q) == Some(j) {
      PreparedRebinds(kit, q, s, j);
    }
  }

  lemma PreparedBack(kit: Toolkit, s: AssistantState, j: Json, q: Prepared)
    requires WellKept(s.memory) && DecodePrepared(kit, s, j) == Some(q)
    ensures PreparedAt(s, q) && EncodePrepared(kit, q) == Some(j)
  {
    hide WellKept, Strict, Opened, Artifact, DecodeAnalysis, EncodeAnalysis, DecodeCheckpoint, EncodeCheckpoint, CheckpointProblem, Render, Bind;
    var f := Opened(PreparedQuestion, j).value;
    var original, standalone, memoryText := f[OriginalQuestion].text, f[StandaloneQuestion].text, f[MemoryTextField].text;
    var analysis, before := DecodeAnalysis(f[AnalysisField]).value, DecodeCheckpoint(f[SessionStateBefore]).value;
    assert Bind(kit, s, original, standalone, analysis, memoryText, before) == Ok(q);
    BindIsPrepare(kit, s, original, standalone, analysis, memoryText, before);
    ExportProblem(s.memory);
    BoundIs(kit, s, original, standalone, analysis, memoryText, before, q);
    AnalysisBack(f[AnalysisField], analysis);
    CheckpointBack(f[SessionStateBefore], before);
    assert f == PreparedPayload(q);
    OpenedIffWrapped(PreparedQuestion, PreparedPayload(q), j);
    WellKeptLimit(s.memory);
  }

  lemma WellKeptLimit(m: MemoryState)
    requires WellKept(m)
    ensures m.tokenLimit >= 1
  {
  }

  lemma BoundIs(kit: Toolkit, s: AssistantState, original: Text, standalone: Text, analysis: Analysis, memoryText: Text,
                before: SessionCheckpoint, q: Prepared)
    requires Bind(kit, s, original, standalone, analysis, memoryText, before) == Ok(q)
    ensures q == PreparedWith(s, original, standalone, analysis) && before == CurrentCheckpoint(s) && memoryText == Render(s.memory.messages)
    ensures analysis.originalQuery == standalone && analysis == kit.analyze(standalone)
    ensures CheckpointProblem(before.memory, s.memory.tokenLimit).None? && before.schemaVersion == SESSION_SCHEMA_VERSION
  {
    hide CheckpointProblem, Render, UnicodeMessages, ValidUnicode;
  }

  // ----- generated turns -----

  lemma GeneratedFieldsBack(t: Tools, f: Fields, r: Retrieved, g: Generated)
    requires f.Keys == GENERATED_FIELDS
    ensures DecodeGeneratedFields(t, f, r) == Some(g) <==>
            g.retrieved == r && GeneratedWritable(t.kit, g) && f == GeneratedPayload(g, f[RetrievedSha256])
  {
    hide ReadWord, ReadMode, ReadAnswer, WriteWord, WriteAnswer, DecodeRaw, EncodeRaw, GeneratedAccepted, GeneratedPayload;
    GeneratedFields(g, f[RetrievedSha256]);
    OptionalAnswerBack(f[AnswerField], g.answer);
    WordBack(f[GenerationErrorField], g.generationError);
    WordBack(f[ExpectedModeField], g.expectedMode);
    WordBack(f[ParserVersionField], g.parserVersion);
    RawBack(f[RawResponseField], g.raw);
  }

  /** Main theorem: beside a retrieved turn r, exactly those artifacts are decoded that some generated turn over r is
      written to, under one of the hashes r answers to; and they are decoded to that turn. */
  lemma GeneratedDecodedIff(t: Tools, j: Json, r: Retrieved, g: Generated)
    ensures DecodeGenerated(t, j, r) == Some(g) <==>
            && g.retrieved == r && GeneratedWritable(t.kit, g) && RetrievedHashes(t, r).Some?
            && exists h | h in RetrievedHashes(t, r).value :: Artifact(GeneratedTurn, GeneratedPayload(g, h)) == Some(j)
  {
    hide DecodeGeneratedFields, GeneratedPayload, GeneratedWritable, RetrievedHashes, Opened, Artifact;
    forall h ensures GeneratedPayload(g, h).Keys == GENERATED_FIELDS && GeneratedPayload(g, h)[RetrievedSha256] == h {
      GeneratedFields(g, h);
    }
    forall payload ensures Opened(GeneratedTurn, j) == Some(payload) <==> Artifact(GeneratedTurn, payload) == Some(j) {
      OpenedIffWrapped(GeneratedTurn, payload, j);
    }
    if Opened(GeneratedTurn, j).Some? && Opened(GeneratedTurn, j).value.Keys == GENERATED_FIELDS {
      GeneratedFieldsBack(t, Opened(GeneratedTurn, j).value, r, g);
    }
  }

  // ----- verified turns -----

  lemma VerifiedFieldsBack(t: Tools, f: Fields, g: Generated, v: Verified)
    requires f.Keys == VERIFIED_FIELDS
    ensures DecodeVerifiedFields(t, f, g) == Some(v) <==>
            v.generated == g && VerifiedAccepted(t.kit, v) && f == VerifiedPayload(v, f[GeneratedSha256])
  {
    hide ReadAnswer, WriteAnswer, ReadVerification, WriteVerification, VerifiedAccepted, VerifiedPayload;
    VerifiedFields(v, f[GeneratedSha256]);
    OptionalAnswerBack(f[FinalAnswerField], v.finalAnswer);
    OptionalAnswerBack(f[PreFallbackAnswerField], v.preFallbackAnswer);
    OptionalVerificationBack(f[VerificationField], v.verification);
    OptionalVerificationBack(f[PreFallbackVerificationField], v.preFallbackVerification);
  }

  /** Main theorem: the same for verified artifacts beside a generated turn. */
  lemma VerifiedDecodedIff(t: Tools, j: Json, g: Generated, v: Verified)
    ensures DecodeVerified(t, j, g) == Some(v) <==>
            && v.generated == g && VerifiedAccepted(t.kit, v) && GeneratedHashes(t, g).Some?
            && exists h | h in GeneratedHashes(t, g).value :: Artifact(VerifiedTurn, VerifiedPayload(v, h)) == Some(j)
  {
    hide DecodeVerifiedFields, VerifiedPayload, VerifiedAccepted, GeneratedHashes, Opened, Artifact;
    forall h ensures VerifiedPayload(v, h).Keys == VERIFIED_FIELDS && VerifiedPayload(v, h)[GeneratedSha256] == h {
      VerifiedFields(v, h);
    }
    forall payload ensures Opened(VerifiedTurn, j) == Some(payload) <==> Artifact(VerifiedTurn, payload) == Some(j) {
      OpenedIffWrapped(VerifiedTurn, payload, j);
    }
    if Opened(VerifiedTurn, j).Some? && Opened(VerifiedTurn, j).value.Keys == VERIFIED_FIELDS {
      VerifiedFieldsBack(t, Opened(VerifiedTurn, j).value, g, v);
    }
  }

  // ----- search results -----

  /** A search result as it is written, or with its score as another JSON number, or as it was before provenance. */
  function ResultJson(r: SearchResult, score: Json, legacy: bool): Json {
    var f := map[ChunkField := r.chunk, ScoreField := score, RankField := JInt(r.rank), RetrieverField := JString(r.retriever),
                 TraceField := JObject(r.trace)];
    JObject(map[ArtifactSchemaVersion := JInt(RESULT_SCHEMA_VERSION),
                SearchResultField := JObject(if legacy then f else f[ProvenanceField := Maybe(r.provenance, EncodeProvenance)])])
  }

  predicate SpelledWith(j: Json, r: SearchResult, score: Json, legacy: bool) {
    NumberOf(score) == Some(r.score) && (legacy ==> r.provenance.None?) && j == ResultJson(r, score, legacy)
  }

  ghost predicate Spells(j: Json, r: SearchResult) {
    exists score, legacy :: SpelledWith(j, r, score, legacy)
  }

  lemma OptionalProvenanceBack(j: Json, x: Option<Provenance>)
    ensures MaybeOf(j, DecodeProvenance) == Some(x) <==> j == Maybe(x, EncodeProvenance)
  {
    if x.Some? { ProvenanceBack(j, x.value); }
    assert x.Some? ==> !EncodeProvenance(x.value).JNull?;
    hide DecodeProvenance, EncodeProvenance;
    OptionalBack(j, x, DecodeProvenance, EncodeProvenance);
  }

  lemma ResultFieldsBack(check: ResultCheck, f: map<Key, Json>, r: SearchResult)
    requires LEGACY_RESULT_FIELDS <= f.Keys
    ensures DecodeResultFields(check, f) == Some(r) <==>
            && ValidResult(check, r) && f[ChunkField] == r.chunk && NumberOf(f[ScoreField]) == Some(r.score) && f[RankField] == JInt(r.rank)
            && f[RetrieverField] == JString(r.retriever) && f[TraceField] == JObject(r.trace)
            && if ProvenanceField in f then f[ProvenanceField] == Maybe(r.provenance, EncodeProvenance) else r.provenance.None?
  {
    hide DecodeProvenance, EncodeProvenance, Maybe, MaybeOf, ValidResult, NumberOf;
    if ProvenanceField in f { OptionalProvenanceBack(f[ProvenanceField], r.provenance); }
  }

  lemma ResultKeys(r: SearchResult, score: Json, legacy: bool)
    ensures var j := ResultJson(r, score, legacy);
            && j.JObject? && j.fields.Keys == {ArtifactSchemaVersion, SearchResultField}
            && j.fields[ArtifactSchemaVersion] == JInt(RESULT_SCHEMA_VERSION)
            && j.fields[SearchResultField].JObject?
            && var f := j.fields[SearchResultField].fields;
            && f.Keys == (if legacy then LEGACY_RESULT_FIELDS else LEGACY_RESULT_FIELDS + {ProvenanceField})
            && f[ChunkField] == r.chunk && f[ScoreField] == score && f[RankField] == JInt(r.rank)
            && f[RetrieverField] == JString(r.retriever) && f[TraceField] == JObject(r.trace)
            && (!legacy ==> f[ProvenanceField] == Maybe(r.provenance, EncodeProvenance))
  {
    hide EncodeProvenance, Maybe;
  }

  /** Main theorem: exactly these spellings of a valid result are decoded, to that result. */
  lemma ResultDecodedIff(check: ResultCheck, j: Json, r: SearchResult)
    ensures DecodeResult(check, j) == Some(r) <==> ValidResult(check, r) && Spells(j, r)
    ensures SpelledWith(EncodeResult(r), r, JReal(r.score), false)
  {
    hide ValidResult, DecodeResultFields, EncodeProvenance, Maybe, NumberOf, ResultJson;
    if DecodeResult(check, j) == Some(r) {
      DecodedSpells(check, j, r);
    }
    if ValidResult(check, r) && Spells(j, r) {
      var score, legacy :| SpelledWith(j, r, score, legacy);
      ResultKeys(r, score, legacy);
      ResultFieldsBack(check, j.fields[SearchResultField].fields, r);
    }
    EncodedIsSpelled(r);
  }

  lemma EncodedIsSpelled(r: SearchResult)
    ensures SpelledWith(EncodeResult(r), r, JReal(r.score), false)
  {
    hide EncodeProvenance, Maybe;
    assert EncodeResult(r).fields[SearchResultField].fields == ResultJson(r, JReal(r.score), false).fields[SearchResultField].fields;
  }

  lemma DecodedSpells(check: ResultCheck, j: Json, r: SearchResult)
    requires DecodeResult(check, j) == Some(r)
    ensures ValidResult(check, r) && Spells(j, r)
  {
    hide ValidResult, DecodeResultFields, EncodeProvenance, Maybe, NumberOf, ResultJson;
    var f := j.fields[SearchResultField].fields;
    var legacy := f.Keys == LEGACY_RESULT_FIELDS;
    ResultFieldsBack(check, f, r);
    ResultKeys(r, f[ScoreField], legacy);
    var k := ResultJson(r, f[ScoreField], legacy);
    assert f == k.fields[SearchResultField].fields;
    assert j.fields == k.fields;
    assert SpelledWith(j, r, f[ScoreField], legacy);
  }

  // ----- retrieved turns -----

  ghost predicate SpellsResults(j: Json, results: seq<SearchResult>) {
    j.JArray? && |j.items| == |results| && forall i | 0 <= i < |results| :: Spells(j.items[i], results[i])
  }

  lemma {:induction false} ItemsDecodedIff(check: ResultCheck, items: seq<Json>, results: seq<SearchResult>)
    ensures ItemsOf(items, x => DecodeResult(check, x)) == Some(results) <==>
            |items| == |results| && forall i | 0 <= i < |results| :: DecodeResult(check, items[i]) == Some(results[i])
  {
    hide DecodeResult;
    var read := x => DecodeResult(check, x);
    if items != [] && results != [] {
      ItemsDecodedIff(check, items[1..], results[1..]);
      assert results == [results[0]] + results[1..];
      if forall i | 0 <= i < |results| :: |items| == |results| && DecodeResult(check, items[i]) == Some(results[i]) {
        assert forall i | 0 <= i < |results| - 1 :: items[1..][i] == items[i + 1] && results[1..][i] == results[i + 1];
      }
      if ItemsOf(items, read) == Some(results) {
        var rest := ItemsOf(items[1..], read).value;
        assert ([read(items[0]).value] + rest)[1..] == rest;
        forall i | 0 <= i < |results| ensures |items| == |results| && DecodeResult(check, items[i]) == Some(results[i]) {
          if i > 0 { assert items[1..][i - 1] == items[i] && results[1..][i - 1] == results[i]; }
        }
      }
    }
  }

  lemma ResultsDecodedIff(check: ResultCheck, j: Json, results: seq<SearchResult>)
    ensures ReadResults(check, j) == Some(results) <==> ValidResults(check, results) && SpellsResults(j, results)
  {
    hide ValidResult, Spells, DecodeResult;
    if j.JArray? {
      ItemsDecodedIff(check, j.items, results);
      if |j.items| == |results| {
        forall i | 0 <= i < |results|
          ensures DecodeResult(check, j.items[i]) == Some(results[i]) <==> ValidResult(check, results[i]) && Spells(j.items[i], results[i])
        {
          ResultDecodedIff(check, j.items[i], results[i]);
        }
        ValidOneByOne(check, results);
      }
    }
  }

  lemma ValidOneByOne(check: ResultCheck, results: seq<SearchResult>)
    ensures ValidResults(check, results) <==> forall i | 0 <= i < |results| :: ValidResult(check, results[i])
  {
    hide ValidResult;
    if ValidResults(check, results) {
      forall i | 0 <= i < |results| ensures ValidResult(check, results[i]) {
        assert results[i] in results;
      }
    }
  }

  const ADAPTIVE_KEYS: set<Key> := {ResultsField, AnalysisField, EvidenceCheckField, MergeTrace, DetailField}

  ghost predicate SpellsAdaptive(j: Json, a: Adaptive) {
    && j.JObject? && j.fields.Keys == ADAPTIVE_KEYS && SpellsResults(j.fields[ResultsField], a.results)
    && j.fields[AnalysisField] == EncodeAnalysis(a.analysis) && j.fields[EvidenceCheckField] == EncodeEvidence(a.evidence)
    && j.fields[MergeTrace] == JObject(a.mergeTrace) && j.fields[DetailField] == a.detail
  }

  lemma AdaptiveDecodedIff(check: ResultCheck, j: Json, a: Adaptive)
    ensures DecodeAdaptive(check, j) == Some(a) <==> ValidResults(check, a.results) && SpellsAdaptive(j, a)
  {
    hide ReadResults, DecodeAnalysis, EncodeAnalysis, DecodeEvidence, EncodeEvidence, SpellsResults, ValidResults;
    if j.JObject? && j.fields.Keys == ADAPTIVE_KEYS {
      ResultsDecodedIff(check, j.fields[ResultsField], a.results);
      AnalysisBack(j.fields[AnalysisField], a.analysis);
      EvidenceBack(j.fields[EvidenceCheckField], a.evidence);
    }
  }

  ghost predicate SpellsOptionalAdaptive(j: Json, x: Option<Adaptive>) {
    if x.None? then j.JNull? else SpellsAdaptive(j, x.value)
  }

  lemma OptionalAdaptiveDecodedIff(check: ResultCheck, j: Json, x: Option<Adaptive>)
    ensures ReadAdaptive(check, j) == Some(x) <==> (x.Some? ==> ValidResults(check, x.value.results)) && SpellsOptionalAdaptive(j, x)
  {
    if x.Some? { AdaptiveDecodedIff(check, j, x.value); }
    assert SpellsOptionalAdaptive(j, x) && x.Some? ==> j.JObject?;
    hide DecodeAdaptive, SpellsAdaptive, ValidResults;
  }

  /** A retrieved turn as it is written, up to the spelling of its results; without the field for the boundary that
      has to be the one of the results. */
  ghost predicate SpellsRetrieved(f: Fields, r: Retrieved, prepared: Json) {
    && (f.Keys == LEGACY_RETRIEVED_FIELDS || f.Keys == LEGACY_RETRIEVED_FIELDS + {RetrievalBoundaryField})
    && f[PreparedSha256] == JDigest(prepared) && SpellsOptionalAdaptive(f[AdaptiveResultField], r.adaptive)
    && SpellsResults(f[ResultsField], r.results) && f[EvidenceCheckField] == WriteEvidence(r.evidence)
    && f[RejectedSourceIds] == Texts(r.rejectedIds) && f[SourceIdMap] == TextMap(r.sourceMap)
    && f[TerminalKind] == WriteWord(r.terminal.kind) && f[TerminalAnswer] == WriteAnswer(r.terminal.answer)
    && f[TerminalMode] == WriteWord(r.terminal.mode)
    && (if RetrievalBoundaryField in f then f[RetrievalBoundaryField] == WriteBoundary(r.boundary)
        else BoundaryOfResults(r.results) == Some(r.boundary))
  }

  lemma FieldsReadIff(t: Tools, f: Fields, r: Retrieved)
    requires LEGACY_RETRIEVED_FIELDS <= f.Keys && NoBlanks(r.sourceMap)
    ensures FieldsRead(t, f, r) <==>
            && RetrievedWritable(t.check, r) && SpellsOptionalAdaptive(f[AdaptiveResultField], r.adaptive)
            && SpellsResults(f[ResultsField], r.results) && f[EvidenceCheckField] == WriteEvidence(r.evidence)
            && f[RejectedSourceIds] == Texts(r.rejectedIds) && f[SourceIdMap] == TextMap(r.sourceMap)
            && f[TerminalKind] == WriteWord(r.terminal.kind) && f[TerminalAnswer] == WriteAnswer(r.terminal.answer)
            && f[TerminalMode] == WriteWord(r.terminal.mode)
  {
    hide NoBlanks, WriteEvidence, WriteWord, WriteAnswer, Texts, TextMap, KnownModeOrNone, ReadResults, ReadAdaptive, ReadEvidence, TextMapOf,
         ReadWord, ReadAnswer, ReadMode, SpellsOptionalAdaptive, SpellsResults, ValidResults, ListOf;
    ResultsDecodedIff(t.check, f[ResultsField], r.results);
    OptionalAdaptiveDecodedIff(t.check, f[AdaptiveResultField], r.adaptive);
    OptionalEvidenceBack(f[EvidenceCheckField], r.evidence);
    TextsBack(f[RejectedSourceIds], r.rejectedIds);
    TextMapBack(f[SourceIdMap], r.sourceMap);
    WordBack(f[TerminalKind], r.terminal.kind);
    OptionalAnswerBack(f[TerminalAnswer], r.terminal.answer);
    WordBack(f[TerminalMode], r.terminal.mode);
  }

  lemma RetrievedFieldsBack(t: Tools, f: Fields, p: Prepared, prepared: Json, r: Retrieved)
    requires f.Keys == LEGACY_RETRIEVED_FIELDS || f.Keys == LEGACY_RETRIEVED_FIELDS + {RetrievalBoundaryField}
    ensures DecodeRetrievedFields(t, f, p, prepared) == Some(r) <==>
            r.prepared == p && RetrievedAccepted(t.kit, r) && RetrievedWritable(t.check, r) && SpellsRetrieved(f, r, prepared)
  {
    hide RetrievedWritable, NoBlanks, WriteEvidence, WriteWord, WriteAnswer, Texts, TextMap, KnownModeOrNone, ReadResults, ReadAdaptive,
         ReadEvidence, ReadTexts, TextMapOf, ReadWord, ReadAnswer, ReadMode, SpellsOptionalAdaptive, SpellsResults, BoundaryOfResults,
         RetrievedAccepted, ReadBoundary, WriteBoundary;
    if RetrievedAccepted(t.kit, r) {
      AcceptanceHasNoBlanks(t.kit, r);
      FieldsReadIff(t, f, r);
    }
    if RetrievalBoundaryField in f { OptionalBoundaryBack(f[RetrievalBoundaryField], r.boundary); }
  }

  /** Main theorem: beside a question p, exactly those artifacts are decoded to r that spell a valid, accepted turn r
      over p and carry the hash of the artifact of p. */
  lemma RetrievedDecodedIff(t: Tools, j: Json, p: Prepared, r: Retrieved)
    ensures DecodeRetrieved(t, j, p) == Some(r) <==>
            && r.prepared == p && RetrievedAccepted(t.kit, r) && RetrievedWritable(t.check, r) && EncodePrepared(t.kit, p).Some?
            && exists f :: Artifact(RetrievedTurn, f) == Some(j) && SpellsRetrieved(f, r, EncodePrepared(t.kit, p).value)
  {
    hide DecodeRetrievedFields, RetrievedAccepted, RetrievedWritable, EncodePrepared, Opened, Artifact;
    forall payload ensures Opened(RetrievedTurn, j) == Some(payload) <==> Artifact(RetrievedTurn, payload) == Some(j) {
      OpenedIffWrapped(RetrievedTurn, payload, j);
    }
    if Opened(RetrievedTurn, j).Some? && EncodePrepared(t.kit, p).Some? {
      var f := Opened(RetrievedTurn, j).value;
      if f.Keys == LEGACY_RETRIEVED_FIELDS || f.Keys == LEGACY_RETRIEVED_FIELDS + {RetrievalBoundaryField} {
        RetrievedFieldsBack(t, f, p, EncodePrepared(t.kit, p).value, r);
      }
      assert Artifact(RetrievedTurn, f) == Some(j);
    }
    hide SpellsRetrieved;
  }
}
