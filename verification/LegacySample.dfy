/** A turn that hides an envelope, and the generated artifact that decodes on top of it and of its twin
    (legal_rag/chat_artifacts.py, _strip_search_result_provenance, _retrieved_artifact_hash_candidates and
    generated_turn_from_artifact).  It is as small as a turn can be: an empty question, no results, and
    a planner trace that quotes a search result. */
module LegacySample {
  import opened Common
  import opened Conversation
  import opened Json
  import opened Turns
  import opened Codecs
  import opened LegacyShapes
  import opened ArtifactChain
  import opened LegacyHashes
  import opened LegacyTwins
  import opened ResultChecks

  const SAMPLE_ANSWER := Answer([], InsufficientEvidence, [], [], None, true, [], [])

  const SAMPLE_TOOLS: Tools :=
    var verdict := Verification(true, true, InsufficientEvidence, [], JNull);
    Tools(Toolkit(q => Analysis(q, [], JNull), (q, ms) => q, flags => false, flags => SAMPLE_ANSWER, e => SAMPLE_ANSWER, rs => [],
                  raw => SAMPLE_ANSWER, SAMPLE_ANSWER, w => SAMPLE_ANSWER, (a, v, e) => SAMPLE_ANSWER, (a, rs, w, e, ids) => verdict,
                  None, (rs, b) => true),
          (x: SearchResult) => x.provenance.None? && UnboundResult(x.chunk, x.trace))

  const SAMPLE_QUESTION :=
    Prepared([], [], Analysis([], [], JNull), [], SessionCheckpoint(SESSION_SCHEMA_VERSION, Checkpoint(STATE_SCHEMA_VERSION, 1, [])), [], 1, 0, 0)

  const PLANNER_TRACE := Custom(Encode("planner_trace"))

  /** A planner trace that quotes a search result. */
  const SAMPLE_TRACE: Fields := map[ArtifactSchemaVersion := JInt(RESULT_SCHEMA_VERSION), SearchResultField := JObject(map[])]

  /** What is written of a retrieval besides its results, analysis, evidence check and merge trace. */
  const SAMPLE_DETAIL: Fields :=
    var f: Fields := map[];
    f[Custom(Encode("normalized_query")) := JNull]
     [Custom(Encode("plans")) := JArray([])]
     [Custom(Encode("followup_trace")) := JObject(map[])]
     [Custom(Encode("adaptive_used")) := JBool(false)]
     [Custom(Encode("adaptive_enabled")) := JBool(true)]
     [Custom(Encode("trigger_reasons")) := JArray([])]
     [PLANNER_TRACE := JObject(SAMPLE_TRACE)]

  const SAMPLE_RETRIEVED :=
    var evidence := EvidenceCheck(false, [], JNull);
    Retrieved(SAMPLE_QUESTION, Some(Adaptive([], SAMPLE_QUESTION.analysis, evidence, map[], JObject(SAMPLE_DETAIL))), [], Some(evidence), [], map[],
              TerminalContract(Some(EvidenceLimited), Some(SAMPLE_ANSWER), Some(InsufficientEvidence)), None)

  const SAMPLE_GENERATED :=
    Generated(SAMPLE_RETRIEVED, EvidenceLimited, [], Some(SAMPLE_ANSWER), None, Some(InsufficientEvidence), NoResponse, None)

  lemma SampleQuestionIsAccepted()
    ensures PreparedAccepted(SAMPLE_TOOLS.kit, SAMPLE_QUESTION)
  {
    assert Render([]) == [] && EstimateTokens([]) == 1;
  }

  predicate PlainLeaf(j: Json) {
    j.JNull? || j.JBool? || j.JInt? || j.JDigest? || (j.JWord? && !j.word.OtherWord?) || j == JString([]) || j == JArray([])
  }

  lemma LeafIsStrict(j: Json)
    requires PlainLeaf(j)
    ensures Strict(j)
  {
  }

  lemma LeavesAreStrict(f: Fields)
    requires forall k | k in f :: !k.Custom? && PlainLeaf(f[k])
    ensures Strict(JObject(f))
  {
    forall k | k in f ensures Strict(f[k]) {
      LeafIsStrict(f[k]);
    }
  }

  lemma SampleAnalysisIsStrict()
    ensures Strict(EncodeAnalysis(SAMPLE_QUESTION.analysis))
  {
    hide Strict;
    LeavesAreStrict(EncodeAnalysis(SAMPLE_QUESTION.analysis).fields);
  }

  lemma SampleStateIsStrict()
    ensures Strict(EncodeCheckpoint(SAMPLE_QUESTION.stateBefore))
  {
    hide Strict;
    var f := EncodeCheckpoint(SAMPLE_QUESTION.stateBefore).fields;
    LeavesAreStrict(f[MemoryField].fields);
    LeafIsStrict(f[SchemaVersion]);
    StrictObject(f);
  }

  lemma SampleQuestionIsWritten()
    ensures EncodePrepared(SAMPLE_TOOLS.kit, SAMPLE_QUESTION).Some?
  {
    hide PreparedAccepted, EncodeAnalysis, EncodeCheckpoint, Envelope, PreparedPayload;
    SampleQuestionIsAccepted();
    SampleAnalysisIsStrict();
    SampleStateIsStrict();
    StrictEnvelope(PreparedQuestion, PreparedPayload(SAMPLE_QUESTION));
    SamplePayloadIsStrict();
  }

  lemma SamplePayloadIsStrict()
    ensures forall k | k in PreparedPayload(SAMPLE_QUESTION) :: !k.Custom? && Strict(PreparedPayload(SAMPLE_QUESTION)[k])
  {
    hide EncodeAnalysis, EncodeCheckpoint;
    SampleAnalysisIsStrict();
    SampleStateIsStrict();
  }

  lemma SampleGeneratedIsAccepted()
    ensures GeneratedWritable(SAMPLE_TOOLS.kit, SAMPLE_GENERATED)
  {
  }

  lemma SampleIsAccepted()
    ensures RetrievedAccepted(SAMPLE_TOOLS.kit, SAMPLE_RETRIEVED) && RetrievedWritable(SAMPLE_TOOLS.check, SAMPLE_RETRIEVED)
    ensures Unbound(SAMPLE_RETRIEVED) && GeneratedWritable(SAMPLE_TOOLS.kit, SAMPLE_GENERATED) && HidesEnvelope(SAMPLE_RETRIEVED)
  {
    hide HasEnvelope, SAMPLE_DETAIL, GeneratedWritable, UnboundResult, ValidResult;
    SampleHidesEnvelope();
    SampleGeneratedIsAccepted();
  }

  lemma SampleHidesEnvelope()
    ensures HasEnvelope(JObject(SAMPLE_DETAIL))
  {
    assert SAMPLE_TRACE.Keys == {ArtifactSchemaVersion, SearchResultField};
    assert HasEnvelope(JObject(SAMPLE_TRACE));
    assert PLANNER_TRACE in SAMPLE_DETAIL && SAMPLE_DETAIL[PLANNER_TRACE] == JObject(SAMPLE_TRACE);
    hide *;
    FieldShowsEnvelope(SAMPLE_DETAIL, PLANNER_TRACE);
  }

  /** Writing a field with an ASCII name. */
  lemma StrictNamed(f: Fields, s: string, value: Json)
    requires Strict(JObject(f)) && Strict(value) && forall i | 0 <= i < |s| :: s[i] as int < 128
    ensures Strict(JObject(f[Custom(Encode(s)) := value]))
  {
    assert ValidUnicode(Encode(s));
    hide Encode, ValidUnicode, Strict;
    StrictObjectIff(f);
    StrictObjectIff(f[Custom(Encode(s)) := value]);
  }

  lemma SampleTraceIsStrict()
    ensures Strict(JObject(SAMPLE_TRACE)) && Strict(JObject(map[]))
  {
    hide Strict;
    LeavesAreStrict(map[]);
    LeafIsStrict(JInt(RESULT_SCHEMA_VERSION));
    StrictObject(SAMPLE_TRACE);
  }

  lemma SampleDetailIsStrict()
    ensures Strict(JObject(SAMPLE_DETAIL))
  {
    hide Strict, Encode, SAMPLE_TRACE;
    SampleTraceIsStrict();
    LeafIsStrict(JNull);
    LeafIsStrict(JArray([]));
    LeafIsStrict(JBool(false));
    LeafIsStrict(JBool(true));
    var f: Fields := map[];
    StrictNamed(f, "normalized_query", JNull);
    f := f[Custom(Encode("normalized_query")) := JNull];
    StrictNamed(f, "plans", JArray([]));
    f := f[Custom(Encode("plans")) := JArray([])];
    StrictNamed(f, "followup_trace", JObject(map[]));
    f := f[Custom(Encode("followup_trace")) := JObject(map[])];
    StrictNamed(f, "adaptive_used", JBool(false));
    f := f[Custom(Encode("adaptive_used")) := JBool(false)];
    StrictNamed(f, "adaptive_enabled", JBool(true));
    f := f[Custom(Encode("adaptive_enabled")) := JBool(true)];
    StrictNamed(f, "trigger_reasons", JArray([]));
    f := f[Custom(Encode("trigger_reasons")) := JArray([])];
    StrictNamed(f, "planner_trace", JObject(SAMPLE_TRACE));
  }

  lemma SampleRetrievalIsStrict()
    ensures Strict(EncodeAdaptive(SAMPLE_RETRIEVED.adaptive.value)) && Strict(EncodeEvidence(SAMPLE_RETRIEVED.evidence.value))
  {
    hide Strict, EncodeAnalysis;
    SampleAnalysisIsStrict();
    LeavesAreStrict(EncodeEvidence(SAMPLE_RETRIEVED.evidence.value).fields);
    LeavesAreStrict(map[]);
    SampleDetailIsStrict();
    hide SAMPLE_DETAIL;
    var a := SAMPLE_RETRIEVED.adaptive.value;
    AdaptiveFields(a);
    hide EncodeEvidence, EncodeAdaptive;
    NoResultsAreStrict();
    forall k | k in EncodeAdaptive(a).fields ensures !k.Custom? && Strict(EncodeAdaptive(a).fields[k]) {
      assert k in {ResultsField, AnalysisField, EvidenceCheckField, MergeTrace, DetailField};
    }
    StrictObject(EncodeAdaptive(a).fields);
  }

  lemma NoResultsAreStrict()
    ensures Strict(JArray(Items<SearchResult>([], EncodeResult))) && Strict(JObject(map[]))
  {
  }

  lemma SampleAnswerIsStrict()
    ensures Strict(WriteAnswer(Some(SAMPLE_ANSWER)))
  {
    hide Strict;
    LeavesAreStrict(EncodeAnswer(SAMPLE_ANSWER).fields);
  }

  lemma SampleLeaves()
    ensures PlainLeaf(WriteWord(Some(EvidenceLimited))) && PlainLeaf(WriteWord(Some(InsufficientEvidence))) && PlainLeaf(WriteWord(None))
    ensures PlainLeaf(Texts([])) && PlainLeaf(JArray(Items<SearchResult>([], EncodeResult)))
  {
  }

  lemma NothingIsStrict()
    ensures Strict(TextMap(map[])) && Strict(WriteBoundary(None))
  {
  }

  lemma NoRawIsStrict()
    ensures Strict(EncodeRaw(NoResponse))
  {
  }

  lemma SamplePayloadIsWritten(prepared: Json)
    ensures Strict(Envelope(RetrievedTurn, RetrievedPayload(SAMPLE_RETRIEVED, prepared)))
  {
    hide Strict, EncodeAdaptive, EncodeEvidence, EncodeAnswer, WriteWord, Texts, TextMap, Envelope, RetrievedPayload, LegacyRetrievedPayload,
         Items, PlainLeaf, WriteBoundary;
    SampleRetrievalIsStrict();
    SampleAnswerIsStrict();
    SampleLeaves();
    NothingIsStrict();
    hide WriteAnswer;
    var f := LegacyRetrievedPayload(SAMPLE_RETRIEVED, prepared);
    PayloadStrictIff(SAMPLE_RETRIEVED, prepared);
    LegacyFields(SAMPLE_RETRIEVED, prepared);
    DigestIsLeaf(prepared);
    forall k | k in f ensures !k.Custom? && Strict(f[k]) {
      assert k in LEGACY_RETRIEVED_FIELDS;
      if PlainLeaf(f[k]) { LeafIsStrict(f[k]); }
    }
    StrictObject(f);
  }

  lemma DigestIsLeaf(j: Json)
    ensures PlainLeaf(JDigest(j))
  {
  }

  lemma WrittenIsKnown(t: Tools, r: Retrieved)
    requires RetrievedAccepted(t.kit, r) && RetrievedWritable(t.check, r) && Unbound(r) && EncodePrepared(t.kit, r.prepared).Some?
    requires Strict(Envelope(RetrievedTurn, RetrievedPayload(r, EncodePrepared(t.kit, r.prepared).value)))
    ensures Known(t, r)
  {
    hide RetrievedAccepted, RetrievedWritable, Unbound, EncodePrepared, Strict, Envelope, RetrievedPayload;
  }

  lemma SampleIsKnown()
    ensures Known(SAMPLE_TOOLS, SAMPLE_RETRIEVED)
  {
    hide RetrievedAccepted, RetrievedWritable, EncodePrepared, Unbound, Strict, Envelope, RetrievedPayload, Known;
    SampleQuestionIsWritten();
    SampleIsAccepted();
    SamplePayloadIsWritten(EncodePrepared(SAMPLE_TOOLS.kit, SAMPLE_QUESTION).value);
    WrittenIsKnown(SAMPLE_TOOLS, SAMPLE_RETRIEVED);
  }

  lemma StrictPartsAreWritten(g: Generated, h: Json)
    requires Strict(h) && Strict(JWord(g.kind)) && Strict(JString(g.answerText)) && Strict(WriteAnswer(g.answer)) && Strict(EncodeRaw(g.raw))
    requires Strict(WriteWord(g.generationError)) && Strict(WriteWord(g.expectedMode)) && Strict(WriteWord(g.parserVersion))
    ensures Artifact(GeneratedTurn, GeneratedPayload(g, h)).Some?
  {
    hide Strict, WriteAnswer, WriteWord, Envelope, GeneratedPayload, EncodeRaw;
    var f := GeneratedPayload(g, h);
    GeneratedFields(g, h);
    forall k | k in f ensures !k.Custom? && Strict(f[k]) {
      assert k in GENERATED_FIELDS;
    }
    StrictEnvelope(GeneratedTurn, f);
  }

  lemma SampleGeneratedIsWritten(hashed: Json)
    ensures Artifact(GeneratedTurn, GeneratedPayload(SAMPLE_GENERATED, JDigest(hashed))).Some?
  {
    hide Strict, WriteAnswer, WriteWord, GeneratedPayload, EncodeRaw, PlainLeaf, Artifact;
    SampleAnswerIsStrict();
    SampleLeaves();
    NoRawIsStrict();
    DigestIsLeaf(hashed);
    WordAndTextAreLeaves();
    LeafIsStrict(JDigest(hashed));
    LeafIsStrict(JWord(EvidenceLimited));
    LeafIsStrict(JString([]));
    LeafIsStrict(WriteWord(Some(InsufficientEvidence)));
    LeafIsStrict(WriteWord(None));
    StrictPartsAreWritten(SAMPLE_GENERATED, JDigest(hashed));
  }

  lemma WordAndTextAreLeaves()
    ensures PlainLeaf(JWord(EvidenceLimited)) && PlainLeaf(JString([]))
  {
  }

  lemma SampleToolsCheck()
    ensures ChecksUnbound(SAMPLE_TOOLS.check) && ShowsTexts(SAMPLE_TOOLS.kit)
  {
    hide UnboundResult, SameShown;
  }

  /** There are turns that hide an envelope: one generated artifact that decodes on top of two different ones. */
  lemma OneArtifactBesideTwoTurns() returns (t: Tools, g: Generated, h: Generated, j: Json)
    ensures EncodeRetrieved(t, g.retrieved).Some? && EncodeRetrieved(t, h.retrieved).Some?
    ensures EncodeRetrieved(t, g.retrieved) != EncodeRetrieved(t, h.retrieved)
    ensures ChecksUnbound(t.check) && ShowsTexts(t.kit)
    ensures DecodeGenerated(t, j, g.retrieved) == Some(g) && DecodeGenerated(t, j, h.retrieved) == Some(h)
  {
    hide EncodeRetrieved, DecodeGenerated, OldestOf, GeneratedWritable, HidesEnvelope, Artifact, GeneratedPayload, Known,
         ChecksUnbound, ShowsTexts;
    t, g := SAMPLE_TOOLS, SAMPLE_GENERATED;
    SampleIsKnown();
    SampleIsAccepted();
    SampleGeneratedIsWritten(OldestOf(t, g.retrieved));
    j := Artifact(GeneratedTurn, GeneratedPayload(g, JDigest(OldestOf(t, g.retrieved)))).value;
    KnownIsWritten(t, g.retrieved);
    SampleToolsCheck();
    HiddenEnvelopesConfuse(t, g, j);
    h := g.(retrieved := Twin(g.retrieved));
  }
}
