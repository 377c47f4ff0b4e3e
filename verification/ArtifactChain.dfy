/** Stage artifacts of a chat turn (legal_rag/chat_artifacts.py): the encoders and decoders of prepared,
    retrieved, generated and verified turns, the relationships each demands, and the hashes that chain one
    stage to the next, current and older shapes included.  The main theorems say which predecessor an
    artifact is accepted beside. */
module ArtifactChain {
  import opened Common
  import opened Conversation
  import opened Json
  import opened Turns
  import opened Session
  import opened Codecs
  import opened SourceMaps
  import opened LegacyShapes

  const CHAIN_SCHEMA_VERSION := 1

  type Fields = map<Key, Json>

  /** Everything the encoders and decoders call that is not modelled. */
  datatype Tools = Tools(kit: Toolkit, check: ResultCheck)

  // ----- envelopes -----

  function Envelope(kind: Word, payload: Fields): Json {
    JObject(map[ArtifactSchemaVersion := JInt(CHAIN_SCHEMA_VERSION), ArtifactKind := JWord(kind), Payload := JObject(payload)])
  }

  /** _artifact: refused unless every string in it is proper Unicode. */
  function Artifact(kind: Word, payload: Fields): Option<Json> {
    if Strict(Envelope(kind, payload)) then Some(Envelope(kind, payload)) else None
  }

  /** _artifact_payload */
  function Opened(kind: Word, j: Json): Option<Fields> {
    if !Strict(j) then None
    else match Exactly(j, {ArtifactSchemaVersion, ArtifactKind, Payload})
      case None => None
      case Some(f) =>
        if f[ArtifactSchemaVersion] != JInt(CHAIN_SCHEMA_VERSION) || f[ArtifactKind] != JWord(kind) then None
        else FieldsOf(f[Payload])
  }

  /** Opening is the exact inverse of wrapping. */
  lemma OpenedIffWrapped(kind: Word, payload: Fields, j: Json)
    ensures Opened(kind, j) == Some(payload) <==> Artifact(kind, payload) == Some(j)
  {
    hide Strict, Encode;
    if Opened(kind, j) == Some(payload) {
      assert j.fields == Envelope(kind, payload).fields;
    }
  }

  // ----- prepared questions -----

  predicate PreparedAccepted(kit: Toolkit, p: Prepared) {
    && p.analysis.originalQuery == p.standalone && p.analysis == kit.analyze(p.standalone)
    && p.stateBefore.schemaVersion == SESSION_SCHEMA_VERSION && p.tokenLimit >= 1
    && CheckpointProblem(p.stateBefore.memory, p.tokenLimit).None?
    && p.stateBefore.memory.messages == p.messagesBefore
    && p.memoryText == Render(p.messagesBefore)
  }

  /** Neither revision is part of what is written. */
  function PreparedPayload(p: Prepared): Fields {
    map[OriginalQuestion := JString(p.original), StandaloneQuestion := JString(p.standalone),
        AnalysisField := EncodeAnalysis(p.analysis), MemoryTextField := JString(p.memoryText),
        SessionStateBefore := EncodeCheckpoint(p.stateBefore)]
  }

  function EncodePrepared(kit: Toolkit, p: Prepared): Option<Json> {
    if PreparedAccepted(kit, p) then Artifact(PreparedQuestion, PreparedPayload(p)) else None
  }

  /** prepared_question_from_artifact binds what it reads to the assistant's present state. */
  function DecodePrepared(kit: Toolkit, s: AssistantState, j: Json): Option<Prepared> {
    match Opened(PreparedQuestion, j)
    case None => None
    case Some(payload) =>
      match Exactly(JObject(payload), {OriginalQuestion, StandaloneQuestion, AnalysisField, MemoryTextField, SessionStateBefore})
      case None => None
      case Some(f) =>
        match (TextOf(f[OriginalQuestion]), TextOf(f[StandaloneQuestion]), DecodeAnalysis(f[AnalysisField]), TextOf(f[MemoryTextField]),
               DecodeCheckpoint(f[SessionStateBefore]))
        case (Some(original), Some(standalone), Some(analysis), Some(memoryText), Some(before)) =>
          (match Bind(kit, s, original, standalone, analysis, memoryText, before)
           case Ok(p) => Some(p)
           case Err(_) => None)
        case _ => None
  }

  predicate SameButRevisions(p: Prepared, q: Prepared) {
    q == p.(memoryRevision := q.memoryRevision, sessionRevision := q.sessionRevision)
  }

  lemma AcceptanceKnowsRoles(kit: Toolkit, p: Prepared)
    requires PreparedAccepted(kit, p)
    ensures forall m | m in p.stateBefore.memory.messages :: KnownRole(m.role)
    ensures UnicodeMessages(p.stateBefore.memory.messages)
    ensures p.stateBefore.memory.tokenLimit == p.tokenLimit
  {
    hide Render, EstimateTokens, Alternating;
  }

  lemma PreparedFieldsRead(kit: Toolkit, p: Prepared)
    requires PreparedAccepted(kit, p)
    ensures var f := PreparedPayload(p);
            && TextOf(f[OriginalQuestion]) == Some(p.original) && TextOf(f[StandaloneQuestion]) == Some(p.standalone)
            && DecodeAnalysis(f[AnalysisField]) == Some(p.analysis) && TextOf(f[MemoryTextField]) == Some(p.memoryText)
            && DecodeCheckpoint(f[SessionStateBefore]) == Some(p.stateBefore)
  {
    AcceptanceKnowsRoles(kit, p);
    AnalysisRoundTrip(p.analysis);
    CheckpointRoundTrip(p.stateBefore);
    hide *;
    hide PreparedAccepted, EncodeAnalysis, DecodeAnalysis, EncodeCheckpoint, DecodeCheckpoint;
  }

  /** Two preparations have the same artifact exactly when they differ in nothing but their revisions. */
  lemma PreparedForgetsRevisions(kit: Toolkit, p: Prepared, q: Prepared)
    requires PreparedAccepted(kit, p) && PreparedAccepted(kit, q)
    ensures PreparedPayload(p) == PreparedPayload(q) <==> SameButRevisions(p, q)
  {
    PreparedFieldsRead(kit, p);
    PreparedFieldsRead(kit, q);
    AcceptanceKnowsRoles(kit, p);
    AcceptanceKnowsRoles(kit, q);
    hide DecodeAnalysis, EncodeAnalysis, DecodeCheckpoint, EncodeCheckpoint, Render, CheckpointProblem;
  }

  /** A cached preparation is accepted exactly by an assistant whose session state is the one it came from,
      and comes back with that assistant's revisions. */
  lemma PreparedRebinds(kit: Toolkit, p: Prepared, s: AssistantState, j: Json)
    requires EncodePrepared(kit, p) == Some(j)
    ensures DecodePrepared(kit, s, j) ==
            if p.stateBefore == CurrentCheckpoint(s)
            then Some(p.(memoryRevision := s.memory.revision, sessionRevision := s.sessionRevision)) else None
  {
    OpenedIffWrapped(PreparedQuestion, PreparedPayload(p), j);
    PreparedFieldsRead(kit, p);
    AcceptanceKnowsRoles(kit, p);
    StrictFields(PreparedQuestion, PreparedPayload(p), OriginalQuestion);
    StrictFields(PreparedQuestion, PreparedPayload(p), StandaloneQuestion);
    StrictFields(PreparedQuestion, PreparedPayload(p), MemoryTextField);
    assert ValidUnicode(p.original) && ValidUnicode(p.standalone) && ValidUnicode(p.memoryText);
    assert Exactly(JObject(PreparedPayload(p)), {OriginalQuestion, StandaloneQuestion, AnalysisField, MemoryTextField, SessionStateBefore})
           == Some(PreparedPayload(p));
    hide Strict, DecodeAnalysis, EncodeAnalysis, DecodeCheckpoint, EncodeCheckpoint, Render, Opened, Artifact, Encode, ValidUnicode,
         UnicodeMessages, Exactly, PreparedPayload, TextOf;
    var c := p.stateBefore.memory;
    if p.stateBefore == CurrentCheckpoint(s) {
      assert s.memory.tokenLimit == p.tokenLimit;
    }
  }

  lemma StrictFields(kind: Word, payload: Fields, key: Key)
    requires Strict(Envelope(kind, payload)) && key in payload
    ensures Strict(payload[key])
  {
    hide Encode;
    assert Strict(Envelope(kind, payload).fields[Payload]);
  }

  // ----- retrieved turns -----

  function LimitedMode(e: EvidenceCheck): Word {
    if e.missingFacts != [] then NeedsClarification else InsufficientEvidence
  }

  predicate MappingAccepted(adaptive: Adaptive, r: Retrieved) {
    if r.rejectedIds != [] then ScopeFilteredAccepted(adaptive, r.results, r.sourceMap, r.rejectedIds)
    else UnfilteredAccepted(adaptive.results, r.results, r.sourceMap, r.rejectedIds)
  }

  predicate SourceIdsAccepted(r: Retrieved) {
    && NoBlanks(r.sourceMap)
    && (forall id | id in r.sourceMap :: IsSourceId(id) && IsSourceId(r.sourceMap[id]))
    && (forall id | id in r.rejectedIds :: IsSourceId(id))
    && OrderedUnique(r.rejectedIds) == r.rejectedIds
  }

  /** _validate_retrieved_relationships */
  predicate RetrievedAccepted(kit: Toolkit, r: Retrieved) {
    var flags := r.prepared.analysis.riskFlags;
    && (r.boundary.Some? ==> kit.matchesBoundary(r.results, r.boundary))
    && (r.boundary.None? ==> forall x | x in r.results :: x.provenance.None?)
    && match r.adaptive
       case None =>
         && kit.refuses(flags) && r.results == [] && r.evidence.None? && r.rejectedIds == [] && r.sourceMap == map[]
         && r.terminal == TerminalContract(Some(PreRetrievalRefusal), Some(kit.refusalAnswer(flags)), Some(OutOfScope))
       case Some(adaptive) =>
         && !kit.refuses(flags) && adaptive.analysis == r.prepared.analysis && r.evidence == Some(adaptive.evidence)
         && SourceIdsAccepted(r) && MappingAccepted(adaptive, r)
         && if r.results == [] || !adaptive.evidence.sufficient then
              r.terminal == TerminalContract(Some(EvidenceLimited), Some(kit.limitedAnswer(adaptive.evidence)), Some(LimitedMode(adaptive.evidence)))
            else r.terminal == NO_TERMINAL
  }

  /** What the encoders of the parts demand. */
  predicate RetrievedWritable(check: ResultCheck, r: Retrieved) {
    && ValidResults(check, r.results)
    && (r.adaptive.Some? ==> ValidResults(check, r.adaptive.value.results))
    && KnownModeOrNone(r.terminal.mode)
  }

  function LegacyRetrievedPayload(r: Retrieved, prepared: Json): Fields {
    map[PreparedSha256 := JDigest(prepared), AdaptiveResultField := WriteAdaptive(r.adaptive),
        ResultsField := JArray(Items(r.results, EncodeResult)), EvidenceCheckField := WriteEvidence(r.evidence),
        RejectedSourceIds := Texts(r.rejectedIds), SourceIdMap := TextMap(r.sourceMap),
        TerminalKind := WriteWord(r.terminal.kind), TerminalAnswer := WriteAnswer(r.terminal.answer),
        TerminalMode := WriteWord(r.terminal.mode)]
  }

  function RetrievedPayload(r: Retrieved, prepared: Json): Fields {
    LegacyRetrievedPayload(r, prepared)[RetrievalBoundaryField := WriteBoundary(r.boundary)]
  }

  const LEGACY_RETRIEVED_FIELDS: set<Key> :=
    {PreparedSha256, AdaptiveResultField, ResultsField, EvidenceCheckField, RejectedSourceIds, SourceIdMap, TerminalKind,
     TerminalAnswer, TerminalMode}

  function EncodeRetrieved(t: Tools, r: Retrieved): Option<Json> {
    if !RetrievedAccepted(t.kit, r) || !RetrievedWritable(t.check, r) then None
    else match EncodePrepared(t.kit, r.prepared)
      case None => None
      case Some(prepared) => Artifact(RetrievedTurn, RetrievedPayload(r, prepared))
  }

  /** _retrieval_boundary_from_results: None when they disagree. */
  function BoundaryOfResults(results: seq<SearchResult>): Option<Option<Boundary>> {
    if forall r | r in results :: r.provenance.None? then Some(None)
    else if forall r, s | r in results && s in results ::
              r.provenance.Some? && s.provenance.Some? && r.provenance.value.boundary == s.provenance.value.boundary
    then Some(Some(results[0].provenance.value.boundary))
    else None
  }

  /** The legacy shape lacks the boundary, which is then recovered from the results. */
  function DecodeRetrievedFields(t: Tools, f: Fields, p: Prepared, prepared: Json): Option<Retrieved>
    requires LEGACY_RETRIEVED_FIELDS <= f.Keys
  {
    if f[PreparedSha256] != JDigest(prepared) then None
    else
      match (ReadResults(t.check, f[ResultsField]), ReadAdaptive(t.check, f[AdaptiveResultField]),
             ReadEvidence(f[EvidenceCheckField]), ReadTexts(f[RejectedSourceIds]))
      case (Some(results), Some(adaptive), Some(evidence), Some(rejected)) =>
        (match (TextMapOf(f[SourceIdMap]), ReadWord(f[TerminalKind]), ReadAnswer(f[TerminalAnswer]), ReadMode(f[TerminalMode]))
         case (Some(sourceMap), Some(kind), Some(answer), Some(mode)) =>
           (match if RetrievalBoundaryField in f then ReadBoundary(f[RetrievalBoundaryField]) else BoundaryOfResults(results)
            case None => None
            case Some(boundary) =>
              var r := Retrieved(p, adaptive, results, evidence, rejected, sourceMap, TerminalContract(kind, answer, mode), boundary);
              if RetrievedAccepted(t.kit, r) then Some(r) else None)
         case _ => None)
      case _ => None
  }

  function DecodeRetrieved(t: Tools, j: Json, p: Prepared): Option<Retrieved> {
    match (Opened(RetrievedTurn, j), EncodePrepared(t.kit, p))
    case (Some(f), Some(prepared)) =>
      if f.Keys == LEGACY_RETRIEVED_FIELDS || f.Keys == LEGACY_RETRIEVED_FIELDS + {RetrievalBoundaryField}
      then DecodeRetrievedFields(t, f, p, prepared) else None
    case _ => None
  }

  /** Each field reads back as the part it was written from. */
  predicate FieldsRead(t: Tools, f: Fields, r: Retrieved)
    requires LEGACY_RETRIEVED_FIELDS <= f.Keys
  {
    && ReadResults(t.check, f[ResultsField]) == Some(r.results) && ReadAdaptive(t.check, f[AdaptiveResultField]) == Some(r.adaptive)
    && ReadEvidence(f[EvidenceCheckField]) == Some(r.evidence) && ReadTexts(f[RejectedSourceIds]) == Some(r.rejectedIds)
    && TextMapOf(f[SourceIdMap]) == Some(r.sourceMap) && ReadWord(f[TerminalKind]) == Some(r.terminal.kind)
    && ReadAnswer(f[TerminalAnswer]) == Some(r.terminal.answer) && ReadMode(f[TerminalMode]) == Some(r.terminal.mode)
  }

  lemma RetrievedFieldsRead(t: Tools, r: Retrieved, prepared: Json)
    requires RetrievedWritable(t.check, r) && NoBlanks(r.sourceMap)
    ensures FieldsRead(t, LegacyRetrievedPayload(r, prepared), r)
  {
    ResultsRead(t.check, r.results);
    OptionalAdaptiveRoundTrip(t.check, r.adaptive);
    OptionalEvidenceRoundTrip(r.evidence);
    OptionalAnswerRoundTrip(r.terminal.answer);
    OptionalWordRoundTrip(r.terminal.kind);
    OptionalWordRoundTrip(r.terminal.mode);
    TextListRoundTrip(r.rejectedIds);
    TextMapRead(r.sourceMap);
    LegacyFields(r, prepared);
    hide RetrievedWritable, NoBlanks, LegacyRetrievedPayload, WriteAdaptive, WriteEvidence, WriteWord, WriteAnswer, Texts, TextMap, Items,
         KnownModeOrNone, ReadResults, ReadAdaptive, ReadEvidence, ReadTexts, TextMapOf, ReadWord, ReadAnswer, ReadMode;
  }

  lemma LegacyFields(r: Retrieved, prepared: Json)
    ensures var f := LegacyRetrievedPayload(r, prepared);
            && f.Keys == LEGACY_RETRIEVED_FIELDS
            && f[PreparedSha256] == JDigest(prepared) && f[AdaptiveResultField] == WriteAdaptive(r.adaptive)
            && f[ResultsField] == JArray(Items(r.results, EncodeResult)) && f[EvidenceCheckField] == WriteEvidence(r.evidence)
            && f[RejectedSourceIds] == Texts(r.rejectedIds) && f[SourceIdMap] == TextMap(r.sourceMap)
            && f[TerminalKind] == WriteWord(r.terminal.kind) && f[TerminalAnswer] == WriteAnswer(r.terminal.answer)
            && f[TerminalMode] == WriteWord(r.terminal.mode)
  {
    hide WriteAdaptive, WriteEvidence, WriteWord, WriteAnswer, Texts, TextMap, Items;
  }

  lemma AcceptanceHasNoBlanks(kit: Toolkit, r: Retrieved)
    requires RetrievedAccepted(kit, r)
    ensures NoBlanks(r.sourceMap)
  {
    hide MappingAccepted;
  }

  /** The prepared question enters the relationships only through its analysis. */
  lemma AcceptanceSeesOnlyAnalysis(kit: Toolkit, r: Retrieved, q: Prepared)
    requires q.analysis == r.prepared.analysis
    ensures RetrievedAccepted(kit, r.(prepared := q)) <==> RetrievedAccepted(kit, r)
  {
    hide NoBlanks, IsSourceId, OrderedUnique, ScopeFilteredAccepted, UnfilteredAccepted;
  }

  lemma ReadFieldsDecode(t: Tools, r: Retrieved, q: Prepared, prepared: Json, f: Fields)
    requires LEGACY_RETRIEVED_FIELDS <= f.Keys && FieldsRead(t, f, r) && f[PreparedSha256] == JDigest(prepared)
    requires if RetrievalBoundaryField in f then ReadBoundary(f[RetrievalBoundaryField]) == Some(r.boundary)
             else BoundaryOfResults(r.results) == Some(r.boundary)
    requires RetrievedAccepted(t.kit, r) && q.analysis == r.prepared.analysis
    ensures DecodeRetrievedFields(t, f, q, prepared) == Some(r.(prepared := q))
  {
    AcceptanceSeesOnlyAnalysis(t.kit, r, q);
    hide RetrievedAccepted, ReadResults, ReadAdaptive, ReadEvidence, ReadTexts, TextMapOf, ReadWord, ReadAnswer, ReadMode,
         ReadBoundary, BoundaryOfResults;
  }

  lemma RetrievedReads(t: Tools, r: Retrieved, q: Prepared, prepared: Json)
    requires RetrievedAccepted(t.kit, r) && RetrievedWritable(t.check, r) && q.analysis == r.prepared.analysis
    ensures DecodeRetrievedFields(t, RetrievedPayload(r, prepared), q, prepared) == Some(r.(prepared := q))
  {
    var f := RetrievedPayload(r, prepared);
    AcceptanceHasNoBlanks(t.kit, r);
    RetrievedFieldsRead(t, r, prepared);
    OptionalBoundaryRoundTrip(r.boundary);
    RetrievedKeys(r, prepared);
    BoundaryAside(t, LegacyRetrievedPayload(r, prepared), r, WriteBoundary(r.boundary));
    assert f == LegacyRetrievedPayload(r, prepared)[RetrievalBoundaryField := WriteBoundary(r.boundary)];
    hide *;
    ReadFieldsDecode(t, r, q, prepared, f);
  }

  lemma BoundaryAside(t: Tools, f: Fields, r: Retrieved, b: Json)
    requires LEGACY_RETRIEVED_FIELDS <= f.Keys && FieldsRead(t, f, r)
    ensures FieldsRead(t, f[RetrievalBoundaryField := b], r)
  {
    hide ReadResults, ReadAdaptive, ReadEvidence, ReadTexts, TextMapOf, ReadWord, ReadAnswer, ReadMode;
  }

  /** Main theorem: a retrieved artifact is accepted exactly beside a prepared question with the artifact that
      was hashed into it, and gives back the turn with that question. */
  lemma RetrievedDecodesOnlyAgainstItsQuestion(t: Tools, r: Retrieved, j: Json, q: Prepared)
    requires EncodeRetrieved(t, r) == Some(j)
    ensures DecodeRetrieved(t, j, q) ==
            if EncodePrepared(t.kit, q) == EncodePrepared(t.kit, r.prepared) then Some(r.(prepared := q)) else None
  {
    var prepared := EncodePrepared(t.kit, r.prepared).value;
    var f := RetrievedPayload(r, prepared);
    OpenedIffWrapped(RetrievedTurn, f, j);
    RetrievedKeys(r, prepared);
    if EncodePrepared(t.kit, q) == Some(prepared) {
      SameArtifactSamePayload(t.kit, q, r.prepared);
      RetrievedReads(t, r, q, prepared);
      hide *;
    } else {
      hide Opened, Artifact, EncodePrepared, RetrievedPayload, RetrievedAccepted, ReadResults, ReadAdaptive;
    }
    hide *;
    hide DecodeRetrievedFields, RetrievedPayload, EncodePrepared, Opened;
  }

  lemma RetrievedKeys(r: Retrieved, prepared: Json)
    ensures RetrievedPayload(r, prepared).Keys == LEGACY_RETRIEVED_FIELDS + {RetrievalBoundaryField}
    ensures LegacyRetrievedPayload(r, prepared).Keys == LEGACY_RETRIEVED_FIELDS
    ensures RetrievedPayload(r, prepared)[PreparedSha256] == JDigest(prepared)
  {
    hide WriteBoundary, WriteAdaptive, WriteEvidence, WriteWord, WriteAnswer, Texts, TextMap, Items;
  }

  lemma SameArtifactSamePayload(kit: Toolkit, p: Prepared, q: Prepared)
    requires EncodePrepared(kit, p).Some? && EncodePrepared(kit, p) == EncodePrepared(kit, q)
    ensures SameButRevisions(p, q)
  {
    var j := EncodePrepared(kit, p).value;
    OpenedIffWrapped(PreparedQuestion, PreparedPayload(p), j);
    OpenedIffWrapped(PreparedQuestion, PreparedPayload(q), j);
    PreparedForgetsRevisions(kit, p, q);
    hide Opened, Artifact, PreparedPayload, PreparedAccepted;
  }

  /** Round trip. */
  lemma RetrievedRoundTrip(t: Tools, r: Retrieved, j: Json)
    requires EncodeRetrieved(t, r) == Some(j)
    ensures DecodeRetrieved(t, j, r.prepared) == Some(r)
  {
    RetrievedDecodesOnlyAgainstItsQuestion(t, r, j, r.prepared);
  }

  /** Turns with one artifact differ in nothing but the revisions of their question. */
  lemma RetrievedArtifactIdentifies(t: Tools, r: Retrieved, s: Retrieved)
    requires EncodeRetrieved(t, r).Some? && EncodeRetrieved(t, r) == EncodeRetrieved(t, s)
    ensures s == r.(prepared := s.prepared) && SameButRevisions(r.prepared, s.prepared)
  {
    var j := EncodeRetrieved(t, r).value;
    RetrievedRoundTrip(t, s, j);
    RetrievedDecodesOnlyAgainstItsQuestion(t, r, j, s.prepared);
    RetrievedHasPrepared(t, r);
    hide DecodeRetrieved, EncodeRetrieved;
    SameArtifactSamePayload(t.kit, r.prepared, s.prepared);
  }

  lemma RetrievedHasPrepared(t: Tools, r: Retrieved)
    requires EncodeRetrieved(t, r).Some?
    ensures EncodePrepared(t.kit, r.prepared).Some?
  {
    hide RetrievedAccepted, RetrievedWritable, EncodePrepared, Artifact;
  }

  // ----- the hashes a retrieved turn answers to -----

  /** Nothing in the turn was retrieved under a boundary. */
  predicate Unbound(r: Retrieved) {
    && r.boundary.None? && (forall x | x in r.results :: x.provenance.None?)
    && (r.adaptive.Some? ==> forall x | x in r.adaptive.value.results :: x.provenance.None?)
  }

  /** The shape without a boundary field, and the older one whose search results have no provenance either. */
  function BoundaryFree(r: Retrieved, prepared: Json): Json {
    Envelope(RetrievedTurn, RetrievedPayload(r, prepared) - {RetrievalBoundaryField})
  }

  function Oldest(r: Retrieved, prepared: Json): Json {
    Strip(BoundaryFree(r, prepared), false)
  }

  /** _retrieved_artifact_hash_candidates; None when the turn cannot be written. */
  function RetrievedHashes(t: Tools, r: Retrieved): Option<set<Json>> {
    match (EncodeRetrieved(t, r), EncodePrepared(t.kit, r.prepared))
    case (Some(current), Some(prepared)) =>
      if !Unbound(r) then Some({JDigest(current)})
      else Some({JDigest(current), JDigest(BoundaryFree(r, prepared)), JDigest(Oldest(r, prepared))})
    case _ => None
  }

  lemma ScalarsStay(i: int, word: Word)
    ensures Strip(JInt(i), false) == JInt(i) && Strip(JWord(word), false) == JWord(word)
  {
  }

  lemma StripEnvelope(kind: Word, payload: Fields)
    ensures Strip(JObject(payload), false).JObject? && Strip(JObject(payload), false).fields.Keys == payload.Keys
    ensures Strip(Envelope(kind, payload), false) == Envelope(kind, Strip(JObject(payload), false).fields)
  {
    hide Encode, Strip;
    StripOfObject(payload);
    ScalarsStay(CHAIN_SCHEMA_VERSION, kind);
    var f := Envelope(kind, payload).fields;
    var g := Envelope(kind, Strip(JObject(payload), false).fields).fields;
    assert ArtifactKind in f.Keys && !IsEnvelope(f, f.Keys);
    hide IsEnvelope;
    StripOfObject(f);
    forall k | k in f ensures Strip(JObject(f), false).fields[k] == g[k] {
      assert k in {ArtifactSchemaVersion, ArtifactKind, Payload};
    }
    SameFields(Strip(JObject(f), false).fields, g);
  }

  lemma BoundaryFreeIs(r: Retrieved, prepared: Json)
    ensures BoundaryFree(r, prepared) == Envelope(RetrievedTurn, LegacyRetrievedPayload(r, prepared))
    ensures Oldest(r, prepared) ==
            Envelope(RetrievedTurn, Strip(JObject(LegacyRetrievedPayload(r, prepared)), false).fields)
    ensures Strip(JObject(LegacyRetrievedPayload(r, prepared)), false).fields.Keys == LEGACY_RETRIEVED_FIELDS
  {
    RetrievedKeys(r, prepared);
    var legacy := LegacyRetrievedPayload(r, prepared);
    StripEnvelope(RetrievedTurn, legacy);
    hide LegacyRetrievedPayload, Strip, Encode;
    assert legacy[RetrievalBoundaryField := WriteBoundary(r.boundary)] - {RetrievalBoundaryField} == legacy;
  }

  lemma KeysTell(kind: Word, a: Fields, b: Fields)
    requires a.Keys != b.Keys
    ensures Envelope(kind, a) != Envelope(kind, b)
  {
    if Envelope(kind, a) == Envelope(kind, b) {
      EnvelopeInjective(kind, a, b);
    }
  }

  /** Current artifacts hold the boundary field, both older shapes do not. */
  lemma ShapesDiffer(t: Tools, r: Retrieved, s: Retrieved, prepared: Json)
    requires EncodeRetrieved(t, r).Some?
    ensures EncodeRetrieved(t, r).value != BoundaryFree(s, prepared)
    ensures EncodeRetrieved(t, r).value != Oldest(s, prepared)
  {
    hide EncodeRetrieved, EncodePrepared, RetrievedPayload, LegacyRetrievedPayload, BoundaryFree, Oldest, Strip, Envelope;
    RetrievedIsEnvelope(t, r);
    var own := EncodePrepared(t.kit, r.prepared).value;
    RetrievedKeys(r, own);
    RetrievedKeys(s, prepared);
    BoundaryFreeIs(s, prepared);
    assert RetrievalBoundaryField in RetrievedPayload(r, own).Keys && RetrievalBoundaryField !in LEGACY_RETRIEVED_FIELDS;
    StripOfObject(LegacyRetrievedPayload(s, prepared));
    KeysTell(RetrievedTurn, RetrievedPayload(r, own), LegacyRetrievedPayload(s, prepared));
    KeysTell(RetrievedTurn, RetrievedPayload(r, own), Strip(JObject(LegacyRetrievedPayload(s, prepared)), false).fields);
  }

  lemma RetrievedIsEnvelope(t: Tools, r: Retrieved)
    requires EncodeRetrieved(t, r).Some?
    ensures EncodePrepared(t.kit, r.prepared).Some?
    ensures EncodeRetrieved(t, r).value == Envelope(RetrievedTurn, RetrievedPayload(r, EncodePrepared(t.kit, r.prepared).value))
  {
    hide RetrievedAccepted, RetrievedWritable, EncodePrepared, RetrievedPayload, Encode, Strict;
  }

  /** The current hash of one turn is a candidate of another exactly when both have the same artifact. */
  lemma CurrentHashIdentifies(t: Tools, r: Retrieved, s: Retrieved)
    requires EncodeRetrieved(t, r).Some? && EncodeRetrieved(t, s).Some?
    ensures RetrievedHashes(t, s).Some?
    ensures JDigest(EncodeRetrieved(t, r).value) in RetrievedHashes(t, s).value <==> EncodeRetrieved(t, r) == EncodeRetrieved(t, s)
  {
    hide EncodeRetrieved, EncodePrepared, BoundaryFree, Oldest, Unbound;
    RetrievedHasPrepared(t, s);
    ShapesDiffer(t, r, s, EncodePrepared(t.kit, s.prepared).value);
  }

  /** Main theorem: the hashes of the two older shapes are answered to exactly by turns without a boundary
      and without provenance. */
  lemma LegacyHashesOnlyWhenUnbound(t: Tools, r: Retrieved)
    requires EncodeRetrieved(t, r).Some?
    ensures EncodePrepared(t.kit, r.prepared).Some? && RetrievedHashes(t, r).Some?
    ensures var prepared, hashes := EncodePrepared(t.kit, r.prepared).value, RetrievedHashes(t, r).value;
            && (JDigest(BoundaryFree(r, prepared)) in hashes <==> Unbound(r))
            && (JDigest(Oldest(r, prepared)) in hashes <==> Unbound(r))
            && JDigest(EncodeRetrieved(t, r).value) in hashes
  {
    hide EncodeRetrieved, EncodePrepared, BoundaryFree, Oldest, Unbound;
    RetrievedHasPrepared(t, r);
    ShapesDiffer(t, r, r, EncodePrepared(t.kit, r.prepared).value);
  }

  /** An artifact written before the boundary field existed still decodes to its turn, whose boundary is the
      one its results agree on. */
  lemma BoundaryFreeArtifactDecodes(t: Tools, r: Retrieved)
    requires EncodeRetrieved(t, r).Some? && BoundaryOfResults(r.results) == Some(r.boundary)
    ensures EncodePrepared(t.kit, r.prepared).Some?
    ensures DecodeRetrieved(t, BoundaryFree(r, EncodePrepared(t.kit, r.prepared).value), r.prepared) == Some(r)
  {
    hide EncodeRetrieved, EncodePrepared, LegacyRetrievedPayload, RetrievedPayload, BoundaryFree, Oldest, Strip, Strict, RetrievedAccepted,
         RetrievedWritable, FieldsRead, BoundaryOfResults, Envelope, NoBlanks, Encode, DecodeRetrievedFields;
    RetrievedIsEnvelope(t, r);
    RetrievedChecked(t, r);
    var prepared := EncodePrepared(t.kit, r.prepared).value;
    var f := LegacyRetrievedPayload(r, prepared);
    BoundaryFreeIs(r, prepared);
    LegacyFields(r, prepared);
    LegacyStrict(r, prepared);
    OpenedIffWrapped(RetrievedTurn, f, Envelope(RetrievedTurn, f));
    AcceptanceHasNoBlanks(t.kit, r);
    RetrievedFieldsRead(t, r, prepared);
    ReadFieldsDecode(t, r, r.prepared, prepared, f);
    hide Opened;
  }

  lemma RetrievedChecked(t: Tools, r: Retrieved)
    requires EncodeRetrieved(t, r).Some?
    ensures RetrievedAccepted(t.kit, r) && RetrievedWritable(t.check, r)
    ensures EncodePrepared(t.kit, r.prepared).Some?
    ensures Strict(Envelope(RetrievedTurn, RetrievedPayload(r, EncodePrepared(t.kit, r.prepared).value)))
  {
    hide RetrievedAccepted, RetrievedWritable, EncodePrepared, RetrievedPayload, Encode, Strict;
  }

  lemma LegacyStrict(r: Retrieved, prepared: Json)
    requires Strict(Envelope(RetrievedTurn, RetrievedPayload(r, prepared)))
    ensures Strict(Envelope(RetrievedTurn, LegacyRetrievedPayload(r, prepared)))
  {
    RetrievedKeys(r, prepared);
    var full, legacy := RetrievedPayload(r, prepared), LegacyRetrievedPayload(r, prepared);
    assert forall k | k in legacy :: full[k] == legacy[k];
    hide RetrievedPayload, LegacyRetrievedPayload;
    StrictEnvelope(RetrievedTurn, full);
    StrictEnvelope(RetrievedTurn, legacy);
  }

  lemma StrictObjectIff(f: Fields)
    ensures Strict(JObject(f)) <==> forall k | k in f :: (k.Custom? ==> ValidUnicode(k.name)) && Strict(f[k])
  {
  }

  lemma StrictScalars(i: int, word: Word)
    ensures Strict(JInt(i)) && (Strict(JWord(word)) <==> ProperWord(word))
  {
  }

  lemma StrictEnvelope(kind: Word, payload: Fields)
    ensures Strict(Envelope(kind, payload)) <==>
            ProperWord(kind) && forall k | k in payload :: (k.Custom? ==> ValidUnicode(k.name)) && Strict(payload[k])
  {
    hide Encode, ValidUnicode, Strict, ProperWord;
    var f := Envelope(kind, payload).fields;
    StrictObjectIff(payload);
    StrictObjectIff(f);
    StrictScalars(CHAIN_SCHEMA_VERSION, kind);
    assert ArtifactKind in f && Payload in f && forall k | k in f :: k in {ArtifactSchemaVersion, ArtifactKind, Payload};
  }

  // ----- generated turns -----

  /** _validate_generated_relationships */
  predicate GeneratedAccepted(kit: Toolkit, g: Generated) {
    var r := g.retrieved;
    if g.kind == RetrievalOnly then
      && r.terminal == NO_TERMINAL && g.answer.None? && g.generationError.None? && g.expectedMode.None?
      && g.raw.NoResponse? && g.parserVersion.None? && g.answerText == kit.retrievalOnlyText(r.results)
    else
      g.answer.Some? && g.answerText == g.answer.value.text &&
      if g.kind == PreRetrievalRefusal || g.kind == EvidenceLimited then
        && r.terminal == TerminalContract(Some(g.kind), g.answer, g.expectedMode)
        && g.generationError.None? && g.raw.NoResponse? && g.parserVersion.None?
      else
        r.terminal == NO_TERMINAL && r.adaptive.Some? && r.evidence.Some? &&
        if g.kind == GenerationFailed then
          && g.answer.value == kit.unavailableAnswer && g.generationError == Some(GenerationFailed)
          && g.expectedMode == Some(InsufficientEvidence) && g.raw.NoResponse? && g.parserVersion.None?
        else
          && g.kind == FromModel && g.generationError.None? && g.expectedMode == Some(EvidenceAnswer)
          && g.parserVersion == Some(ParserVersion) && kit.parse(g.raw) == g.answer.value
  }

  const GENERATED_FIELDS: set<Key> :=
    {RetrievedSha256, KindField, AnswerTextField, AnswerField, GenerationErrorField, ExpectedModeField, RawResponseField, ParserVersionField}

  function GeneratedPayload(g: Generated, retrievedHash: Json): Fields {
    map[RetrievedSha256 := retrievedHash, KindField := JWord(g.kind), AnswerTextField := JString(g.answerText),
        AnswerField := WriteAnswer(g.answer), GenerationErrorField := WriteWord(g.generationError),
        ExpectedModeField := WriteWord(g.expectedMode), RawResponseField := EncodeRaw(g.raw),
        ParserVersionField := WriteWord(g.parserVersion)]
  }

  predicate GeneratedWritable(kit: Toolkit, g: Generated) {
    GeneratedAccepted(kit, g) && KnownModeOrNone(g.expectedMode)
  }

  function EncodeGenerated(t: Tools, g: Generated): Option<Json> {
    if !GeneratedWritable(t.kit, g) then None
    else match EncodeRetrieved(t, g.retrieved)
      case None => None
      case Some(retrieved) => Artifact(GeneratedTurn, GeneratedPayload(g, JDigest(retrieved)))
  }

  function DecodeGeneratedFields(t: Tools, f: Fields, r: Retrieved): Option<Generated>
    requires f.Keys == GENERATED_FIELDS
  {
    match (WordOf(f[KindField]), TextOf(f[AnswerTextField]), ReadAnswer(f[AnswerField]), ReadWord(f[GenerationErrorField]))
    case (Some(kind), Some(text), Some(answer), Some(error)) =>
      (match (ReadMode(f[ExpectedModeField]), DecodeRaw(f[RawResponseField]), ReadWord(f[ParserVersionField]))
       case (Some(mode), Some(raw), Some(version)) =>
         var g := Generated(r, kind, text, answer, error, mode, raw, version);
         if GeneratedAccepted(t.kit, g) then Some(g) else None
       case _ => None)
    case _ => None
  }

  function DecodeGenerated(t: Tools, j: Json, r: Retrieved): Option<Generated> {
    match (Opened(GeneratedTurn, j), RetrievedHashes(t, r))
    case (Some(f), Some(hashes)) =>
      if f.Keys == GENERATED_FIELDS && f[RetrievedSha256] in hashes then DecodeGeneratedFields(t, f, r) else None
    case _ => None
  }

  lemma GeneratedFields(g: Generated, h: Json)
    ensures var f := GeneratedPayload(g, h);
            && f.Keys == GENERATED_FIELDS
            && f[RetrievedSha256] == h && f[KindField] == JWord(g.kind) && f[AnswerTextField] == JString(g.answerText)
            && f[AnswerField] == WriteAnswer(g.answer) && f[GenerationErrorField] == WriteWord(g.generationError)
            && f[ExpectedModeField] == WriteWord(g.expectedMode) && f[RawResponseField] == EncodeRaw(g.raw)
            && f[ParserVersionField] == WriteWord(g.parserVersion)
  {
    hide WriteWord, WriteAnswer, EncodeRaw;
  }

  lemma GeneratedReads(t: Tools, g: Generated, h: Json, r: Retrieved)
    requires GeneratedWritable(t.kit, g) && r == g.retrieved.(prepared := r.prepared)
    ensures GeneratedPayload(g, h).Keys == GENERATED_FIELDS && GeneratedPayload(g, h)[RetrievedSha256] == h
    ensures DecodeGeneratedFields(t, GeneratedPayload(g, h), r) == Some(g.(retrieved := r))
  {
    GeneratedFields(g, h);
    OptionalAnswerRoundTrip(g.answer);
    OptionalWordRoundTrip(g.generationError);
    OptionalWordRoundTrip(g.expectedMode);
    OptionalWordRoundTrip(g.parserVersion);
    RawRoundTrip(g.raw);
    GeneratedSeesNoQuestion(t.kit, g, r);
    hide GeneratedPayload, WriteWord, WriteAnswer, EncodeRaw, DecodeRaw, ReadWord, ReadAnswer, ReadMode, GeneratedAccepted;
  }

  lemma GeneratedSeesNoQuestion(kit: Toolkit, g: Generated, r: Retrieved)
    requires r == g.retrieved.(prepared := r.prepared)
    ensures GeneratedAccepted(kit, g.(retrieved := r)) <==> GeneratedAccepted(kit, g)
  {
  }

  lemma GeneratedHasRetrieved(t: Tools, g: Generated)
    requires EncodeGenerated(t, g).Some?
    ensures GeneratedWritable(t.kit, g) && EncodeRetrieved(t, g.retrieved).Some?
    ensures Artifact(GeneratedTurn, GeneratedPayload(g, JDigest(EncodeRetrieved(t, g.retrieved).value))) == EncodeGenerated(t, g)
  {
    hide GeneratedWritable, EncodeRetrieved, Artifact, GeneratedPayload;
  }

  /** Main theorem: a generated artifact is accepted exactly beside a retrieved turn with the artifact that was
      hashed into it, and gives back the turn on top of that one. */
  lemma GeneratedDecodesOnlyAgainstItsEvidence(t: Tools, g: Generated, j: Json, r: Retrieved)
    requires EncodeGenerated(t, g) == Some(j)
    ensures DecodeGenerated(t, j, r) ==
            if EncodeRetrieved(t, r) == EncodeRetrieved(t, g.retrieved) then Some(g.(retrieved := r)) else None
  {
    hide EncodeGenerated, EncodeRetrieved, Opened, Artifact, GeneratedPayload, DecodeGeneratedFields, GeneratedWritable;
    GeneratedHasRetrieved(t, g);
    var h := JDigest(EncodeRetrieved(t, g.retrieved).value);
    var f := GeneratedPayload(g, h);
    OpenedIffWrapped(GeneratedTurn, f, j);
    GeneratedFields(g, h);
    if EncodeRetrieved(t, r).Some? {
      CurrentHashIdentifies(t, g.retrieved, r);
      if EncodeRetrieved(t, r) == EncodeRetrieved(t, g.retrieved) {
        RetrievedArtifactIdentifies(t, g.retrieved, r);
        GeneratedReads(t, g, h, r);
      }
    } else {
      assert RetrievedHashes(t, r).None?;
    }
    hide RetrievedHashes;
  }

  /** Round trip. */
  lemma GeneratedRoundTrip(t: Tools, g: Generated, j: Json)
    requires EncodeGenerated(t, g) == Some(j)
    ensures DecodeGenerated(t, j, g.retrieved) == Some(g)
  {
    GeneratedDecodesOnlyAgainstItsEvidence(t, g, j, g.retrieved);
  }

  lemma GeneratedArtifactIdentifies(t: Tools, g: Generated, h: Generated)
    requires EncodeGenerated(t, g).Some? && EncodeGenerated(t, g) == EncodeGenerated(t, h)
    ensures h == g.(retrieved := h.retrieved) && EncodeRetrieved(t, g.retrieved) == EncodeRetrieved(t, h.retrieved)
  {
    var j := EncodeGenerated(t, g).value;
    GeneratedRoundTrip(t, h, j);
    GeneratedDecodesOnlyAgainstItsEvidence(t, g, j, h.retrieved);
    hide DecodeGenerated, EncodeGenerated, EncodeRetrieved;
  }

  /** A generated artifact that carries the hash of an older shape of its turn is accepted exactly when the
      turn is unbound. */
  lemma LegacyChainIffUnbound(t: Tools, g: Generated, j: Json, oldest: bool)
    requires GeneratedWritable(t.kit, g) && EncodeRetrieved(t, g.retrieved).Some?
    requires EncodePrepared(t.kit, g.retrieved.prepared).Some?
    requires var prepared := EncodePrepared(t.kit, g.retrieved.prepared).value;
             var shape := if oldest then Oldest(g.retrieved, prepared) else BoundaryFree(g.retrieved, prepared);
             Artifact(GeneratedTurn, GeneratedPayload(g, JDigest(shape))) == Some(j)
    ensures DecodeGenerated(t, j, g.retrieved) == if Unbound(g.retrieved) then Some(g) else None
  {
    var r := g.retrieved;
    var prepared := EncodePrepared(t.kit, r.prepared).value;
    var h := JDigest(if oldest then Oldest(r, prepared) else BoundaryFree(r, prepared));
    LegacyHashesOnlyWhenUnbound(t, r);
    OpenedIffWrapped(GeneratedTurn, GeneratedPayload(g, h), j);
    GeneratedReads(t, g, h, r);
    hide EncodeRetrieved, EncodePrepared, Opened, Artifact, GeneratedPayload, RetrievedHashes, DecodeGeneratedFields, GeneratedWritable,
         Oldest, BoundaryFree, Unbound;
  }

  /** The candidates themselves, collected hash by hash. */
  method CollectGeneratedHashes(t: Tools, g: Generated) returns (candidates: Option<set<Json>>)
    ensures candidates == GeneratedHashes(t, g)
  {
    hide EncodeGenerated, EncodeRetrieved, RetrievedHashes, GeneratedWith;
    var hashes := RetrievedHashes(t, g.retrieved);
    if EncodeGenerated(t, g).None? || hashes.None? {
      return None;
    }
    var found: set<Json>, left := {}, hashes.value;
    while left != {}
      invariant left <= hashes.value
      invariant found == set h | h in hashes.value - left :: JDigest(GeneratedWith(g, h))
      decreases left
    {
      var h :| h in left;
      found := found + {JDigest(GeneratedWith(g, h))};
      assert hashes.value - (left - {h}) == (hashes.value - left) + {h};
      left := left - {h};
    }
    assert hashes.value - left == hashes.value;
    candidates := Some(found);
  }

  // ----- verified turns -----

  /** _validate_verified_relationships */
  predicate VerifiedAccepted(kit: Toolkit, v: Verified) {
    match v.finalAnswer
    case None =>
      && v.generated.kind == RetrievalOnly && v.answerText == v.generated.answerText
      && v.verification.None? && v.preFallbackAnswer.None? && v.preFallbackVerification.None?
    case Some(answer) =>
      && v.answerText == answer.text
      && v.verification.Some? && v.verification.value.passed && v.verification.value.actualMode == answer.mode
      && v.verification.value.sourceFormat == answer.adapterSource && v.verification.value.schemaValid == answer.schemaValid
      && (v.preFallbackAnswer.None? <==> v.preFallbackVerification.None?)
      && if v.preFallbackVerification.Some? then
           var draft, verdict := v.preFallbackAnswer.value, v.preFallbackVerification.value;
           && v.generated.kind == FromModel && v.preFallbackAnswer == v.generated.answer && !verdict.passed
           && verdict.actualMode == draft.mode && verdict.sourceFormat == draft.adapterSource
         else if v.generated.kind == GenerationFailed then answer == kit.safeAnswer(InsufficientEvidence)
         else v.finalAnswer == v.generated.answer
  }

  const VERIFIED_FIELDS: set<Key> :=
    {GeneratedSha256, AnswerTextField, FinalAnswerField, VerificationField, PreFallbackAnswerField, PreFallbackVerificationField}

  function VerifiedPayload(v: Verified, generatedHash: Json): Fields {
    map[GeneratedSha256 := generatedHash, AnswerTextField := JString(v.answerText), FinalAnswerField := WriteAnswer(v.finalAnswer),
        VerificationField := WriteVerification(v.verification), PreFallbackAnswerField := WriteAnswer(v.preFallbackAnswer),
        PreFallbackVerificationField := WriteVerification(v.preFallbackVerification)]
  }

  function EncodeVerified(t: Tools, v: Verified): Option<Json> {
    if !VerifiedAccepted(t.kit, v) then None
    else match EncodeGenerated(t, v.generated)
      case None => None
      case Some(generated) => Artifact(VerifiedTurn, VerifiedPayload(v, JDigest(generated)))
  }

  /** _generated_artifact_hash_candidates */
  function GeneratedHashes(t: Tools, g: Generated): Option<set<Json>> {
    match (EncodeGenerated(t, g), RetrievedHashes(t, g.retrieved))
    case (Some(_), Some(hashes)) => Some(set h | h in hashes :: JDigest(GeneratedWith(g, h)))
    case _ => None
  }

  function DecodeVerifiedFields(t: Tools, f: Fields, g: Generated): Option<Verified>
    requires f.Keys == VERIFIED_FIELDS
  {
    match (TextOf(f[AnswerTextField]), ReadAnswer(f[FinalAnswerField]), ReadVerification(f[VerificationField]),
           ReadAnswer(f[PreFallbackAnswerField]), ReadVerification(f[PreFallbackVerificationField]))
    case (Some(text), Some(answer), Some(verification), Some(draft), Some(verdict)) =>
      var v := Verified(g, text, answer, verification, draft, verdict);
      if VerifiedAccepted(t.kit, v) then Some(v) else None
    case _ => None
  }

  function DecodeVerified(t: Tools, j: Json, g: Generated): Option<Verified> {
    match (Opened(VerifiedTurn, j), GeneratedHashes(t, g))
    case (Some(f), Some(hashes)) =>
      if f.Keys == VERIFIED_FIELDS && f[GeneratedSha256] in hashes then DecodeVerifiedFields(t, f, g) else None
    case _ => None
  }

  lemma VerifiedFields(v: Verified, h: Json)
    ensures var f := VerifiedPayload(v, h);
            && f.Keys == VERIFIED_FIELDS
            && f[GeneratedSha256] == h && f[AnswerTextField] == JString(v.answerText)
            && f[FinalAnswerField] == WriteAnswer(v.finalAnswer) && f[VerificationField] == WriteVerification(v.verification)
            && f[PreFallbackAnswerField] == WriteAnswer(v.preFallbackAnswer)
            && f[PreFallbackVerificationField] == WriteVerification(v.preFallbackVerification)
  {
    hide WriteAnswer, WriteVerification;
  }

  lemma VerifiedSeesNoEvidence(kit: Toolkit, v: Verified, g: Generated)
    requires g == v.generated.(retrieved := g.retrieved)
    ensures VerifiedAccepted(kit, v.(generated := g)) <==> VerifiedAccepted(kit, v)
  {
  }

  lemma VerifiedReads(t: Tools, v: Verified, h: Json, g: Generated)
    requires VerifiedAccepted(t.kit, v) && g == v.generated.(retrieved := g.retrieved)
    ensures VerifiedPayload(v, h).Keys == VERIFIED_FIELDS && VerifiedPayload(v, h)[GeneratedSha256] == h
    ensures DecodeVerifiedFields(t, VerifiedPayload(v, h), g) == Some(v.(generated := g))
  {
    hide WriteAnswer, WriteVerification, ReadAnswer, ReadVerification, VerifiedAccepted, VerifiedPayload;
    VerifiedFields(v, h);
    VerifiedSeesNoEvidence(t.kit, v, g);
    OptionalAnswerRoundTrip(v.finalAnswer);
    OptionalAnswerRoundTrip(v.preFallbackAnswer);
    OptionalVerificationRoundTrip(v.verification);
    OptionalVerificationRoundTrip(v.preFallbackVerification);
  }

  lemma SameEvidenceHash(g: Generated, h: Generated, a: Json, b: Json)
    requires Envelope(GeneratedTurn, GeneratedPayload(g, a)) == Envelope(GeneratedTurn, GeneratedPayload(h, b))
    ensures a == b
  {
    hide GeneratedPayload, Envelope;
    GeneratedFields(g, a);
    GeneratedFields(h, b);
    EnvelopeInjective(GeneratedTurn, GeneratedPayload(g, a), GeneratedPayload(h, b));
  }

  function GeneratedWith(g: Generated, h: Json): Json {
    Envelope(GeneratedTurn, GeneratedPayload(g, h))
  }

  lemma GeneratedIs(t: Tools, g: Generated)
    requires EncodeGenerated(t, g).Some?
    ensures EncodeRetrieved(t, g.retrieved).Some? && RetrievedHashes(t, g.retrieved).Some?
    ensures EncodeGenerated(t, g).value == GeneratedWith(g, JDigest(EncodeRetrieved(t, g.retrieved).value))
    ensures GeneratedHashes(t, g) == Some(set h | h in RetrievedHashes(t, g.retrieved).value :: JDigest(GeneratedWith(g, h)))
  {
    hide EncodeRetrieved, GeneratedPayload, Envelope, EncodeGenerated, RetrievedHashes, GeneratedWritable, Strict;
    GeneratedHasRetrieved(t, g);
    CurrentHashIdentifies(t, g.retrieved, g.retrieved);
  }

  /** The current hash of one generated turn is a candidate of another exactly when both have the same artifact. */
  lemma GeneratedHashIdentifies(t: Tools, g: Generated, h: Generated)
    requires EncodeGenerated(t, g).Some? && EncodeGenerated(t, h).Some?
    ensures GeneratedHashes(t, h).Some?
    ensures JDigest(EncodeGenerated(t, g).value) in GeneratedHashes(t, h).value <==> EncodeGenerated(t, g) == EncodeGenerated(t, h)
  {
    hide EncodeGenerated, EncodeRetrieved, RetrievedHashes, GeneratedPayload, Envelope, GeneratedHashes;
    GeneratedIs(t, g);
    GeneratedIs(t, h);
    CurrentHashIdentifies(t, g.retrieved, h.retrieved);
    CurrentHashIdentifies(t, h.retrieved, h.retrieved);
    var own, other := JDigest(EncodeRetrieved(t, h.retrieved).value), JDigest(EncodeRetrieved(t, g.retrieved).value);
    forall k | GeneratedWith(h, k) == GeneratedWith(g, other) ensures k == other {
      SameEvidenceHash(h, g, k, other);
    }
    hide GeneratedWith;
  }

  lemma EnvelopeInjective(kind: Word, a: Fields, b: Fields)
    requires Envelope(kind, a) == Envelope(kind, b)
    ensures a == b
  {
    hide Encode;
    assert Envelope(kind, a).fields[Payload] == JObject(a) && Envelope(kind, b).fields[Payload] == JObject(b);
  }

  /** Main theorem: a verified artifact is accepted exactly beside a generated turn with the artifact that was
      hashed into it, and gives back the turn on top of that one. */
  lemma VerifiedDecodesOnlyAgainstItsDraft(t: Tools, v: Verified, j: Json, g: Generated)
    requires EncodeVerified(t, v) == Some(j)
    ensures DecodeVerified(t, j, g) ==
            if EncodeGenerated(t, g) == EncodeGenerated(t, v.generated) then Some(v.(generated := g)) else None
  {
    hide EncodeGenerated, EncodeVerified, Opened, Artifact, VerifiedPayload, DecodeVerifiedFields, VerifiedAccepted;
    VerifiedHasGenerated(t, v);
    var h := JDigest(EncodeGenerated(t, v.generated).value);
    OpenedIffWrapped(VerifiedTurn, VerifiedPayload(v, h), j);
    VerifiedReads(t, v, h, v.generated);
    if EncodeGenerated(t, g).Some? {
      GeneratedHashIdentifies(t, v.generated, g);
      if EncodeGenerated(t, g) == EncodeGenerated(t, v.generated) {
        GeneratedArtifactIdentifies(t, v.generated, g);
        VerifiedReads(t, v, h, g);
      }
    } else {
      assert GeneratedHashes(t, g).None?;
    }
    hide GeneratedHashes;
  }

  lemma VerifiedHasGenerated(t: Tools, v: Verified)
    requires EncodeVerified(t, v).Some?
    ensures VerifiedAccepted(t.kit, v) && EncodeGenerated(t, v.generated).Some?
    ensures Artifact(VerifiedTurn, VerifiedPayload(v, JDigest(EncodeGenerated(t, v.generated).value))) == EncodeVerified(t, v)
  {
    hide VerifiedAccepted, EncodeGenerated, Artifact, VerifiedPayload;
  }

  /** Round trip. */
  lemma VerifiedRoundTrip(t: Tools, v: Verified, j: Json)
    requires EncodeVerified(t, v) == Some(j)
    ensures DecodeVerified(t, j, v.generated) == Some(v)
  {
    VerifiedDecodesOnlyAgainstItsDraft(t, v, j, v.generated);
  }

  /** The whole chain: three artifacts written from one turn are read back, each against what the one before
      it gave, to that turn with the question they were read against. */
  lemma ChainRoundTrip(t: Tools, v: Verified, q: Prepared)
    requires EncodeVerified(t, v).Some? && EncodePrepared(t.kit, q) == EncodePrepared(t.kit, v.generated.retrieved.prepared)
    ensures EncodeGenerated(t, v.generated).Some? && EncodeRetrieved(t, v.generated.retrieved).Some?
    ensures var r := DecodeRetrieved(t, EncodeRetrieved(t, v.generated.retrieved).value, q);
            && r.Some?
            && var g := DecodeGenerated(t, EncodeGenerated(t, v.generated).value, r.value);
            && g.Some?
            && DecodeVerified(t, EncodeVerified(t, v).value, g.value)
               == Some(v.(generated := v.generated.(retrieved := v.generated.retrieved.(prepared := q))))
  {
    VerifiedHasGenerated(t, v);
    GeneratedHasRetrieved(t, v.generated);
    var r0, g0 := v.generated.retrieved, v.generated;
    RetrievedDecodesOnlyAgainstItsQuestion(t, r0, EncodeRetrieved(t, r0).value, q);
    var r := r0.(prepared := q);
    RebasedRetrieved(t, r0, q);
    GeneratedDecodesOnlyAgainstItsEvidence(t, g0, EncodeGenerated(t, g0).value, r);
    RebasedGenerated(t, g0, r);
    VerifiedDecodesOnlyAgainstItsDraft(t, v, EncodeVerified(t, v).value, g0.(retrieved := r));
    hide EncodeVerified, EncodeGenerated, EncodeRetrieved, EncodePrepared, DecodeRetrieved, DecodeGenerated, DecodeVerified;
  }

  lemma RebasedRetrieved(t: Tools, r: Retrieved, q: Prepared)
    requires EncodeRetrieved(t, r).Some? && EncodePrepared(t.kit, q) == EncodePrepared(t.kit, r.prepared)
    ensures EncodeRetrieved(t, r.(prepared := q)) == EncodeRetrieved(t, r)
  {
    RetrievedHasPrepared(t, r);
    SameArtifactSamePayload(t.kit, r.prepared, q);
    AcceptanceSeesOnlyAnalysis(t.kit, r, q);
    hide EncodePrepared, RetrievedAccepted, Artifact;
  }

  lemma RebasedGenerated(t: Tools, g: Generated, r: Retrieved)
    requires EncodeGenerated(t, g).Some? && EncodeRetrieved(t, r) == EncodeRetrieved(t, g.retrieved)
    requires r == g.retrieved.(prepared := r.prepared)
    ensures EncodeGenerated(t, g.(retrieved := r)) == EncodeGenerated(t, g)
  {
    GeneratedSeesNoQuestion(t.kit, g, r);
    hide EncodeRetrieved, GeneratedAccepted, Artifact;
  }
}
