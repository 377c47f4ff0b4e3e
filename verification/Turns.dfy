/** The immutable values one chat turn passes through (legal_rag/chat.py, legal_rag/models.py). */
module Turns {
  import opened Common
  import opened Conversation
  import opened Json

  /** What analyze_query found; detail stands for the fields no modelled check looks at. */
  datatype Analysis = Analysis(originalQuery: Text, riskFlags: seq<Text>, detail: Json)

  datatype Boundary = Boundary(scopeId: Text, snapshotId: Text, profileId: Text, filters: Json)

  datatype Provenance = Provenance(boundary: Boundary, detail: Json)

  datatype SearchResult = SearchResult(
    chunk: Json, score: real, rank: int, retriever: Text, trace: map<Key, Json>, provenance: Option<Provenance>)

  datatype EvidenceCheck = EvidenceCheck(sufficient: bool, missingFacts: seq<Text>, detail: Json)

  datatype Adaptive = Adaptive(results: seq<SearchResult>, analysis: Analysis, evidence: EvidenceCheck, mergeTrace: map<Key, Json>, detail: Json)

  datatype Claim = Claim(claimId: Text, text: Text, sourceIds: seq<Text>)

  datatype Answer = Answer(
    text: Text, mode: Word, claims: seq<Claim>, limitations: seq<Text>, clarification: Option<Text>,
    schemaValid: bool, adapterSource: Text, parseErrors: seq<Text>)

  datatype Verification = Verification(
    passed: bool, schemaValid: bool, actualMode: Word, sourceFormat: Text, detail: Json)

  datatype SessionCheckpoint = SessionCheckpoint(schemaVersion: int, memory: Checkpoint)

  datatype Prepared = Prepared(
    original: Text, standalone: Text, analysis: Analysis, memoryText: Text, stateBefore: SessionCheckpoint,
    messagesBefore: seq<Message>, tokenLimit: int, memoryRevision: nat, sessionRevision: nat)

  /** The three fields of a turn that retrieval already settled. */
  datatype TerminalContract = TerminalContract(kind: Option<Word>, answer: Option<Answer>, mode: Option<Word>)

  datatype Retrieved = Retrieved(
    prepared: Prepared, adaptive: Option<Adaptive>, results: seq<SearchResult>, evidence: Option<EvidenceCheck>,
    rejectedIds: seq<Text>, sourceMap: map<Text, Text>, terminal: TerminalContract, boundary: Option<Boundary>)

  datatype RawResponse = NoResponse | TextResponse(text: Text) | StructuredResponse(answer: Answer)

  datatype Generated = Generated(
    retrieved: Retrieved, kind: Word, answerText: Text, answer: Option<Answer>, generationError: Option<Word>,
    expectedMode: Option<Word>, raw: RawResponse, parserVersion: Option<Word>)

  datatype Verified = Verified(
    generated: Generated, answerText: Text, finalAnswer: Option<Answer>, verification: Option<Verification>,
    preFallbackAnswer: Option<Answer>, preFallbackVerification: Option<Verification>)

  const SESSION_SCHEMA_VERSION := 1

  const NO_TERMINAL := TerminalContract(None, None, None)

  /** Everything a turn calls that this model does not look into, as deterministic functions:
      query analysis, question condensation, the answer parser, the verifier (closed over the
      assistant's context and disclaimer), the rendered texts and the retrieval boundary check. */
  datatype Toolkit = Toolkit(
    analyze: Text -> Analysis,
    condense: (Text, seq<Message>) -> Text,
    refuses: seq<Text> -> bool,
    refusalAnswer: seq<Text> -> Answer,
    limitedAnswer: EvidenceCheck -> Answer,
    retrievalOnlyText: seq<SearchResult> -> Text,
    parse: RawResponse -> Answer,
    unavailableAnswer: Answer,
    safeAnswer: Word -> Answer,
    fallbackAnswer: (Answer, Verification, EvidenceCheck) -> Answer,
    verify: (Answer, seq<SearchResult>, Word, Option<EvidenceCheck>, Option<seq<Text>>) -> Verification,
    boundary: Option<Boundary>,
    matchesBoundary: (seq<SearchResult>, Option<Boundary>) -> bool)
}
