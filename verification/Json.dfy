/** JSON values as artifacts hold them.  A digest is the term that was hashed, so
    canonical hashing is injective by construction. */
module Json {
  import opened Common

  /** Field names the artifact code looks at, and every other name. */
  datatype Key =
    | ArtifactSchemaVersion | ArtifactKind | Payload
    | SearchResultField | ProvenanceField | ChunkField | ScoreField | RankField | RetrieverField | TraceField
    | PreparedSha256 | AdaptiveResultField | ResultsField | EvidenceCheckField | RetrievalBoundaryField
    | RejectedSourceIds | SourceIdMap | TerminalKind | TerminalAnswer | TerminalMode
    | RetrievedSha256 | KindField | AnswerTextField | AnswerField | GenerationErrorField | ExpectedModeField
    | RawResponseField | ParserVersionField | ValueField
    | GeneratedSha256 | FinalAnswerField | VerificationField | PreFallbackAnswerField | PreFallbackVerificationField
    | OriginalQuestion | StandaloneQuestion | AnalysisField | MemoryTextField | SessionStateBefore
    | SchemaVersion | MemoryField | TokenLimit | MessagesField | RoleField | ContentField
    | OriginalQuery | RiskFlags | DetailField | Sufficient | MissingFacts | MergeTrace
    | ScopeId | SnapshotId | ProfileId | FiltersField | BoundaryField
    | AnswerMode | ClaimsField | ClaimId | TextField | SourceIds | LimitationsField | Clarification
    | SchemaValid | AdapterSource | ParseErrors | Passed | ActualMode | SourceFormat
    | EvidenceFilter | OriginalSourceId | FilteredSourceId | Allowed | RejectedOriginalSourceIds | ReturnedCount
    | Custom(name: Text)

  /** Strings the artifact code compares with a constant, and every other string in such a place. */
  datatype Word =
    | RetrievalOnly | PreRetrievalRefusal | EvidenceLimited | GenerationFailed | FromModel
    | OutOfScope | InsufficientEvidence | NeedsClarification | EvidenceAnswer | ParserVersion
    | PreparedQuestion | RetrievedTurn | GeneratedTurn | VerifiedTurn
    | UserRole | AssistantRole | NoneKind | TextKind | AnswerKind
    | OtherWord(text: Text)

  datatype Json =
    | JNull
    | JBool(b: bool)
    | JInt(i: int)
    | JReal(r: real)
    | JString(text: Text)
    | JWord(word: Word)
    | JDigest(of: Json)
    | JArray(items: seq<Json>)
    | JObject(fields: map<Key, Json>)

  predicate ProperWord(word: Word) {
    word.OtherWord? ==> ValidUnicode(word.text)
  }

  /** Canonical JSON refuses strings, and names of fields, that hold a surrogate. */
  predicate Strict(j: Json) {
    match j
    case JString(text) => ValidUnicode(text)
    case JWord(word) => ProperWord(word)
    case JArray(items) => forall i | 0 <= i < |items| :: Strict(items[i])
    case JObject(fields) => forall k | k in fields :: (k.Custom? ==> ValidUnicode(k.name)) && Strict(fields[k])
    case _ => true
  }
}
