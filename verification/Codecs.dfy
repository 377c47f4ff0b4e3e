/** The parts of a stage artifact as JSON and back (legal_rag/chat_artifacts.py, legal_rag/evaluation_artifacts.py). */
module Codecs {
  import opened Common
  import opened Conversation
  import opened Json
  import opened Turns

  const RESULT_SCHEMA_VERSION := 1

  /** str.strip() leaves nothing. */
  predicate Blank(t: Text) {
    forall i | 0 <= i < |t| :: IsSpace(t[i])
  }

  predicate KnownMode(mode: Word) {
    mode == EvidenceAnswer || mode == InsufficientEvidence || mode == NeedsClarification || mode == OutOfScope
  }

  /** The remaining checks of a restored search result: its chunk's fields, boundary markers that demand a
      provenance, and agreement of the provenance with the chunk. */
  type ResultCheck = SearchResult -> bool

  // ----- reading -----

  /** _exact_mapping */
  function Exactly(j: Json, keys: set<Key>): Option<map<Key, Json>> {
    if j.JObject? && j.fields.Keys == keys then Some(j.fields) else None
  }

  function TextOf(j: Json): Option<Text> {
    if j.JString? then Some(j.text) else None
  }

  function WordOf(j: Json): Option<Word> {
    if j.JWord? then Some(j.word) else None
  }

  function BoolOf(j: Json): Option<bool> {
    if j.JBool? then Some(j.b) else None
  }

  function FieldsOf(j: Json): Option<map<Key, Json>> {
    if j.JObject? then Some(j.fields) else None
  }

  /** _number accepts integers as well. */
  function NumberOf(j: Json): Option<real> {
    match j
    case JReal(r) => Some(r)
    case JInt(i) => Some(i as real)
    case _ => None
  }

  function MaybeOf<T>(j: Json, read: Json -> Option<T>): Option<Option<T>> {
    if j.JNull? then Some(None)
    else match read(j)
      case None => None
      case Some(x) => Some(Some(x))
  }

  function ItemsOf<T>(items: seq<Json>, read: Json -> Option<T>): Option<seq<T>> {
    if items == [] then Some([])
    else match (read(items[0]), ItemsOf(items[1..], read))
      case (Some(x), Some(rest)) => Some([x] + rest)
      case _ => None
  }

  function ListOf<T>(j: Json, read: Json -> Option<T>): Option<seq<T>> {
    if j.JArray? then ItemsOf(j.items, read) else None
  }

  predicate TextFields(fields: map<Key, Json>) {
    forall k | k in fields :: k.Custom? && fields[k].JString?
  }

  function Named(fields: map<Key, Json>): map<Text, Text>
    requires TextFields(fields)
  {
    map k | k in fields :: k.name := fields[k].text
  }

  predicate NoBlanks(m: map<Text, Text>) {
    forall t | t in m :: !Blank(t) && !Blank(m[t])
  }

  /** _string_mapping: a text to text object without blank keys or values. */
  function TextMapOf(j: Json): Option<map<Text, Text>> {
    if j.JObject? && TextFields(j.fields) && NoBlanks(Named(j.fields)) then Some(Named(j.fields)) else None
  }

  // ----- writing -----

  function Maybe<T>(x: Option<T>, write: T -> Json): Json {
    match x
    case None => JNull
    case Some(value) => write(value)
  }

  function Items<T>(xs: seq<T>, write: T -> Json): seq<Json> {
    if xs == [] then [] else [write(xs[0])] + Items(xs[1..], write)
  }

  function Texts(ts: seq<Text>): Json {
    JArray(Items(ts, t => JString(t)))
  }

  function TextMap(m: map<Text, Text>): Json {
    JObject(map k | k in m :: Custom(k) := JString(m[k]))
  }

  lemma {:induction false} ItemsRead<T>(xs: seq<T>, write: T -> Json, read: Json -> Option<T>)
    requires forall x | x in xs :: read(write(x)) == Some(x)
    ensures ItemsOf(Items(xs, write), read) == Some(xs)
  {
    if xs != [] {
      ItemsRead(xs[1..], write, read);
      assert Items(xs, write)[1..] == Items(xs[1..], write);
      assert [xs[0]] + xs[1..] == xs;
    }
  }

  lemma TextsRead(ts: seq<Text>)
    ensures ListOf(Texts(ts), TextOf) == Some(ts)
  {
    ItemsRead(ts, t => JString(t), TextOf);
  }

  lemma NamedBack(m: map<Text, Text>)
    ensures TextFields(TextMap(m).fields) && Named(TextMap(m).fields) == m
  {
    var fields := TextMap(m).fields;
    assert forall t | t in m :: Custom(t) in fields;
  }

  lemma TextMapRead(m: map<Text, Text>)
    requires NoBlanks(m)
    ensures TextMapOf(TextMap(m)) == Some(m)
  {
    NamedBack(m);
  }

  // ----- query analysis, evidence, answers, verifications -----

  function EncodeAnalysis(a: Analysis): Json {
    JObject(map[OriginalQuery := JString(a.originalQuery), RiskFlags := Texts(a.riskFlags), DetailField := a.detail])
  }

  function DecodeAnalysis(j: Json): Option<Analysis> {
    match Exactly(j, {OriginalQuery, RiskFlags, DetailField})
    case None => None
    case Some(f) =>
      match (TextOf(f[OriginalQuery]), ListOf(f[RiskFlags], TextOf))
      case (Some(query), Some(flags)) => Some(Analysis(query, flags, f[DetailField]))
      case _ => None
  }

  lemma AnalysisRoundTrip(a: Analysis)
    ensures DecodeAnalysis(EncodeAnalysis(a)) == Some(a)
  {
    TextsRead(a.riskFlags);
    hide ListOf, Texts;
  }

  function EncodeEvidence(e: EvidenceCheck): Json {
    JObject(map[Sufficient := JBool(e.sufficient), MissingFacts := Texts(e.missingFacts), DetailField := e.detail])
  }

  function DecodeEvidence(j: Json): Option<EvidenceCheck> {
    match Exactly(j, {Sufficient, MissingFacts, DetailField})
    case None => None
    case Some(f) =>
      match (BoolOf(f[Sufficient]), ListOf(f[MissingFacts], TextOf))
      case (Some(sufficient), Some(facts)) => Some(EvidenceCheck(sufficient, facts, f[DetailField]))
      case _ => None
  }

  lemma EvidenceRoundTrip(e: EvidenceCheck)
    ensures DecodeEvidence(EncodeEvidence(e)) == Some(e)
  {
    TextsRead(e.missingFacts);
    hide ListOf, Texts;
  }

  function EncodeClaim(c: Claim): Json {
    JObject(map[ClaimId := JString(c.claimId), TextField := JString(c.text), SourceIds := Texts(c.sourceIds)])
  }

  function DecodeClaim(j: Json): Option<Claim> {
    match Exactly(j, {ClaimId, TextField, SourceIds})
    case None => None
    case Some(f) =>
      match (TextOf(f[ClaimId]), TextOf(f[TextField]), ListOf(f[SourceIds], TextOf))
      case (Some(id), Some(text), Some(sources)) => Some(Claim(id, text, sources))
      case _ => None
  }

  lemma ClaimRoundTrip(c: Claim)
    ensures DecodeClaim(EncodeClaim(c)) == Some(c)
  {
    TextsRead(c.sourceIds);
    hide ListOf, Texts;
  }

  function EncodeAnswer(a: Answer): Json {
    JObject(map[AnswerTextField := JString(a.text), AnswerMode := JWord(a.mode), ClaimsField := JArray(Items(a.claims, EncodeClaim)),
                LimitationsField := Texts(a.limitations), Clarification := Maybe(a.clarification, t => JString(t)),
                SchemaValid := JBool(a.schemaValid), AdapterSource := JString(a.adapterSource), ParseErrors := Texts(a.parseErrors)])
  }

  function DecodeAnswer(j: Json): Option<Answer> {
    match Exactly(j, {AnswerTextField, AnswerMode, ClaimsField, LimitationsField, Clarification, SchemaValid, AdapterSource, ParseErrors})
    case None => None
    case Some(f) =>
      match (TextOf(f[AnswerTextField]), WordOf(f[AnswerMode]), ListOf(f[ClaimsField], DecodeClaim), ListOf(f[LimitationsField], TextOf))
      case (Some(text), Some(mode), Some(claims), Some(limitations)) =>
        (match (MaybeOf(f[Clarification], TextOf), BoolOf(f[SchemaValid]), TextOf(f[AdapterSource]), ListOf(f[ParseErrors], TextOf))
         case (Some(question), Some(valid), Some(source), Some(errors)) =>
           Some(Answer(text, mode, claims, limitations, question, valid, source, errors))
         case _ => None)
      case _ => None
  }

  lemma ClaimsRead(claims: seq<Claim>)
    ensures ListOf(JArray(Items(claims, EncodeClaim)), DecodeClaim) == Some(claims)
  {
    forall c | c in claims ensures DecodeClaim(EncodeClaim(c)) == Some(c) {
      ClaimRoundTrip(c);
    }
    hide DecodeClaim, EncodeClaim;
    ItemsRead(claims, EncodeClaim, DecodeClaim);
  }

  lemma AnswerRoundTrip(a: Answer)
    ensures DecodeAnswer(EncodeAnswer(a)) == Some(a)
  {
    ClaimsRead(a.claims);
    TextsRead(a.limitations);
    TextsRead(a.parseErrors);
    hide ListOf, Texts, Items, DecodeClaim, EncodeClaim;
  }

  function EncodeVerification(v: Verification): Json {
    JObject(map[Passed := JBool(v.passed), SchemaValid := JBool(v.schemaValid), ActualMode := JWord(v.actualMode),
                SourceFormat := JString(v.sourceFormat), DetailField := v.detail])
  }

  function DecodeVerification(j: Json): Option<Verification> {
    match Exactly(j, {Passed, SchemaValid, ActualMode, SourceFormat, DetailField})
    case None => None
    case Some(f) =>
      match (BoolOf(f[Passed]), BoolOf(f[SchemaValid]), WordOf(f[ActualMode]), TextOf(f[SourceFormat]))
      case (Some(passed), Some(valid), Some(mode), Some(format)) => Some(Verification(passed, valid, mode, format, f[DetailField]))
      case _ => None
  }

  lemma VerificationRoundTrip(v: Verification)
    ensures DecodeVerification(EncodeVerification(v)) == Some(v)
  {
  }

  // ----- boundaries and search results -----

  function EncodeBoundary(b: Boundary): Json {
    JObject(map[ScopeId := JString(b.scopeId), SnapshotId := JString(b.snapshotId), ProfileId := JString(b.profileId),
                FiltersField := b.filters])
  }

  function DecodeBoundary(j: Json): Option<Boundary> {
    match Exactly(j, {ScopeId, SnapshotId, ProfileId, FiltersField})
    case None => None
    case Some(f) =>
      match (TextOf(f[ScopeId]), TextOf(f[SnapshotId]), TextOf(f[ProfileId]))
      case (Some(scope), Some(snapshot), Some(profile)) => Some(Boundary(scope, snapshot, profile, f[FiltersField]))
      case _ => None
  }

  lemma BoundaryRoundTrip(b: Boundary)
    ensures DecodeBoundary(EncodeBoundary(b)) == Some(b)
  {
  }

  function EncodeProvenance(p: Provenance): Json {
    JObject(map[BoundaryField := EncodeBoundary(p.boundary), DetailField := p.detail])
  }

  function DecodeProvenance(j: Json): Option<Provenance> {
    match Exactly(j, {BoundaryField, DetailField})
    case None => None
    case Some(f) =>
      match DecodeBoundary(f[BoundaryField])
      case None => None
      case Some(b) => Some(Provenance(b, f[DetailField]))
  }

  lemma ProvenanceRoundTrip(p: Provenance)
    ensures DecodeProvenance(EncodeProvenance(p)) == Some(p)
  {
    BoundaryRoundTrip(p.boundary);
    hide EncodeBoundary, DecodeBoundary;
  }

  const LEGACY_RESULT_FIELDS: set<Key> := {ChunkField, ScoreField, RankField, RetrieverField, TraceField}

  function EncodeResult(r: SearchResult): Json {
    JObject(map[ArtifactSchemaVersion := JInt(RESULT_SCHEMA_VERSION),
                SearchResultField := JObject(map[
                  ChunkField := r.chunk, ScoreField := JReal(r.score), RankField := JInt(r.rank),
                  RetrieverField := JString(r.retriever), TraceField := JObject(r.trace),
                  ProvenanceField := Maybe(r.provenance, EncodeProvenance)])])
  }

  predicate ValidResult(check: ResultCheck, r: SearchResult) {
    r.rank >= 1 && !Blank(r.retriever) && check(r)
  }

  /** Results written before provenance existed lack its field. */
  function DecodeResultFields(check: ResultCheck, f: map<Key, Json>): Option<SearchResult>
    requires LEGACY_RESULT_FIELDS <= f.Keys
  {
    var provenance := if ProvenanceField in f then MaybeOf(f[ProvenanceField], DecodeProvenance) else Some(None);
    match (NumberOf(f[ScoreField]), TextOf(f[RetrieverField]), FieldsOf(f[TraceField]), provenance)
    case (Some(score), Some(retriever), Some(trace), Some(p)) =>
      if !f[RankField].JInt? then None
      else
        var r := SearchResult(f[ChunkField], score, f[RankField].i, retriever, trace, p);
        if ValidResult(check, r) then Some(r) else None
    case _ => None
  }

  function DecodeResult(check: ResultCheck, j: Json): Option<SearchResult> {
    match Exactly(j, {ArtifactSchemaVersion, SearchResultField})
    case None => None
    case Some(envelope) =>
      if envelope[ArtifactSchemaVersion] != JInt(RESULT_SCHEMA_VERSION) then None
      else match FieldsOf(envelope[SearchResultField])
        case None => None
        case Some(f) =>
          if f.Keys == LEGACY_RESULT_FIELDS || f.Keys == LEGACY_RESULT_FIELDS + {ProvenanceField}
          then DecodeResultFields(check, f) else None
  }

  lemma ResultFieldsRoundTrip(check: ResultCheck, r: SearchResult, f: map<Key, Json>)
    requires ValidResult(check, r)
    requires LEGACY_RESULT_FIELDS <= f.Keys
    requires f[ChunkField] == r.chunk && f[ScoreField] == JReal(r.score) && f[RankField] == JInt(r.rank)
    requires f[RetrieverField] == JString(r.retriever) && f[TraceField] == JObject(r.trace)
    requires if ProvenanceField in f then f[ProvenanceField] == Maybe(r.provenance, EncodeProvenance) else r.provenance.None?
    ensures DecodeResultFields(check, f) == Some(r)
  {
    if r.provenance.Some? {
      ProvenanceRoundTrip(r.provenance.value);
    }
    hide DecodeProvenance, ValidResult;
  }

  lemma ResultRoundTrip(check: ResultCheck, r: SearchResult)
    requires ValidResult(check, r)
    ensures DecodeResult(check, EncodeResult(r)) == Some(r)
  {
    hide ValidResult, DecodeResultFields;
    ResultFieldsRoundTrip(check, r, EncodeResult(r).fields[SearchResultField].fields);
  }

  // ----- adaptive retrieval -----

  function EncodeAdaptive(a: Adaptive): Json {
    JObject(map[ResultsField := JArray(Items(a.results, EncodeResult)), AnalysisField := EncodeAnalysis(a.analysis),
                EvidenceCheckField := EncodeEvidence(a.evidence), MergeTrace := JObject(a.mergeTrace), DetailField := a.detail])
  }

  function DecodeAdaptive(check: ResultCheck, j: Json): Option<Adaptive> {
    match Exactly(j, {ResultsField, AnalysisField, EvidenceCheckField, MergeTrace, DetailField})
    case None => None
    case Some(f) =>
      match (ReadResults(check, f[ResultsField]), DecodeAnalysis(f[AnalysisField]),
             DecodeEvidence(f[EvidenceCheckField]), FieldsOf(f[MergeTrace]))
      case (Some(results), Some(analysis), Some(evidence), Some(trace)) =>
        Some(Adaptive(results, analysis, evidence, trace, f[DetailField]))
      case _ => None
  }

  function ReadResults(check: ResultCheck, j: Json): Option<seq<SearchResult>> {
    ListOf(j, x => DecodeResult(check, x))
  }

  predicate ValidResults(check: ResultCheck, results: seq<SearchResult>) {
    forall r {:trigger ValidResult(check, r)} | r in results :: ValidResult(check, r)
  }

  lemma ResultsRead(check: ResultCheck, results: seq<SearchResult>)
    requires ValidResults(check, results)
    ensures ReadResults(check, JArray(Items(results, EncodeResult))) == Some(results)
  {
    forall r | r in results ensures DecodeResult(check, EncodeResult(r)) == Some(r) {
      ResultRoundTrip(check, r);
    }
    hide DecodeResult, EncodeResult;
    ItemsRead(results, EncodeResult, x => DecodeResult(check, x));
  }

  lemma AdaptiveRoundTrip(check: ResultCheck, a: Adaptive)
    requires ValidResults(check, a.results)
    ensures DecodeAdaptive(check, EncodeAdaptive(a)) == Some(a)
  {
    ResultsRead(check, a.results);
    AnalysisRoundTrip(a.analysis);
    EvidenceRoundTrip(a.evidence);
    hide ReadResults, Items, DecodeAnalysis, EncodeAnalysis, DecodeEvidence, EncodeEvidence;
  }

  // ----- session checkpoints -----


  function RoleWord(role: Role): Word {
    match role
    case User => UserRole
    case Assistant => AssistantRole
    case Unsupported(name) => OtherWord(Encode(name))
  }

  function EncodeMessage(m: Message): Json {
    JObject(map[RoleField := JWord(RoleWord(m.role)), ContentField := JString(m.content)])
  }

  function DecodeMessage(j: Json): Option<Message> {
    match Exactly(j, {RoleField, ContentField})
    case None => None
    case Some(f) =>
      match (WordOf(f[RoleField]), TextOf(f[ContentField]))
      case (Some(role), Some(content)) =>
        if role == UserRole then Some(Message(User, content))
        else if role == AssistantRole then Some(Message(Assistant, content))
        else None
      case _ => None
  }

  lemma MessageRoundTrip(m: Message)
    requires KnownRole(m.role)
    ensures DecodeMessage(EncodeMessage(m)) == Some(m)
  {
    hide Encode;
  }

  function EncodeCheckpoint(c: SessionCheckpoint): Json {
    JObject(map[SchemaVersion := JInt(c.schemaVersion),
                MemoryField := JObject(map[SchemaVersion := JInt(c.memory.schemaVersion), TokenLimit := JInt(c.memory.tokenLimit),
                                           MessagesField := JArray(Items(c.memory.messages, EncodeMessage))])])
  }

  function DecodeCheckpoint(j: Json): Option<SessionCheckpoint> {
    match Exactly(j, {SchemaVersion, MemoryField})
    case None => None
    case Some(f) =>
      match Exactly(f[MemoryField], {SchemaVersion, TokenLimit, MessagesField})
      case None => None
      case Some(m) =>
        if !f[SchemaVersion].JInt? || !m[SchemaVersion].JInt? || !m[TokenLimit].JInt? then None
        else match ListOf(m[MessagesField], DecodeMessage)
          case None => None
          case Some(messages) =>
            Some(SessionCheckpoint(f[SchemaVersion].i, Checkpoint(m[SchemaVersion].i, m[TokenLimit].i, messages)))
  }

  lemma CheckpointRoundTrip(c: SessionCheckpoint)
    requires forall m | m in c.memory.messages :: KnownRole(m.role)
    ensures DecodeCheckpoint(EncodeCheckpoint(c)) == Some(c)
  {
    forall m | m in c.memory.messages ensures DecodeMessage(EncodeMessage(m)) == Some(m) {
      MessageRoundTrip(m);
    }
    hide DecodeMessage, EncodeMessage;
    ItemsRead(c.memory.messages, EncodeMessage, DecodeMessage);
  }

  // ----- raw model responses -----


  function EncodeRaw(raw: RawResponse): Json {
    match raw
    case NoResponse => JObject(map[KindField := JWord(NoneKind), ValueField := JNull])
    case TextResponse(text) => JObject(map[KindField := JWord(TextKind), ValueField := JString(text)])
    case StructuredResponse(answer) => JObject(map[KindField := JWord(AnswerKind), ValueField := EncodeAnswer(answer)])
  }

  function DecodeRaw(j: Json): Option<RawResponse> {
    match Exactly(j, {KindField, ValueField})
    case None => None
    case Some(f) =>
      var value := f[ValueField];
      if f[KindField] == JWord(NoneKind) then (if value == JNull then Some(NoResponse) else None)
      else if f[KindField] == JWord(TextKind) then
        (match TextOf(value) case Some(text) => Some(TextResponse(text)) case None => None)
      else if f[KindField] == JWord(AnswerKind) then
        (match DecodeAnswer(value) case Some(answer) => Some(StructuredResponse(answer)) case None => None)
      else None
  }

  lemma RawRoundTrip(raw: RawResponse)
    ensures DecodeRaw(EncodeRaw(raw)) == Some(raw)
  {
    if raw.StructuredResponse? {
      AnswerRoundTrip(raw.answer);
    }
    hide Encode, EncodeAnswer, DecodeAnswer;
  }

  // ----- optional parts -----

  function DecodeMode(j: Json): Option<Word> {
    if j.JWord? && KnownMode(j.word) then Some(j.word) else None
  }

  function WriteWord(x: Option<Word>): Json { Maybe(x, w => JWord(w)) }
  function ReadWord(j: Json): Option<Option<Word>> { MaybeOf(j, WordOf) }
  function ReadMode(j: Json): Option<Option<Word>> { MaybeOf(j, DecodeMode) }
  function WriteAnswer(x: Option<Answer>): Json { Maybe(x, EncodeAnswer) }
  function ReadAnswer(j: Json): Option<Option<Answer>> { MaybeOf(j, DecodeAnswer) }
  function WriteEvidence(x: Option<EvidenceCheck>): Json { Maybe(x, EncodeEvidence) }
  function ReadEvidence(j: Json): Option<Option<EvidenceCheck>> { MaybeOf(j, DecodeEvidence) }
  function WriteVerification(x: Option<Verification>): Json { Maybe(x, EncodeVerification) }
  function ReadVerification(j: Json): Option<Option<Verification>> { MaybeOf(j, DecodeVerification) }
  function WriteBoundary(x: Option<Boundary>): Json { Maybe(x, EncodeBoundary) }
  function ReadBoundary(j: Json): Option<Option<Boundary>> { MaybeOf(j, DecodeBoundary) }
  function WriteAdaptive(x: Option<Adaptive>): Json { Maybe(x, EncodeAdaptive) }
  function ReadAdaptive(check: ResultCheck, j: Json): Option<Option<Adaptive>> { MaybeOf(j, x => DecodeAdaptive(check, x)) }

  predicate KnownModeOrNone(mode: Option<Word>) {
    mode.Some? ==> KnownMode(mode.value)
  }

  /** Every optional part reads back as it was written. */
  lemma OptionalWordRoundTrip(x: Option<Word>)
    ensures ReadWord(WriteWord(x)) == Some(x)
    ensures KnownModeOrNone(x) ==> ReadMode(WriteWord(x)) == Some(x)
  {
  }

  lemma OptionalAnswerRoundTrip(x: Option<Answer>)
    ensures ReadAnswer(WriteAnswer(x)) == Some(x)
  {
    if x.Some? { AnswerRoundTrip(x.value); }
    hide DecodeAnswer;
  }

  lemma OptionalEvidenceRoundTrip(x: Option<EvidenceCheck>)
    ensures ReadEvidence(WriteEvidence(x)) == Some(x)
  {
    if x.Some? { EvidenceRoundTrip(x.value); }
    hide DecodeEvidence;
  }

  lemma OptionalVerificationRoundTrip(x: Option<Verification>)
    ensures ReadVerification(WriteVerification(x)) == Some(x)
  {
    if x.Some? { VerificationRoundTrip(x.value); }
    hide DecodeVerification;
  }

  lemma OptionalBoundaryRoundTrip(x: Option<Boundary>)
    ensures ReadBoundary(WriteBoundary(x)) == Some(x)
  {
    if x.Some? { BoundaryRoundTrip(x.value); }
    hide DecodeBoundary;
  }

  lemma OptionalAdaptiveRoundTrip(check: ResultCheck, x: Option<Adaptive>)
    requires x.Some? ==> ValidResults(check, x.value.results)
    ensures ReadAdaptive(check, WriteAdaptive(x)) == Some(x)
  {
    if x.Some? { AdaptiveRoundTrip(check, x.value); }
    hide DecodeAdaptive;
  }

  function ReadTexts(j: Json): Option<seq<Text>> { ListOf(j, TextOf) }

  lemma TextListRoundTrip(ts: seq<Text>)
    ensures ReadTexts(Texts(ts)) == Some(ts)
  {
    TextsRead(ts);
  }
}
