/** Scorer and decoder of completed cases (evaluation_scoring.py, evaluation_artifacts.py). */
module Scoring {
  // Two case analyses of legal_rag written apart, and the exact condition under which they agree.

  import opened Common
  import opened EvalCases
  import opened Strings

  // ----- values -----

  datatype MetricName =
    | AnswerText | HitAt3 | HitAt5 | Mrr | TargetCoverage | RetrievalTargetHit | CitationHit | KeywordCoverage
    | SchemaValid | EvidenceCatalogValid | SourceIdsExist | CitationIdsValid | CitationAlignmentValid
    | EvidenceScopeValid | CitationValid | DisclaimerPresent | ResponseModeValid | VerifierPass
    | SemanticSupportStatus | ResponseModeCorrect | RefusalRecallHit | RefusalCorrectness | OverRefusal
    | JudgeFaithfulness | JudgeRelevance | JudgeCompleteness | JudgePass

  const CANONICAL_METRICS: set<MetricName> := {
    AnswerText, HitAt3, HitAt5, Mrr, TargetCoverage, RetrievalTargetHit, CitationHit, KeywordCoverage,
    SchemaValid, EvidenceCatalogValid, SourceIdsExist, CitationIdsValid, CitationAlignmentValid,
    EvidenceScopeValid, CitationValid, DisclaimerPresent, ResponseModeValid, VerifierPass,
    SemanticSupportStatus, ResponseModeCorrect, RefusalRecallHit, RefusalCorrectness, OverRefusal,
    JudgeFaithfulness, JudgeRelevance, JudgeCompleteness, JudgePass }

  datatype SemanticStatus = Supported | Unsupported | Uncertain | NotChecked | UnknownSemantics(name: string)

  datatype JudgeCode = JudgeFailure | Timeout | TransportError | InvalidJson | InvalidSchema | UnknownJudgeCode(name: string)

  /** Machine-readable reasons; Other is any further string a decoded record may carry. */
  datatype Reason =
    | RetrievalOnly | ServiceFailed | GenerationFailed | ProgrammaticTerminal | JudgeNotConfigured
    | JudgeStopped(code: JudgeCode) | VerificationNotAvailable | VerificationFailed | ScopeCheckNotConfigured
    | NotExpectedToRefuse | NotExpectedToAnswer | NoRetrievalGold | NoArticleGold | Other(text: string)

  predicate Meaningful(r: Option<Reason>) {
    r.Some? && (r.value.Other? ==> NonBlank(r.value.text))
  }

  datatype Value = Null | Text(text: string) | Bool(b: bool) | Int(i: int) | Number(r: real) | Semantics(s: SemanticStatus)

  datatype Metric = Metric(value: Value, reason: Option<Reason>)

  /** Python compares booleans, integers and floats by numeric value. */
  predicate NumericallyEqual(v: Value, r: real) {
    match v
    case Bool(b) => (if b then 1.0 else 0.0) == r
    case Int(i) => i as real == r
    case Number(x) => x == r
    case _ => false
  }

  // ----- what a completed case hands to the scorer -----

  datatype SearchResult = SearchResult(lawNames: seq<string>, articleNumbers: seq<string>, rank: int)

  datatype Verification = Verification(
    passed: bool, schemaValid: bool, catalogValid: bool, citationIdsValid: bool, alignmentValid: bool,
    scopeValid: Option<bool>, disclaimerPresent: bool, responseModeValid: bool, semantics: SemanticStatus,
    actualMode: Mode, refusalPresent: bool, missingSourceIds: seq<string>)

  datatype JudgeStatus = JudgeSucceeded | JudgeErrored | UnknownJudgeStatus(name: string)

  datatype JudgeMessage = NoMessage | SafeMessage(text: string) | UnsafeMessage(text: string)

  datatype JudgeResult = JudgeResult(
    status: JudgeStatus, faithfulness: Option<real>, relevance: Option<real>, completeness: Option<real>,
    passed: Option<bool>, error: JudgeMessage, errorCode: Option<JudgeCode>)

  datatype Usage = Usage(
    calls: int, failedCalls: int, inputTokens: int, outputTokens: int, totalTokens: int, tokenUsageCalls: int, latencyMs: real)

  datatype GenerationKind =
    | ModelKind | GenerationErrorKind | RetrievalOnlyKind | ServiceErrorKind
    | PreRetrievalRefusal | EvidenceLimited | ProgrammaticTerminalKind | UnknownKind(name: string)

  datatype ServiceError = NoError | ServiceFailure | UnsafeError(text: string)

  datatype Outcome = Outcome(
    case_: EvalCase, model: string, retriever: string, chunkStrategy: string, topK: int, generate: bool,
    results: seq<SearchResult>, answer: string, sufficient: bool, stopReason: string, checkedResults: int,
    verification: Option<Verification>, structuredMode: Option<Mode>,
    preFallbackMode: Option<Mode>, preFallbackVerification: Option<Verification>,
    kind: GenerationKind, generationError: bool, judgeConfigured: bool, judge: Option<JudgeResult>,
    error: ServiceError, latencyMs: int, assistantUsage: Usage, normalizerUsage: Usage, judgeUsage: Usage)

  predicate Programmatic(kind: GenerationKind) {
    kind.PreRetrievalRefusal? || kind.EvidenceLimited? || kind.ProgrammaticTerminalKind?
  }

  /** ModelUsageDelta.from_mapping */
  predicate ValidUsage(u: Usage) {
    && u.calls >= 0 && u.failedCalls >= 0 && u.inputTokens >= 0 && u.outputTokens >= 0
    && u.totalTokens >= 0 && u.tokenUsageCalls >= 0 && u.latencyMs >= 0.0
    && u.failedCalls <= u.calls && u.tokenUsageCalls <= u.calls
    && (u.tokenUsageCalls == 0 ==> u.inputTokens == 0 && u.outputTokens == 0 && u.totalTokens == 0)
    && u.totalTokens >= u.inputTokens + u.outputTokens
  }

  predicate UnitScore(r: Option<real>) { r.Some? && 0.0 <= r.value <= 1.0 }

  predicate ValidJudge(j: JudgeResult) {
    match j.status
    case JudgeSucceeded =>
      && UnitScore(j.faithfulness) && UnitScore(j.relevance) && UnitScore(j.completeness)
      && j.passed == Some(j.faithfulness.value >= 0.7 && j.relevance.value >= 0.7)
      && j.error.NoMessage? && j.errorCode.None?
    case JudgeErrored =>
      && j.faithfulness.None? && j.relevance.None? && j.completeness.None? && j.passed.None?
      && j.errorCode.Some? && !j.errorCode.value.UnknownJudgeCode?
      && j.error.SafeMessage?
    case UnknownJudgeStatus(_) => false
  }

  predicate NoDownstreamFacts(o: Outcome) {
    && o.verification.None? && o.structuredMode.None? && o.preFallbackMode.None?
    && o.preFallbackVerification.None? && !o.generationError && o.judge.None?
  }

  /** _validate_completed_case_outcome */
  predicate ValidOutcome(o: Outcome) {
    && ValidCase(o.case_)
    && NonBlank(o.model) && NonBlank(o.retriever) && NonBlank(o.chunkStrategy)
    && o.topK >= 1
    && !o.error.UnsafeError?
    && NonBlank(o.stopReason) && o.checkedResults >= 0
    && !o.kind.UnknownKind?
    && (o.preFallbackMode.None? <==> o.preFallbackVerification.None?)
    && (o.preFallbackVerification.Some? ==>
          !o.preFallbackVerification.value.passed && o.preFallbackMode == Some(o.preFallbackVerification.value.actualMode))
    && (!o.generate ==> o.kind.RetrievalOnlyKind? && o.answer == "" && NoDownstreamFacts(o))
    && (!o.error.NoError? ==>
          && o.kind == (if o.generate then ServiceErrorKind else RetrievalOnlyKind)
          && o.answer == "" && o.results == [] && NoDownstreamFacts(o))
    && (if o.generationError
        then o.generate && o.error.NoError? && o.judge.None? && o.preFallbackMode.None? && o.kind.GenerationErrorKind?
        else !o.kind.GenerationErrorKind?)
    && (o.generate && o.error.NoError? && !o.generationError ==> o.kind.ModelKind? || Programmatic(o.kind))
    && (o.preFallbackMode.Some? ==> o.kind.ModelKind?)
    && (o.generate && o.error.NoError? ==> o.verification.Some?)
    && (o.generate && o.error.NoError? && !o.generationError && o.judgeConfigured ==> o.judge.Some?)
    && (!o.judgeConfigured ==> o.judge.None?)
    && o.latencyMs >= 0
    && ValidUsage(o.assistantUsage) && ValidUsage(o.normalizerUsage) && ValidUsage(o.judgeUsage)
    && (!o.generate ==> o.assistantUsage.calls == 0)
    && (o.judge.None? ==> o.judgeUsage.calls == 0)
    && (o.judge.Some? ==> ValidJudge(o.judge.value))
  }

  // ----- metrics of the retrieved results -----

  predicate HasGold(c: EvalCase) { c.expectedLaw != "" || c.expectedArticles != [] }

  predicate Matches(r: SearchResult, c: EvalCase) {
    && HasGold(c)
    && (c.expectedLaw == "" || c.expectedLaw in r.lawNames)
    && (c.expectedArticles == [] || exists a | a in c.expectedArticles :: a in r.articleNumbers)
  }

  function FirstResults(results: seq<SearchResult>, k: int): seq<SearchResult> {
    if 0 <= k < |results| then results[..k] else results
  }

  function HitAtK(results: seq<SearchResult>, c: EvalCase, k: int): int {
    if exists r | r in FirstResults(results, k) :: Matches(r, c) then 1 else 0
  }

  function CitationHitOf(results: seq<SearchResult>, c: EvalCase): int {
    if exists r | r in results :: Matches(r, c) then 1 else 0
  }

  /** The nearest integer, with ties to even. */
  function Nearest(y: real): int {
    var low := y.Floor;
    var gap := y - low as real;
    if gap < 0.5 then low else if gap > 0.5 then low + 1 else if low % 2 == 0 then low else low + 1
  }

  /** Python's round(x, digits) for scale = 10^digits, over the reals. */
  function Rounded(x: real, scale: int): real
    requires scale > 0
  {
    Nearest(x * scale as real) as real / scale as real
  }

  lemma NearestInRange(y: real, top: int)
    requires 0.0 <= y
    ensures 0 <= Nearest(y)
    ensures y <= top as real ==> Nearest(y) <= top
  {
  }

  lemma RoundedInRange(x: real, scale: int)
    requires scale > 0 && x >= 0.0
    ensures Rounded(x, scale) >= 0.0
    ensures x <= 1.0 ==> Rounded(x, scale) <= 1.0
  {
    hide Nearest;
    var y := x * scale as real;
    ScaledInRange(x, scale);
    NearestInRange(y, scale);
    QuotientInRange(Nearest(y), scale);
  }

  lemma QuotientInRange(n: int, scale: int)
    requires n >= 0 && scale > 0
    ensures 0.0 <= n as real / scale as real
    ensures n <= scale ==> n as real / scale as real <= 1.0
  {
    DivNonNegative(n as real, scale as real);
    if n <= scale {
      DivAtMostOne(n as real, scale as real);
    }
  }

  lemma ScaledInRange(x: real, scale: int)
    requires scale > 0 && x >= 0.0
    ensures x * scale as real >= 0.0
    ensures x <= 1.0 ==> x * scale as real <= scale as real
  {
    if x <= 1.0 {
      var slack := 1.0 - x;
      assert slack * scale as real >= 0.0;
      assert slack * scale as real == scale as real - x * scale as real;
    }
  }

  lemma DivAtMostOne(n: real, s: real)
    requires s > 0.0 && n <= s
    ensures n / s <= 1.0
  {
  }

  lemma DivNonNegative(n: real, s: real)
    requires s > 0.0 && n >= 0.0
    ensures n / s >= 0.0
  {
  }

  function MeanReciprocalRank(results: seq<SearchResult>, c: EvalCase): real
    requires forall r | r in results :: r.rank >= 1
  {
    if results == [] then 0.0
    else if Matches(results[0], c) then Rounded(1.0 / results[0].rank as real, 10000)
    else MeanReciprocalRank(results[1..], c)
  }

  function CoveredArticles(results: seq<SearchResult>, c: EvalCase, k: int): set<string> {
    set a | a in c.expectedArticles &&
            exists r | r in FirstResults(results, k) ::
              (c.expectedLaw == "" || c.expectedLaw in r.lawNames) && a in r.articleNumbers
  }

  function TargetCoverageOf(results: seq<SearchResult>, c: EvalCase, k: int): real {
    if c.expectedArticles == [] then 0.0
    else Rounded(|CoveredArticles(results, c, k)| as real / |c.expectedArticles| as real, 10000)
  }

  function MatchedKeywords(answer: string, keywords: seq<string>): (n: nat)
    ensures n <= |keywords|
  {
    if keywords == [] then 0
    else (if keywords[0] != "" && Occurs(keywords[0], answer) then 1 else 0) + MatchedKeywords(answer, keywords[1..])
  }

  function KeywordCoverageOf(answer: string, keywords: seq<string>): real {
    if keywords == [] then 0.0 else Rounded(MatchedKeywords(answer, keywords) as real / |keywords| as real, 10000)
  }

  // ----- the scorer -----

  datatype Status = Succeeded | Degraded | Errored | NotRun | UnknownStatus(name: string)

  datatype Stage = Stage(status: Status, reason: Option<Reason>)

  datatype Execution = Execution(service: Stage, generation: Stage, verification: Stage, judge: Stage)

  datatype AttemptStatus = Accepted | Rejected | AttemptError | AttemptNotRun | UnknownAttempt(name: string)

  /** generation_attempt: the two-field shape of retrieval-only cases, or all five fields. */
  datatype Attempt =
    | MinimalAttempt(attempted: bool, onlyReason: Option<Reason>)
    | FullAttempt(attempted: bool, status: AttemptStatus, reason: Option<Reason>, mode: Option<Mode>, hasVerification: bool)

  const SUCCESS := Stage(Succeeded, None)

  function ExecutionOf(o: Outcome): Execution
    requires o.generate && o.error.NoError? && !o.generationError && o.judgeConfigured ==> o.judge.Some?
  {
    var failed := !o.error.NoError?;
    Execution(
      if failed then Stage(Errored, Some(ServiceFailed))
      else if o.generationError then Stage(Degraded, Some(GenerationFailed)) else SUCCESS,
      if !o.generate then
        (if o.generationError && !failed then Stage(Errored, Some(GenerationFailed)) else Stage(NotRun, Some(RetrievalOnly)))
      else if failed then Stage(Errored, Some(ServiceFailed))
      else if o.generationError then Stage(Errored, Some(GenerationFailed))
      else if Programmatic(o.kind) then Stage(NotRun, Some(ProgrammaticTerminal)) else SUCCESS,
      if !o.generate then Stage(NotRun, Some(RetrievalOnly))
      else if failed then Stage(NotRun, Some(ServiceFailed))
      else if o.verification.None? then Stage(NotRun, Some(VerificationNotAvailable)) else SUCCESS,
      if !o.generate then Stage(NotRun, Some(RetrievalOnly))
      else if failed then Stage(NotRun, Some(ServiceFailed))
      else if o.generationError then Stage(NotRun, Some(GenerationFailed))
      else if !o.judgeConfigured then Stage(NotRun, Some(JudgeNotConfigured))
      else if JudgeDone(o) then SUCCESS
      else Stage(Errored, Some(JudgeStopped(if o.judge.value.errorCode.Some? then o.judge.value.errorCode.value else JudgeFailure))))
  }

  predicate JudgeDone(o: Outcome) { o.judge.Some? && o.judge.value.status.JudgeSucceeded? }

  function AttemptOf(o: Outcome): Attempt {
    if !o.generate then MinimalAttempt(false, Some(RetrievalOnly))
    else
      var failed := !o.error.NoError?;
      FullAttempt(
        !failed && !Programmatic(o.kind),
        if o.preFallbackVerification.Some? then Rejected
        else if failed || o.generationError then AttemptError
        else if Programmatic(o.kind) then AttemptNotRun else Accepted,
        if o.preFallbackVerification.Some? then Some(VerificationFailed)
        else if o.generationError then Some(GenerationFailed)
        else if failed then Some(ServiceFailed)
        else if Programmatic(o.kind) then Some(ProgrammaticTerminal) else None,
        if o.preFallbackMode.Some? then o.preFallbackMode else o.structuredMode,
        o.preFallbackVerification.Some?)
  }

  function ObservedMode(o: Outcome): Option<Mode> {
    if o.structuredMode.Some? then o.structuredMode
    else if o.verification.Some? then Some(o.verification.value.actualMode) else None
  }

  /** Why the metrics that need an answer, or a verification, are missing; None when they are not. */
  function AnswerReason(o: Outcome): Option<Reason> {
    if !o.generate then Some(RetrievalOnly) else if !o.error.NoError? then Some(ServiceFailed) else None
  }

  function VerificationReason(o: Outcome): Option<Reason> {
    if o.verification.Some? then None
    else if !o.generate then Some(RetrievalOnly)
    else if !o.error.NoError? then Some(ServiceFailed) else Some(VerificationNotAvailable)
  }

  function RefusalMetric(o: Outcome): Metric {
    if !o.generate then Metric(Null, Some(RetrievalOnly))
    else if !ResolvedBehavior(o.case_).OutOfScope? then Metric(Null, Some(NotExpectedToRefuse))
    else if o.verification.None? then Metric(Null, VerificationReason(o))
    else Metric(Bool(o.verification.value.refusalPresent), None)
  }

  function OverRefusalMetric(o: Outcome): Metric {
    var expected := ResolvedBehavior(o.case_);
    if !expected.EvidenceAnswer? && !expected.InsufficientEvidence? then Metric(Null, Some(NotExpectedToAnswer))
    else if o.verification.None? then Metric(Null, VerificationReason(o))
    else Metric(Bool(o.verification.value.refusalPresent), None)
  }

  predicate CitationsValid(v: Verification) { v.citationIdsValid && v.scopeValid != Some(false) }

  function WithGold(o: Outcome, value: Value): Metric {
    if HasGold(o.case_) then Metric(value, None) else Metric(Null, Some(NoRetrievalGold))
  }

  function OptionalNumber(r: Option<real>): Value {
    match r case Some(x) => Number(x) case None => Null
  }

  function JudgeMetric(o: Outcome, name: MetricName): Metric
    requires o.generate && o.error.NoError? && !o.generationError && o.judgeConfigured ==> o.judge.Some?
  {
    if !JudgeDone(o) then Metric(Null, ExecutionOf(o).judge.reason)
    else
      var j := o.judge.value;
      Metric(match name
             case JudgeFaithfulness => OptionalNumber(j.faithfulness)
             case JudgeRelevance => OptionalNumber(j.relevance)
             case JudgeCompleteness => OptionalNumber(j.completeness)
             case _ => if j.passed.Some? then Bool(j.passed.value) else Null,
             None)
  }

  /** The metrics read off the verification; the observed mode is compared with the expected one. */
  function VerificationMetric(o: Outcome, name: MetricName): Metric {
    if o.verification.None? then Metric(Null, VerificationReason(o))
    else
      var v := o.verification.value;
      match name
      case SchemaValid => Metric(Bool(v.schemaValid), None)
      case EvidenceCatalogValid => Metric(Bool(v.catalogValid), None)
      case SourceIdsExist => Metric(Bool(v.catalogValid && v.missingSourceIds == []), None)
      case CitationIdsValid => Metric(Bool(v.citationIdsValid), None)
      case CitationAlignmentValid => Metric(Bool(v.alignmentValid), None)
      case EvidenceScopeValid =>
        if v.scopeValid.None? then Metric(Null, Some(ScopeCheckNotConfigured)) else Metric(Bool(v.scopeValid.value), None)
      case CitationValid => Metric(Bool(CitationsValid(v)), None)
      case DisclaimerPresent => Metric(Bool(v.disclaimerPresent), None)
      case ResponseModeValid => Metric(Bool(v.responseModeValid), None)
      case VerifierPass => Metric(Bool(v.passed), None)
      case SemanticSupportStatus => Metric(Semantics(v.semantics), None)
      case _ =>
        if ObservedMode(o).None? then Metric(Null, None)
        else Metric(Bool(ObservedMode(o).value == ResolvedBehavior(o.case_) && v.responseModeValid), None)
  }

  predicate Scorable(o: Outcome) {
    && (forall r | r in o.results :: r.rank >= 1)
    && (o.generate && o.error.NoError? && !o.generationError && o.judgeConfigured ==> o.judge.Some?)
  }

  function MetricOf(o: Outcome, name: MetricName): Metric
    requires Scorable(o)
  {
    var c := o.case_;
    match name
    case AnswerText => Metric(if AnswerReason(o).None? then Text(o.answer) else Null, AnswerReason(o))
    case HitAt3 => WithGold(o, Int(HitAtK(o.results, c, 3)))
    case HitAt5 => WithGold(o, Int(HitAtK(o.results, c, 5)))
    case Mrr => WithGold(o, Number(MeanReciprocalRank(o.results, c)))
    case TargetCoverage =>
      if c.expectedArticles != [] then Metric(Number(TargetCoverageOf(o.results, c, o.topK)), None)
      else Metric(Null, Some(NoArticleGold))
    case RetrievalTargetHit => WithGold(o, Int(CitationHitOf(o.results, c)))
    case CitationHit => WithGold(o, Int(CitationHitOf(o.results, c)))
    case KeywordCoverage =>
      Metric(if AnswerReason(o).None? then Number(KeywordCoverageOf(o.answer, c.keywords)) else Null, AnswerReason(o))
    case RefusalRecallHit => RefusalMetric(o)
    case RefusalCorrectness => RefusalMetric(o)
    case OverRefusal => OverRefusalMetric(o)
    case JudgeFaithfulness | JudgeRelevance | JudgeCompleteness | JudgePass => JudgeMetric(o, name)
    case _ => VerificationMetric(o, name)
  }

  // ----- the record -----

  datatype Record = Record(
    caseId: string, caseType: string, model: string, retriever: string, chunkStrategy: string,
    hitAt3: int, hitAt5: int, mrr: real, targetCoverage: real, keywordCoverage: real, citationHit: int,
    sufficiencyPass: int, citationValid: int, verifierPass: int, refusalCorrectness: int, latencyMs: int,
    judgeFaithfulness: real, judgeRelevance: real, judgeCompleteness: real, judgePass: int, judgeError: string,
    assistantCalls: int, normalizerCalls: int, judgeCalls: int, failedCalls: int,
    inputTokens: int, outputTokens: int, totalTokens: int, tokenUsageCalls: int, llmLatencyMs: real,
    metricsSchema: int, expectedBehavior: Mode, observedMode: Option<Mode>,
    execution: Execution, metrics: map<MetricName, Metric>, attempt: Attempt)

  const METRICS_SCHEMA_VERSION := 2

  function Flag(v: Value): int {
    if v == Bool(true) then 1 else if v == Bool(false) then 0 else -1
  }

  function ScoreOr(r: Option<real>, sentinel: real): real {
    match r case Some(x) => x case None => sentinel
  }

  function RecordOf(o: Outcome): Record
    requires Scorable(o)
  {
    var c, a, n, j := o.case_, o.assistantUsage, o.normalizerUsage, o.judgeUsage;
    var done := JudgeDone(o);
    Record(
      c.caseId, c.caseType, o.model, o.retriever, o.chunkStrategy,
      HitAtK(o.results, c, 3), HitAtK(o.results, c, 5), MeanReciprocalRank(o.results, c),
      TargetCoverageOf(o.results, c, o.topK),
      if AnswerReason(o).None? then KeywordCoverageOf(o.answer, c.keywords) else -1.0,
      CitationHitOf(o.results, c),
      if o.sufficient then 1 else 0,
      if o.verification.Some? then (if CitationsValid(o.verification.value) then 1 else 0) else -1,
      if o.verification.Some? then (if o.verification.value.passed then 1 else 0) else -1,
      Flag(RefusalMetric(o).value),
      o.latencyMs,
      if done then ScoreOr(o.judge.value.faithfulness, -1.0) else -1.0,
      if done then ScoreOr(o.judge.value.relevance, -1.0) else -1.0,
      if done then ScoreOr(o.judge.value.completeness, -1.0) else -1.0,
      if done then (if o.judge.value.passed == Some(true) then 1 else 0) else -1,
      if o.judge.Some? && !done then (match o.judge.value.error case SafeMessage(t) => t case UnsafeMessage(t) => t case NoMessage => "") else "",
      a.calls, n.calls, j.calls, a.failedCalls + n.failedCalls + j.failedCalls,
      a.inputTokens + n.inputTokens + j.inputTokens, a.outputTokens + n.outputTokens + j.outputTokens,
      a.totalTokens + n.totalTokens + j.totalTokens, a.tokenUsageCalls + n.tokenUsageCalls + j.tokenUsageCalls,
      Rounded(a.latencyMs + n.latencyMs + j.latencyMs, 1000),
      METRICS_SCHEMA_VERSION, ResolvedBehavior(c), ObservedMode(o),
      ExecutionOf(o), map name | name in CANONICAL_METRICS :: MetricOf(o, name), AttemptOf(o))
  }

  // ----- the decoder -----

  predicate StageAccepted(s: Stage, allowed: set<Status>) {
    && s.status in allowed
    && (if s.status.Succeeded? then s.reason.None? else Meaningful(s.reason))
  }

  /** _validate_execution */
  predicate ExecutionAccepted(e: Execution) {
    && StageAccepted(e.service, {Succeeded, Degraded, Errored})
    && StageAccepted(e.generation, {Succeeded, Errored, NotRun})
    && StageAccepted(e.verification, {Succeeded, Errored, NotRun})
    && StageAccepted(e.judge, {Succeeded, Errored, NotRun})
  }

  predicate ValueAccepted(name: MetricName, v: Value) {
    match name
    case AnswerText => v.Text?
    case HitAt3 | HitAt5 | RetrievalTargetHit | CitationHit => v == Int(0) || v == Int(1)
    case Mrr | TargetCoverage | KeywordCoverage | JudgeFaithfulness | JudgeRelevance | JudgeCompleteness =>
      v.Number? && 0.0 <= v.r <= 1.0
    case SemanticSupportStatus => v.Semantics? && !v.s.UnknownSemantics?
    case _ => v.Bool?
  }

  predicate MetricAccepted(name: MetricName, m: Metric) {
    if m.value.Null? then Meaningful(m.reason) else m.reason.None? && ValueAccepted(name, m.value)
  }

  /** _validate_canonical_metrics */
  predicate MetricsAccepted(metrics: map<MetricName, Metric>) {
    metrics.Keys == CANONICAL_METRICS && forall name | name in metrics :: MetricAccepted(name, metrics[name])
  }

  /** _validate_generation_attempt */
  predicate AttemptAccepted(a: Attempt) {
    match a
    case MinimalAttempt(attempted, reason) => !attempted && reason == Some(RetrievalOnly)
    case FullAttempt(attempted, status, reason, mode, hasVerification) =>
      && (reason.Some? ==> Meaningful(reason))
      && (match status
          case Accepted => attempted && reason.None?
          case Rejected => attempted && reason.Some?
          case AttemptNotRun => !attempted && reason.Some?
          case AttemptError => reason.Some?
          case UnknownAttempt(_) => false)
      && (mode.Some? ==> Allowed(mode.value))
      && (status.Rejected? <==> hasVerification)
  }

  /** A canonical value agrees with its legacy field; a missing one leaves the field at its sentinel. */
  predicate Agrees(r: Record, name: MetricName, legacy: real)
    requires r.metrics.Keys == CANONICAL_METRICS && name in CANONICAL_METRICS
  {
    !r.metrics[name].value.Null? ==> NumericallyEqual(r.metrics[name].value, legacy)
  }

  predicate AgreesOrSentinel(r: Record, name: MetricName, legacy: real)
    requires r.metrics.Keys == CANONICAL_METRICS && name in CANONICAL_METRICS
  {
    if r.metrics[name].value.Null? then legacy == -1.0 else NumericallyEqual(r.metrics[name].value, legacy)
  }

  predicate AvailableIffJudged(r: Record, name: MetricName)
    requires r.metrics.Keys == CANONICAL_METRICS && name in CANONICAL_METRICS
  {
    !r.metrics[name].value.Null? <==> r.execution.judge.status.Succeeded?
  }

  /** _validate_record_consistency */
  predicate ConsistentRecord(r: Record)
    requires r.metrics.Keys == CANONICAL_METRICS
  {
    && Agrees(r, HitAt3, r.hitAt3 as real) && Agrees(r, HitAt5, r.hitAt5 as real)
    && Agrees(r, Mrr, r.mrr) && Agrees(r, TargetCoverage, r.targetCoverage) && Agrees(r, CitationHit, r.citationHit as real)
    && AgreesOrSentinel(r, KeywordCoverage, r.keywordCoverage)
    && AgreesOrSentinel(r, CitationValid, r.citationValid as real)
    && AgreesOrSentinel(r, VerifierPass, r.verifierPass as real)
    && AgreesOrSentinel(r, RefusalCorrectness, r.refusalCorrectness as real)
    && AgreesOrSentinel(r, JudgeFaithfulness, r.judgeFaithfulness)
    && AgreesOrSentinel(r, JudgeRelevance, r.judgeRelevance)
    && AgreesOrSentinel(r, JudgeCompleteness, r.judgeCompleteness)
    && AgreesOrSentinel(r, JudgePass, r.judgePass as real)
    && r.metrics[RetrievalTargetHit] == r.metrics[CitationHit]
    && r.metrics[RefusalRecallHit] == r.metrics[RefusalCorrectness]
    && AvailableIffJudged(r, JudgeFaithfulness) && AvailableIffJudged(r, JudgeRelevance)
    && AvailableIffJudged(r, JudgeCompleteness) && AvailableIffJudged(r, JudgePass)
    && (r.execution.judge.status.Succeeded? ==> r.judgeError == "")
    && (match r.execution.generation.status
        case NotRun => r.attempt.MinimalAttempt? || r.attempt.status.AttemptNotRun?
        case Errored => r.attempt.FullAttempt? && r.attempt.status.AttemptError?
        case Succeeded => r.attempt.FullAttempt? && (r.attempt.status.Accepted? || r.attempt.status.Rejected?)
        case _ => true)
    && var total := r.assistantCalls + r.normalizerCalls + r.judgeCalls;
       && r.failedCalls <= total && r.tokenUsageCalls <= total
       && (r.tokenUsageCalls == 0 ==> r.inputTokens == 0 && r.outputTokens == 0 && r.totalTokens == 0)
       && r.totalTokens >= r.inputTokens + r.outputTokens
  }

  predicate Binary(i: int) { i == 0 || i == 1 }

  predicate Ternary(i: int) { -1 <= i <= 1 }

  predicate UnitOrSentinel(x: real) { x == -1.0 || 0.0 <= x <= 1.0 }

  predicate ScalarsAccepted(r: Record) {
    && NonBlank(r.caseId) && NonBlank(r.caseType) && NonBlank(r.model) && NonBlank(r.retriever) && NonBlank(r.chunkStrategy)
    && Binary(r.hitAt3) && Binary(r.hitAt5) && Binary(r.citationHit) && Binary(r.sufficiencyPass)
    && Ternary(r.citationValid) && Ternary(r.verifierPass) && Ternary(r.refusalCorrectness) && Ternary(r.judgePass)
    && r.latencyMs >= 0 && r.assistantCalls >= 0 && r.normalizerCalls >= 0 && r.judgeCalls >= 0 && r.failedCalls >= 0
    && r.inputTokens >= 0 && r.outputTokens >= 0 && r.totalTokens >= 0 && r.tokenUsageCalls >= 0
    && r.metricsSchema == METRICS_SCHEMA_VERSION
    && UnitOrSentinel(r.mrr) && UnitOrSentinel(r.targetCoverage) && UnitOrSentinel(r.keywordCoverage)
    && UnitOrSentinel(r.judgeFaithfulness) && UnitOrSentinel(r.judgeRelevance) && UnitOrSentinel(r.judgeCompleteness)
    && r.llmLatencyMs >= 0.0
  }

  /** eval_record_from_artifact accepts the record */
  predicate RecordAccepted(r: Record) {
    && ScalarsAccepted(r)
    && Allowed(r.expectedBehavior)
    && (r.observedMode.Some? ==> Allowed(r.observedMode.value))
    && ExecutionAccepted(r.execution)
    && MetricsAccepted(r.metrics)
    && AttemptAccepted(r.attempt)
    && ConsistentRecord(r)
  }

  datatype ScoreError = InvalidOutcome | InvalidResult | UnavailableWithoutReason | RecordRejected

  /** score_completed_case: it validates the outcome, serializes the results, builds every metric (a
      missing value needs a reason) and finally decodes its own record. */
  function Score(o: Outcome): Result<Record, ScoreError> {
    if !ValidOutcome(o) then Err(InvalidOutcome)
    else if exists r | r in o.results :: r.rank < 1 then Err(InvalidResult)
    else if exists name | name in CANONICAL_METRICS :: MetricOf(o, name).value.Null? && MetricOf(o, name).reason.None?
      then Err(UnavailableWithoutReason)
    else if !RecordAccepted(RecordOf(o)) then Err(RecordRejected)
    else Ok(RecordOf(o))
  }

  // ----- the two analyses agree -----

  /** The vocabularies the outcome validator does not check itself. */
  predicate KnownVocabulary(o: Outcome) {
    && (forall r | r in o.results :: r.rank >= 1)
    && (ObservedMode(o).Some? ==> Allowed(ObservedMode(o).value))
    && (o.preFallbackMode.Some? ==> Allowed(o.preFallbackMode.value))
    && (o.verification.Some? ==> !o.verification.value.semantics.UnknownSemantics?)
  }

  lemma {:induction false} MrrInRange(results: seq<SearchResult>, c: EvalCase)
    requires forall r | r in results :: r.rank >= 1
    ensures 0.0 <= MeanReciprocalRank(results, c) <= 1.0
  {
    if results != [] {
      if Matches(results[0], c) {
        assert results[0] in results;
        DivAtMostOne(1.0, results[0].rank as real);
        DivNonNegative(1.0, results[0].rank as real);
        RoundedInRange(1.0 / results[0].rank as real, 10000);
      } else {
        MrrInRange(results[1..], c);
      }
    }
  }

  lemma {:induction false} DistinctAtMostLength(items: seq<string>, chosen: set<string>)
    requires forall x | x in chosen :: x in items
    ensures |chosen| <= |items|
  {
    if items == [] {
      assert chosen == {};
    } else {
      var rest := chosen - {items[0]};
      forall x | x in rest ensures x in items[1..] {
      }
      DistinctAtMostLength(items[1..], rest);
      assert chosen <= rest + {items[0]};
      assert |chosen| <= |rest| + 1 by {
        if items[0] in chosen {
          assert chosen == rest + {items[0]};
        } else {
          assert chosen == rest;
        }
      }
    }
  }

  lemma RatioInRange(n: nat, d: nat)
    requires n <= d && d > 0
    ensures 0.0 <= Rounded(n as real / d as real, 10000) <= 1.0
  {
    DivAtMostOne(n as real, d as real);
    DivNonNegative(n as real, d as real);
    RoundedInRange(n as real / d as real, 10000);
  }

  lemma RetrievalMetricsInRange(o: Outcome)
    requires Scorable(o)
    ensures 0.0 <= MeanReciprocalRank(o.results, o.case_) <= 1.0
    ensures 0.0 <= TargetCoverageOf(o.results, o.case_, o.topK) <= 1.0
    ensures 0.0 <= KeywordCoverageOf(o.answer, o.case_.keywords) <= 1.0
  {
    MrrInRange(o.results, o.case_);
    var c := o.case_;
    if c.expectedArticles != [] {
      DistinctAtMostLength(c.expectedArticles, CoveredArticles(o.results, c, o.topK));
      RatioInRange(|CoveredArticles(o.results, c, o.topK)|, |c.expectedArticles|);
    }
    if c.keywords != [] {
      RatioInRange(MatchedKeywords(o.answer, c.keywords), |c.keywords|);
    }
  }

  lemma ExecutionAlwaysAccepted(o: Outcome)
    requires ValidOutcome(o)
    ensures ExecutionAccepted(ExecutionOf(o))
  {
  }

  lemma AttemptAcceptedIff(o: Outcome)
    requires ValidOutcome(o)
    ensures AttemptAccepted(AttemptOf(o)) <==>
              (o.preFallbackMode.Some? ==> Allowed(o.preFallbackMode.value)) &&
              (o.preFallbackMode.None? && o.structuredMode.Some? ==> Allowed(o.structuredMode.value))
  {
  }

  predicate JudgeName(name: MetricName) {
    name.JudgeFaithfulness? || name.JudgeRelevance? || name.JudgeCompleteness? || name.JudgePass?
  }

  predicate RetrievalName(name: MetricName) {
    name.AnswerText? || name.HitAt3? || name.HitAt5? || name.Mrr? || name.TargetCoverage? ||
    name.RetrievalTargetHit? || name.CitationHit? || name.KeywordCoverage?
  }

  predicate RefusalName(name: MetricName) {
    name.RefusalRecallHit? || name.RefusalCorrectness? || name.OverRefusal?
  }

  lemma RetrievalMetricAccepted(o: Outcome, name: MetricName)
    requires Scorable(o) && RetrievalName(name)
    ensures MetricAccepted(name, MetricOf(o, name))
  {
    RetrievalMetricsInRange(o);
    hide MeanReciprocalRank, TargetCoverageOf, KeywordCoverageOf, Matches, JudgeMetric, VerificationMetric;
  }

  lemma JudgeSettled(o: Outcome)
    requires ValidOutcome(o)
    ensures ExecutionOf(o).judge.status.Succeeded? <==> JudgeDone(o)
    ensures !JudgeDone(o) ==> Meaningful(ExecutionOf(o).judge.reason)
    ensures JudgeDone(o) ==> ValidJudge(o.judge.value)
  {
    hide ValidCase, ValidUsage, NonBlank;
  }

  lemma JudgeMetricAccepted(o: Outcome, name: MetricName)
    requires ValidOutcome(o) && JudgeName(name)
    ensures MetricAccepted(name, JudgeMetric(o, name))
    ensures JudgeMetric(o, name).value.Null? <==> !JudgeDone(o)
  {
    JudgeSettled(o);
    hide ValidOutcome, ExecutionOf;
  }

  lemma VerificationMetricAccepted(o: Outcome, name: MetricName)
    requires !JudgeName(name) && !RetrievalName(name) && !RefusalName(name)
    ensures MetricAccepted(name, VerificationMetric(o, name)) <==>
              (name.SemanticSupportStatus? && o.verification.Some? ==> !o.verification.value.semantics.UnknownSemantics?)
  {
  }

  lemma RefusalMetricsAccepted(o: Outcome)
    ensures MetricAccepted(RefusalRecallHit, RefusalMetric(o)) && MetricAccepted(RefusalCorrectness, RefusalMetric(o))
    ensures MetricAccepted(OverRefusal, OverRefusalMetric(o))
  {
  }

  /** Only the semantic support status can make a metric of a valid outcome unacceptable. */
  lemma MetricAcceptedIff(o: Outcome, name: MetricName)
    requires ValidOutcome(o) && Scorable(o)
    ensures MetricAccepted(name, MetricOf(o, name)) <==>
              (name.SemanticSupportStatus? && o.verification.Some? ==> !o.verification.value.semantics.UnknownSemantics?)
  {
    hide ValidOutcome, MetricAccepted, VerificationMetric, JudgeMetric, RefusalMetric, OverRefusalMetric,
         HitAtK, CitationHitOf, TargetCoverageOf, KeywordCoverageOf, MeanReciprocalRank, Scorable;
    if RetrievalName(name) {
      RetrievalMetricAccepted(o, name);
    } else if JudgeName(name) {
      JudgeMetricAccepted(o, name);
    } else if RefusalName(name) {
      RefusalMetricsAccepted(o);
    } else {
      VerificationMetricAccepted(o, name);
    }
  }

  lemma RetrievalFieldsAgree(o: Outcome)
    requires Scorable(o)
    ensures var r := RecordOf(o);
            && Agrees(r, HitAt3, r.hitAt3 as real) && Agrees(r, HitAt5, r.hitAt5 as real)
            && Agrees(r, Mrr, r.mrr) && Agrees(r, TargetCoverage, r.targetCoverage) && Agrees(r, CitationHit, r.citationHit as real)
            && AgreesOrSentinel(r, KeywordCoverage, r.keywordCoverage)
            && r.metrics[RetrievalTargetHit] == r.metrics[CitationHit]
            && r.metrics[RefusalRecallHit] == r.metrics[RefusalCorrectness]
  {
    hide MeanReciprocalRank, TargetCoverageOf, KeywordCoverageOf, Rounded, HitAtK, CitationHitOf, Matches,
         ExecutionOf, AttemptOf, JudgeMetric, VerificationMetric, RefusalMetric, OverRefusalMetric;
  }

  lemma VerificationFieldsAgree(o: Outcome)
    requires Scorable(o)
    ensures var r := RecordOf(o);
            && AgreesOrSentinel(r, CitationValid, r.citationValid as real)
            && AgreesOrSentinel(r, VerifierPass, r.verifierPass as real)
            && AgreesOrSentinel(r, RefusalCorrectness, r.refusalCorrectness as real)
  {
    hide MeanReciprocalRank, TargetCoverageOf, KeywordCoverageOf, Rounded, HitAtK, CitationHitOf, Matches,
         ExecutionOf, AttemptOf, JudgeMetric, OverRefusalMetric, ResolvedBehavior, VerificationReason;
  }

  lemma JudgeMetricInRecord(o: Outcome, name: MetricName)
    requires Scorable(o) && JudgeName(name)
    ensures name in CANONICAL_METRICS && RecordOf(o).metrics[name] == JudgeMetric(o, name)
  {
    hide RecordOf, JudgeMetric;
    MetricsInRecord(o);
  }

  /** The other fields of the record the judge decides. */
  lemma JudgeScalars(o: Outcome)
    requires Scorable(o)
    ensures var r, done := RecordOf(o), JudgeDone(o);
            && r.execution == ExecutionOf(o)
            && r.judgeFaithfulness == (if done then ScoreOr(o.judge.value.faithfulness, -1.0) else -1.0)
            && r.judgeRelevance == (if done then ScoreOr(o.judge.value.relevance, -1.0) else -1.0)
            && r.judgeCompleteness == (if done then ScoreOr(o.judge.value.completeness, -1.0) else -1.0)
            && r.judgePass == (if done then (if o.judge.value.passed == Some(true) then 1 else 0) else -1)
            && (done ==> r.judgeError == "")
  {
    hide ExecutionOf, MeanReciprocalRank, TargetCoverageOf, KeywordCoverageOf, Rounded, HitAtK, CitationHitOf,
         AttemptOf, RefusalMetric, AnswerReason, ObservedMode, ResolvedBehavior, MetricOf, CitationsValid, ScoreOr;
  }

  lemma JudgeFieldsAgree(o: Outcome)
    requires ValidOutcome(o) && Scorable(o)
    ensures var r := RecordOf(o);
            && AgreesOrSentinel(r, JudgeFaithfulness, r.judgeFaithfulness)
            && AgreesOrSentinel(r, JudgeRelevance, r.judgeRelevance)
            && AgreesOrSentinel(r, JudgeCompleteness, r.judgeCompleteness)
            && AgreesOrSentinel(r, JudgePass, r.judgePass as real)
            && AvailableIffJudged(r, JudgeFaithfulness) && AvailableIffJudged(r, JudgeRelevance)
            && AvailableIffJudged(r, JudgeCompleteness) && AvailableIffJudged(r, JudgePass)
            && (r.execution.judge.status.Succeeded? ==> r.judgeError == "")
  {
    hide ValidOutcome, ExecutionOf, RecordOf, Meaningful, MetricOf;
    JudgeSettled(o);
    JudgeScalars(o);
    JudgeMetricInRecord(o, JudgeFaithfulness); JudgeMetricInRecord(o, JudgeRelevance);
    JudgeMetricInRecord(o, JudgeCompleteness); JudgeMetricInRecord(o, JudgePass);
  }

  /** The attempt goes with the generation stage, and the usage of the three models adds up. */
  lemma StagesAndUsageAgree(o: Outcome)
    requires ValidOutcome(o) && Scorable(o)
    ensures match RecordOf(o).execution.generation.status
            case NotRun => RecordOf(o).attempt.MinimalAttempt? || RecordOf(o).attempt.status.AttemptNotRun?
            case Errored => RecordOf(o).attempt.FullAttempt? && RecordOf(o).attempt.status.AttemptError?
            case Succeeded => RecordOf(o).attempt.FullAttempt? && (RecordOf(o).attempt.status.Accepted? || RecordOf(o).attempt.status.Rejected?)
            case _ => true
    ensures var r := RecordOf(o);
            var total := r.assistantCalls + r.normalizerCalls + r.judgeCalls;
            && total == o.assistantUsage.calls + o.normalizerUsage.calls + o.judgeUsage.calls
            && r.failedCalls <= total && r.tokenUsageCalls <= total
            && (r.tokenUsageCalls == 0 ==> r.inputTokens == 0 && r.outputTokens == 0 && r.totalTokens == 0)
            && r.totalTokens >= r.inputTokens + r.outputTokens
  {
    hide MetricOf, MeanReciprocalRank, TargetCoverageOf, KeywordCoverageOf, Rounded, HitAtK, CitationHitOf, Matches, NonBlank;
  }

  lemma LegacyFieldsAgree(o: Outcome)
    requires ValidOutcome(o) && Scorable(o)
    ensures ConsistentRecord(RecordOf(o))
  {
    RetrievalFieldsAgree(o);
    VerificationFieldsAgree(o);
    JudgeFieldsAgree(o);
    StagesAndUsageAgree(o);
    assert ValidUsage(o.assistantUsage) && ValidUsage(o.normalizerUsage) && ValidUsage(o.judgeUsage);
    hide ValidOutcome, MetricOf, ExecutionOf, AttemptOf, MeanReciprocalRank, TargetCoverageOf, KeywordCoverageOf, Rounded,
         HitAtK, CitationHitOf, RefusalMetric, Agrees, AgreesOrSentinel, Scorable, AnswerReason, ObservedMode, ResolvedBehavior;
  }

  lemma ScalarsAlwaysAccepted(o: Outcome)
    requires ValidOutcome(o) && Scorable(o)
    ensures ScalarsAccepted(RecordOf(o))
  {
    RetrievalMetricsInRange(o);
    RoundedInRange(o.assistantUsage.latencyMs + o.normalizerUsage.latencyMs + o.judgeUsage.latencyMs, 1000);
    hide MeanReciprocalRank, TargetCoverageOf, KeywordCoverageOf, Rounded, NonBlank, MetricOf, AttemptOf, ExecutionOf, Matches;
  }

  /** Main theorem.  A valid outcome scores, and its record is accepted by the independently written
      decoder, if and only if its answer modes, its semantic status and its result ranks come from the
      declared vocabularies; nothing else about a valid outcome can make the two disagree. */
  lemma ScorerSatisfiesDecoder(o: Outcome)
    requires ValidOutcome(o)
    ensures Score(o).Ok? <==> KnownVocabulary(o)
    ensures KnownVocabulary(o) ==> RecordAccepted(RecordOf(o)) && Score(o) == Ok(RecordOf(o))
  {
    hide ValidOutcome, RecordAccepted, RecordOf, MetricOf, ObservedMode, ExecutionOf;
    if forall r | r in o.results :: r.rank >= 1 {
      OutcomeIsScorable(o);
      forall name | name in CANONICAL_METRICS ensures !(MetricOf(o, name).value.Null? && MetricOf(o, name).reason.None?) {
        MetricAlwaysExplained(o, name);
      }
      VocabularyDecides(o);
    }
  }

  /** In any outcome of a generated answer, another answer mode that is not declared passes the outcome
      validator, and cannot be scored. */
  lemma UndeclaredModeIsNotScored(o: Outcome, mode: Mode)
    requires ValidOutcome(o) && o.generate && o.error.NoError? && !Allowed(mode)
    ensures ValidOutcome(o.(structuredMode := Some(mode))) && Score(o.(structuredMode := Some(mode))).Err?
  {
    hide Score, ValidCase, ValidUsage, ValidJudge, NonBlank;
    assert ValidOutcome(o.(structuredMode := Some(mode)));
    hide ValidOutcome;
    ScorerSatisfiesDecoder(o.(structuredMode := Some(mode)));
  }

  const NO_USAGE := Usage(0, 0, 0, 0, 0, 0, 0.0)

  /** There are such outcomes. */
  lemma ValidOutcomeMayNotScore() returns (o: Outcome)
    ensures ValidOutcome(o) && Score(o).Err?
  {
    var check := Verification(true, true, true, true, true, None, true, true, Supported, EvidenceAnswer, false, []);
    o := Outcome(EvalCase("c", "q", "t", "", [], [], None, None, 0, 1), "m", "r", "s", 1, true, [], "a", true, "e", 0, Some(check), None, None, None,
                 ModelKind, false, false, None, NoError, 0, NO_USAGE, NO_USAGE, NO_USAGE);
    forall s | s in {"c", "q", "t", "m", "r", "s", "e"} ensures NonBlank(s) {
      assert !IsSpace(s[0] as int);
    }
    UndeclaredModeIsNotScored(o, UnknownMode("?"));
    o := o.(structuredMode := Some(UnknownMode("?")));
  }

  lemma OutcomeIsScorable(o: Outcome)
    requires ValidOutcome(o) && forall r | r in o.results :: r.rank >= 1
    ensures Scorable(o)
  {
    hide ValidCase, ValidUsage, NonBlank;
  }

  /** The scorer never raises over a missing value without a reason. */
  lemma MetricAlwaysExplained(o: Outcome, name: MetricName)
    requires ValidOutcome(o) && Scorable(o)
    ensures MetricOf(o, name).value.Null? ==> MetricOf(o, name).reason.Some?
  {
    MetricAcceptedIff(o, name);
    hide ValidOutcome;
    if name.SemanticSupportStatus? {
      assert MetricOf(o, name) == VerificationMetric(o, name);
    } else {
      hide MetricOf;
    }
  }

  lemma VocabularyDecides(o: Outcome)
    requires ValidOutcome(o) && Scorable(o)
    ensures RecordAccepted(RecordOf(o)) <==> KnownVocabulary(o)
  {
    var r := RecordOf(o);
    ScalarsAlwaysAccepted(o);
    ExecutionAlwaysAccepted(o);
    AttemptAcceptedIff(o);
    LegacyFieldsAgree(o);
    MetricsAcceptedIff(o);
    ModesInRecord(o);
    hide MetricOf, ScalarsAccepted, ConsistentRecord, ExecutionAccepted, AttemptAccepted, MetricsAccepted, RecordOf, ValidOutcome;
  }

  lemma MetricsAcceptedIff(o: Outcome)
    requires ValidOutcome(o) && Scorable(o)
    ensures MetricsAccepted(RecordOf(o).metrics) <==>
              (o.verification.Some? ==> !o.verification.value.semantics.UnknownSemantics?)
  {
    hide RecordOf, MetricOf, ValidOutcome, MetricAccepted;
    MetricsInRecord(o);
    var metrics := RecordOf(o).metrics;
    forall name | name in CANONICAL_METRICS
      ensures MetricAccepted(name, metrics[name]) <==>
                (name.SemanticSupportStatus? && o.verification.Some? ==> !o.verification.value.semantics.UnknownSemantics?)
    {
      MetricAcceptedIff(o, name);
    }
    assert SemanticSupportStatus in CANONICAL_METRICS;
  }

  lemma MetricsInRecord(o: Outcome)
    requires Scorable(o)
    ensures RecordOf(o).metrics == map name | name in CANONICAL_METRICS :: MetricOf(o, name)
  {
    hide MetricOf, ExecutionOf, AttemptOf, MeanReciprocalRank, TargetCoverageOf, KeywordCoverageOf, Rounded;
  }

  lemma ModesInRecord(o: Outcome)
    requires ValidOutcome(o) && Scorable(o)
    ensures var r := RecordOf(o);
            r.observedMode == ObservedMode(o) && Allowed(r.expectedBehavior) && r.execution == ExecutionOf(o) && r.attempt == AttemptOf(o)
  {
    hide MetricOf, ExecutionOf, AttemptOf, MeanReciprocalRank, TargetCoverageOf, KeywordCoverageOf, Rounded, NonBlank, ValidUsage;
  }

  /** The published stage statuses say exactly how the case ended. */
  lemma StagesTellTheOutcome(o: Outcome)
    requires ValidOutcome(o) && Scorable(o)
    ensures var r := RecordOf(o);
            && (r.execution.generation.status.Succeeded? <==> o.kind.ModelKind?)
            && (r.execution.generation.status.NotRun? <==> !o.generate || Programmatic(o.kind))
            && (r.execution.service.status.Errored? <==> o.error.ServiceFailure?)
            && (r.execution.service.status.Degraded? <==> o.generationError)
            && (r.execution.verification.status.Succeeded? <==> o.verification.Some?)
            && (r.attempt.FullAttempt? && r.attempt.status.Rejected? <==> o.preFallbackMode.Some?)
            && (r.execution.judge.status.Succeeded? <==> JudgeDone(o))
            && (JudgeDone(o) ==> o.kind.ModelKind? || Programmatic(o.kind))
  {
    hide MetricOf, MeanReciprocalRank, TargetCoverageOf, KeywordCoverageOf, Rounded, NonBlank, Matches;
  }
}
