/** Which outcomes can be scored and which records are decoded (legal_rag/evaluation_scoring.py,
    legal_rag/evaluation_artifacts.py): the two validators read as what they let through. */
module Outcomes {
  import opened Common
  import opened EvalCases
  import opened Scoring

  // ----- usage -----

  /** One call of a model: whether it failed, and the tokens it reported, if any. */
  datatype Call = Call(failed: bool, tokens: Option<Tokens>)

  datatype Tokens = Tokens(input: nat, output: nat, total: nat)

  predicate PlausibleCall(c: Call) {
    c.tokens.Some? ==> c.tokens.value.total >= c.tokens.value.input + c.tokens.value.output
  }

  /** What these calls add up to. */
  function UsageOf(calls: seq<Call>, latencyMs: real): Usage {
    if calls == [] then Usage(0, 0, 0, 0, 0, 0, latencyMs)
    else
      var u, c := UsageOf(calls[..|calls| - 1], latencyMs), calls[|calls| - 1];
      var t := if c.tokens.Some? then c.tokens.value else Tokens(0, 0, 0);
      Usage(u.calls + 1, u.failedCalls + (if c.failed then 1 else 0), u.inputTokens + t.input, u.outputTokens + t.output,
            u.totalTokens + t.total, u.tokenUsageCalls + (if c.tokens.Some? then 1 else 0), latencyMs)
  }

  lemma {:induction false} UsageIsValid(calls: seq<Call>, latencyMs: real)
    requires latencyMs >= 0.0 && forall c | c in calls :: PlausibleCall(c)
    ensures ValidUsage(UsageOf(calls, latencyMs)) && UsageOf(calls, latencyMs).calls == |calls|
  {
    if calls != [] {
      UsageIsValid(calls[..|calls| - 1], latencyMs);
      assert PlausibleCall(calls[|calls| - 1]);
    }
  }

  /** n calls of which the first ones failed and reported tokens, all of them with the first call. */
  function CallsFor(n: nat, failed: nat, reporting: nat, t: Tokens): (calls: seq<Call>)
    ensures |calls| == n
  {
    if n == 0 then []
    else
      CallsFor(n - 1, failed, reporting, t)
      + [Call(n <= failed, if n > reporting then None else Some(if n == 1 then t else Tokens(0, 0, 0)))]
  }

  lemma {:induction false} CallsAddUp(n: nat, failed: nat, reporting: nat, t: Tokens, latencyMs: real)
    requires t.total >= t.input + t.output
    ensures forall c | c in CallsFor(n, failed, reporting, t) :: PlausibleCall(c)
    ensures UsageOf(CallsFor(n, failed, reporting, t), latencyMs) ==
            var told := if n > 0 && reporting > 0 then t else Tokens(0, 0, 0);
            Usage(n, if failed <= n then failed else n, told.input, told.output, told.total, if reporting <= n then reporting else n, latencyMs)
  {
    if n > 0 {
      CallsAddUp(n - 1, failed, reporting, t, latencyMs);
      var calls := CallsFor(n, failed, reporting, t);
      assert calls[..n - 1] == CallsFor(n - 1, failed, reporting, t);
    }
  }

  /** Main theorem: a usage is valid exactly when some calls add up to it, each with at least as many tokens in all as in
      and out, and its latency is not negative. */
  lemma UsageMeans(u: Usage)
    ensures ValidUsage(u) <==>
            u.latencyMs >= 0.0 && exists calls :: UsageOf(calls, u.latencyMs) == u && forall c | c in calls :: PlausibleCall(c)
  {
    if ValidUsage(u) {
      var t := Tokens(u.inputTokens, u.outputTokens, u.totalTokens);
      CallsAddUp(u.calls, u.failedCalls, u.tokenUsageCalls, t, u.latencyMs);
      var calls := CallsFor(u.calls, u.failedCalls, u.tokenUsageCalls, t);
      assert UsageOf(calls, u.latencyMs) == u;
    }
    if calls :| u.latencyMs >= 0.0 && UsageOf(calls, u.latencyMs) == u && forall c | c in calls :: PlausibleCall(c) {
      UsageIsValid(calls, u.latencyMs);
    }
  }

  // ----- the judge -----

  /** A judge that succeeded, with these scores. */
  function Judged(faithfulness: real, relevance: real, completeness: real): JudgeResult {
    JudgeResult(JudgeSucceeded, Some(faithfulness), Some(relevance), Some(completeness),
                Some(faithfulness >= 0.7 && relevance >= 0.7), NoMessage, None)
  }

  /** A judge that failed, with this code and this harmless message. */
  function Unjudged(code: JudgeCode, message: string): JudgeResult {
    JudgeResult(JudgeErrored, None, None, None, None, SafeMessage(message), Some(code))
  }

  /** A judge either gave three scores between 0 and 1, which decide whether it passed the answer, or failed with a
      stable code and a harmless message and gave none. */
  lemma JudgeMeans(j: JudgeResult)
    ensures ValidJudge(j) <==>
            || (exists f, r, c :: 0.0 <= f <= 1.0 && 0.0 <= r <= 1.0 && 0.0 <= c <= 1.0 && j == Judged(f, r, c))
            || (exists code, message :: code in {JudgeFailure, Timeout, TransportError, InvalidJson, InvalidSchema} && j == Unjudged(code, message))
  {
    if ValidJudge(j) {
      if j.status.JudgeSucceeded? {
        assert j == Judged(j.faithfulness.value, j.relevance.value, j.completeness.value);
      } else {
        assert j == Unjudged(j.errorCode.value, j.error.text);
      }
    }
  }

  // ----- outcomes -----

  /** What every outcome declares, however it ended. */
  predicate Described(o: Outcome) {
    && ValidCase(o.case_) && (forall s | s in [o.model, o.retriever, o.chunkStrategy, o.stopReason] :: NonBlank(s))
    && o.topK >= 1 && o.checkedResults >= 0 && o.latencyMs >= 0
    && (forall u | u in [o.assistantUsage, o.normalizerUsage, o.judgeUsage] :: ValidUsage(u))
    && (if o.judge.Some? then o.judgeConfigured && ValidJudge(o.judge.value) else o.judgeUsage.calls == 0)
  }

  /** The outcome before anything was generated. */
  function Unanswered(o: Outcome): Outcome {
    o.(answer := "", verification := None, structuredMode := None, preFallbackMode := None, preFallbackVerification := None,
       generationError := false, judge := None)
  }

  predicate OnlyRetrieved(o: Outcome) {
    && !o.generate && o == Unanswered(o) && o.kind == RetrievalOnlyKind && o.assistantUsage.calls == 0
    && (o.error == NoError || (o.error == ServiceFailure && o.results == []))
  }

  predicate ServiceBroke(o: Outcome) {
    o.generate && o == Unanswered(o) && o.kind == ServiceErrorKind && o.error == ServiceFailure && o.results == []
  }

  predicate GenerationBroke(o: Outcome) {
    && o.generate && o.error == NoError && o.generationError && o.kind == GenerationErrorKind
    && o.verification.Some? && o.judge.None? && o.preFallbackMode.None? && o.preFallbackVerification.None?
  }

  predicate Answered(o: Outcome) {
    && o.generate && o.error == NoError && !o.generationError
    && o.verification.Some? && (o.judgeConfigured ==> o.judge.Some?)
    && (match o.preFallbackVerification
        case None => o.preFallbackMode.None? && o.kind in {ModelKind, PreRetrievalRefusal, EvidenceLimited, ProgrammaticTerminalKind}
        case Some(rejection) => o.kind == ModelKind && !rejection.passed && o.preFallbackMode == Some(rejection.actualMode))
  }

  /** Main theorem: a valid outcome has exactly one of four endings: only retrieved, broken before anything was answered,
      broken in generation, or answered, by the model or the program itself; and any outcome with one of them is valid. */
  lemma OutcomeMeans(o: Outcome)
    ensures ValidOutcome(o) <==> Described(o) && (OnlyRetrieved(o) || ServiceBroke(o) || GenerationBroke(o) || Answered(o))
  {
    hide ValidCase, NonBlank, ValidUsage, ValidJudge;
    DescribedOneByOne(o);
    hide Described;
    if ValidOutcome(o) {
      ValidHasEnding(o);
    }
    if Described(o) && (OnlyRetrieved(o) || ServiceBroke(o) || GenerationBroke(o) || Answered(o)) {
      EndingIsValid(o);
    }
  }

  lemma DescribedOneByOne(o: Outcome)
    ensures Described(o) <==>
            && ValidCase(o.case_) && NonBlank(o.model) && NonBlank(o.retriever) && NonBlank(o.chunkStrategy) && NonBlank(o.stopReason)
            && o.topK >= 1 && o.checkedResults >= 0 && o.latencyMs >= 0
            && ValidUsage(o.assistantUsage) && ValidUsage(o.normalizerUsage) && ValidUsage(o.judgeUsage)
            && (if o.judge.Some? then o.judgeConfigured && ValidJudge(o.judge.value) else o.judgeUsage.calls == 0)
  {
    hide ValidCase, NonBlank, ValidUsage, ValidJudge;
    var names, usages := [o.model, o.retriever, o.chunkStrategy, o.stopReason], [o.assistantUsage, o.normalizerUsage, o.judgeUsage];
    assert names[0] in names && names[1] in names && names[2] in names && names[3] in names;
    assert usages[0] in usages && usages[1] in usages && usages[2] in usages;
  }

  lemma ValidHasEnding(o: Outcome)
    requires ValidOutcome(o)
    ensures OnlyRetrieved(o) || ServiceBroke(o) || GenerationBroke(o) || Answered(o)
  {
    hide ValidCase, NonBlank, ValidUsage, ValidJudge;
  }

  lemma EndingIsValid(o: Outcome)
    requires Described(o) && (OnlyRetrieved(o) || ServiceBroke(o) || GenerationBroke(o) || Answered(o))
    ensures ValidOutcome(o)
  {
    DescribedOneByOne(o);
    hide ValidCase, NonBlank, ValidUsage, ValidJudge, Described;
  }

  // ----- decoded records -----

  predicate Available(r: Record, name: MetricName) {
    name in r.metrics && !r.metrics[name].value.Null?
  }

  /** Main theorem: of two decoded records with the same metrics, every legacy field that has a metric is the same, the
      retrieval fields as far as their metric is available. */
  lemma MetricsDetermineFields(r: Record, s: Record)
    requires RecordAccepted(r) && RecordAccepted(s) && r.metrics == s.metrics
    ensures r.keywordCoverage == s.keywordCoverage && r.citationValid == s.citationValid && r.verifierPass == s.verifierPass
    ensures r.refusalCorrectness == s.refusalCorrectness && r.judgePass == s.judgePass
    ensures r.judgeFaithfulness == s.judgeFaithfulness && r.judgeRelevance == s.judgeRelevance && r.judgeCompleteness == s.judgeCompleteness
    ensures Available(r, HitAt3) ==> r.hitAt3 == s.hitAt3
    ensures Available(r, HitAt5) ==> r.hitAt5 == s.hitAt5
    ensures Available(r, CitationHit) ==> r.citationHit == s.citationHit
    ensures Available(r, Mrr) ==> r.mrr == s.mrr
    ensures Available(r, TargetCoverage) ==> r.targetCoverage == s.targetCoverage
    ensures r.execution.judge.status.Succeeded? <==> s.execution.judge.status.Succeeded?
  {
    hide ScalarsAccepted, MetricAccepted, ExecutionAccepted, AttemptAccepted;
  }

  /** A reason is given, and says something. */
  predicate Given(reason: Option<Reason>) {
    match reason
    case None => false
    case Some(Other(text)) => exists i | 0 <= i < |text| :: !IsSpace(text[i] as int)
    case Some(_) => true
  }

  /** A stage succeeded without a reason, or ended otherwise with one. */
  predicate Told(s: Stage, others: set<Status>) {
    (s == Stage(Succeeded, None)) || (s.status in others && Given(s.reason))
  }

  predicate StagesTold(e: Execution) {
    Told(e.service, {Degraded, Errored}) && forall s | s in [e.generation, e.verification, e.judge] :: Told(s, {Errored, NotRun})
  }

  predicate AttemptTold(a: Attempt) {
    match a
    case MinimalAttempt(attempted, reason) => a == MinimalAttempt(false, Some(RetrievalOnly))
    case FullAttempt(attempted, status, reason, mode, verified) =>
      && (mode.Some? ==> mode.value in {EvidenceAnswer, InsufficientEvidence, NeedsClarification, OutOfScope})
      && (|| (a == FullAttempt(true, Accepted, None, mode, false))
          || (a == FullAttempt(true, Rejected, reason, mode, true) && Given(reason))
          || (a == FullAttempt(false, AttemptNotRun, reason, mode, false) && Given(reason))
          || (a == FullAttempt(attempted, AttemptError, reason, mode, false) && Given(reason)))
  }

  /** What stage and attempt of the generation say of each other. */
  predicate AttemptFits(stage: Stage, a: Attempt) {
    match a
    case MinimalAttempt(_, _) => stage.status == NotRun
    case FullAttempt(_, status, _, _, _) =>
      (stage.status == NotRun <==> status == AttemptNotRun) && (stage.status == Errored <==> status == AttemptError)
  }

  lemma StagesTell(r: Record)
    requires RecordAccepted(r)
    ensures StagesTold(r.execution) && AttemptTold(r.attempt) && AttemptFits(r.execution.generation, r.attempt)
    ensures r.expectedBehavior in {EvidenceAnswer, InsufficientEvidence, NeedsClarification, OutOfScope}
    ensures r.observedMode.Some? ==> r.observedMode.value in {EvidenceAnswer, InsufficientEvidence, NeedsClarification, OutOfScope}
  {
    hide ScalarsAccepted, MetricsAccepted, Agrees, AgreesOrSentinel, AvailableIffJudged, CANONICAL_METRICS;
  }

  /** The values a metric can have. */
  predicate OfKind(name: MetricName, v: Value) {
    if name == AnswerText then v.Text?
    else if name in {HitAt3, HitAt5, RetrievalTargetHit, CitationHit} then v in {Int(0), Int(1)}
    else if name in {Mrr, TargetCoverage, KeywordCoverage, JudgeFaithfulness, JudgeRelevance, JudgeCompleteness} then
      v.Number? && 0.0 <= v.r <= 1.0
    else if name == SemanticSupportStatus then v in {Semantics(Supported), Semantics(Unsupported), Semantics(Uncertain), Semantics(NotChecked)}
    else v.Bool?
  }

  lemma KindsAgree(name: MetricName, v: Value)
    ensures ValueAccepted(name, v) <==> OfKind(name, v)
  {
  }

  /** Every metric is there, and has either a value of its kind and no reason, or no value and a reason. */
  lemma MetricsTell(r: Record, name: MetricName)
    requires RecordAccepted(r)
    ensures name in r.metrics && if Available(r, name) then r.metrics[name].reason.None? && OfKind(name, r.metrics[name].value)
                                 else Given(r.metrics[name].reason)
  {
    hide ScalarsAccepted, ExecutionAccepted, AttemptAccepted, ConsistentRecord, ValueAccepted, OfKind;
    AllNamed(name);
    KindsAgree(name, r.metrics[name].value);
  }

  lemma AllNamed(name: MetricName)
    ensures name in CANONICAL_METRICS
  {
  }

  /** Main theorem: of a decoded record, the fields hold what their names promise, and what has no metric holds -1; the
      metrics of the judge are there exactly when the judge succeeded; and the counts of tokens and calls fit. */
  lemma FieldsTell(r: Record)
    requires RecordAccepted(r)
    ensures forall x | x in [r.hitAt3, r.hitAt5, r.citationHit, r.sufficiencyPass] :: x == 0 || x == 1
    ensures forall x | x in [r.mrr, r.targetCoverage] :: x == -1.0 || 0.0 <= x <= 1.0
    ensures !Available(r, KeywordCoverage) ==> r.keywordCoverage == -1.0
    ensures !Available(r, CitationValid) ==> r.citationValid == -1
    ensures !Available(r, VerifierPass) ==> r.verifierPass == -1
    ensures !Available(r, RefusalCorrectness) ==> r.refusalCorrectness == -1
    ensures forall name | name in {JudgeFaithfulness, JudgeRelevance, JudgeCompleteness, JudgePass} ::
              Available(r, name) <==> r.execution.judge.status == Succeeded
    ensures if r.execution.judge.status == Succeeded then r.judgeError == ""
            else r.judgeFaithfulness == r.judgeRelevance == r.judgeCompleteness == -1.0 && r.judgePass == -1
    ensures r.metrics[RetrievalTargetHit] == r.metrics[CitationHit] && r.metrics[RefusalRecallHit] == r.metrics[RefusalCorrectness]
    ensures forall s | s in [r.caseId, r.caseType, r.model, r.retriever, r.chunkStrategy] :: NonBlank(s)
    ensures r.metricsSchema == 2 && r.latencyMs >= 0 && r.llmLatencyMs >= 0.0
    ensures forall n | n in [r.assistantCalls, r.normalizerCalls, r.judgeCalls, r.failedCalls, r.inputTokens, r.outputTokens] :: n >= 0
    ensures ValidUsage(Usage(r.assistantCalls + r.normalizerCalls + r.judgeCalls, r.failedCalls, r.inputTokens, r.outputTokens,
                             r.totalTokens, r.tokenUsageCalls, r.llmLatencyMs))
  {
    hide ExecutionAccepted, AttemptAccepted, MetricAccepted, NonBlank;
  }
}
