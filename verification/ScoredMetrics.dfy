/** What the fields of a scored record say about the case (legal_rag/evaluation_scoring.py). */
module ScoredMetrics {
  // Everything here is stated of the record a valid outcome scores to.

  import opened Common
  import opened EvalCases
  import opened Strings
  import opened Scoring

  lemma ScoredIsRecord(o: Outcome)
    requires Score(o).Ok?
    ensures ValidOutcome(o) && Scorable(o) && Score(o).value == RecordOf(o)
  {
    hide RecordOf, RecordAccepted, MetricOf;
    OutcomeIsScorable(o);
  }

  // ----- rounding -----

  /** Rounding gives the nearest integer, and of two equally near ones the even one. */
  lemma NearestMeans(y: real, n: int)
    ensures n == Nearest(y) <==>
            && n as real - 0.5 <= y <= n as real + 0.5
            && (y == n as real - 0.5 || y == n as real + 0.5 ==> n % 2 == 0)
  {
    var low := y.Floor;
    assert low as real <= y < low as real + 1.0;
    if n as real - 0.5 <= y <= n as real + 0.5 {
      assert n == low || n == low + 1;
    }
  }

  // ----- hits -----

  /** A result answers the case: gold is declared, and law and articles agree where they are declared. */
  predicate Answers(r: SearchResult, c: EvalCase) {
    && (c.expectedLaw != "" || c.expectedArticles != [])
    && (c.expectedLaw != "" ==> c.expectedLaw in r.lawNames)
    && (c.expectedArticles != [] ==> exists j | 0 <= j < |r.articleNumbers| :: r.articleNumbers[j] in c.expectedArticles)
  }

  lemma MatchesIsAnswers(r: SearchResult, c: EvalCase)
    ensures Matches(r, c) <==> Answers(r, c)
  {
    if Matches(r, c) && c.expectedArticles != [] {
      var a :| a in c.expectedArticles && a in r.articleNumbers;
      var j :| 0 <= j < |r.articleNumbers| && r.articleNumbers[j] == a;
    }
    if Answers(r, c) && c.expectedArticles != [] {
      var j :| 0 <= j < |r.articleNumbers| && r.articleNumbers[j] in c.expectedArticles;
      assert r.articleNumbers[j] in r.articleNumbers;
    }
  }

  /** Some result among the first k answers the case. */
  predicate AnsweredWithin(o: Outcome, k: int) {
    exists i | 0 <= i < |o.results| && i < k :: Answers(o.results[i], o.case_)
  }

  lemma HitMeans(o: Outcome, k: nat)
    ensures HitAtK(o.results, o.case_, k) == if AnsweredWithin(o, k) then 1 else 0
  {
    var first := FirstResults(o.results, k);
    hide Answers, Matches;
    if r :| r in first && Matches(r, o.case_) {
      var i :| 0 <= i < |first| && first[i] == r;
      assert o.results[i] == r;
      MatchesIsAnswers(r, o.case_);
    }
    if i :| 0 <= i < |o.results| && i < k && Answers(o.results[i], o.case_) {
      assert first[i] == o.results[i] && first[i] in first;
      MatchesIsAnswers(o.results[i], o.case_);
    }
  }

  lemma CitationMeans(o: Outcome)
    ensures CitationHitOf(o.results, o.case_) == if AnsweredWithin(o, |o.results|) then 1 else 0
  {
    hide Answers, Matches;
    if r :| r in o.results && Matches(r, o.case_) {
      var i :| 0 <= i < |o.results| && o.results[i] == r;
      MatchesIsAnswers(r, o.case_);
    }
    if i :| 0 <= i < |o.results| && Answers(o.results[i], o.case_) {
      assert o.results[i] in o.results;
      MatchesIsAnswers(o.results[i], o.case_);
    }
  }

  /** A number that is only published when gold is declared. */
  predicate PublishedWithGold(r: Record, o: Outcome, name: MetricName, value: Value) {
    name in r.metrics &&
    r.metrics[name] ==
      if o.case_.expectedLaw != "" || o.case_.expectedArticles != [] then Metric(value, None) else Metric(Null, Some(NoRetrievalGold))
  }

  /** Main theorem: the three hit fields say whether one of the first three, of the first five, or of all results
      answers the case, and their metrics say the same where gold is declared. */
  lemma HitsMean(o: Outcome)
    requires Score(o).Ok?
    ensures var r := Score(o).value;
            && r.hitAt3 == (if AnsweredWithin(o, 3) then 1 else 0) && PublishedWithGold(r, o, HitAt3, Int(r.hitAt3))
            && r.hitAt5 == (if AnsweredWithin(o, 5) then 1 else 0) && PublishedWithGold(r, o, HitAt5, Int(r.hitAt5))
            && r.citationHit == (if AnsweredWithin(o, |o.results|) then 1 else 0)
            && PublishedWithGold(r, o, CitationHit, Int(r.citationHit)) && PublishedWithGold(r, o, RetrievalTargetHit, Int(r.citationHit))
  {
    hide Score, HitAtK, CitationHitOf, MeanReciprocalRank, TargetCoverageOf, KeywordCoverageOf, Rounded, ExecutionOf, AttemptOf,
         VerificationMetric, JudgeMetric, RefusalMetric, OverRefusalMetric, ValidOutcome, AnsweredWithin;
    ScoredIsRecord(o);
    HitMeans(o, 3);
    HitMeans(o, 5);
    CitationMeans(o);
  }

  lemma {:induction false} FirstAnswerRank(results: seq<SearchResult>, c: EvalCase)
    requires forall r | r in results :: r.rank >= 1
    ensures (forall i | 0 <= i < |results| :: !Answers(results[i], c)) ==> MeanReciprocalRank(results, c) == 0.0
    ensures forall i | 0 <= i < |results| && Answers(results[i], c) && (forall j | 0 <= j < i :: !Answers(results[j], c)) ::
              MeanReciprocalRank(results, c) == Rounded(1.0 / results[i].rank as real, 10000)
  {
    hide Answers, Matches, Rounded;
    if results != [] {
      MatchesIsAnswers(results[0], c);
      FirstAnswerRank(results[1..], c);
      forall i | 0 <= i < |results| && Answers(results[i], c) && (forall j | 0 <= j < i :: !Answers(results[j], c))
        ensures MeanReciprocalRank(results, c) == Rounded(1.0 / results[i].rank as real, 10000)
      {
        if i > 0 {
          assert !Answers(results[0], c);
          assert results[1..][i - 1] == results[i];
          assert forall j | 0 <= j < i - 1 :: results[1..][j] == results[j + 1];
        }
      }
    }
  }

  /** Main theorem: the reciprocal rank is that of the first result that answers the case, rounded to four digits,
      and zero without one. */
  lemma ReciprocalRankMeans(o: Outcome)
    requires Score(o).Ok?
    ensures var r := Score(o).value;
            && (!AnsweredWithin(o, |o.results|) ==> r.mrr == 0.0)
            && (forall i | 0 <= i < |o.results| && Answers(o.results[i], o.case_) && !AnsweredWithin(o, i) ::
                  o.results[i].rank >= 1 && r.mrr == Rounded(1.0 / o.results[i].rank as real, 10000))
            && PublishedWithGold(r, o, Mrr, Number(r.mrr))
  {
    hide Score, HitAtK, CitationHitOf, MeanReciprocalRank, TargetCoverageOf, KeywordCoverageOf, Rounded, ExecutionOf, AttemptOf,
         VerificationMetric, JudgeMetric, RefusalMetric, OverRefusalMetric, ValidOutcome, Answers;
    ScoredIsRecord(o);
    FirstAnswerRank(o.results, o.case_);
    assert forall i | 0 <= i < |o.results| :: o.results[i] in o.results;
  }

  // ----- coverage -----

  /** The expected article appears, under the expected law, among the first k results. */
  predicate FoundWithin(o: Outcome, a: string, k: int) {
    exists i | 0 <= i < |o.results| && i < k ::
      a in o.results[i].articleNumbers && (o.case_.expectedLaw != "" ==> o.case_.expectedLaw in o.results[i].lawNames)
  }

  lemma CoveredMeans(o: Outcome, found: set<string>)
    requires o.topK >= 0 && forall a :: a in found <==> a in o.case_.expectedArticles && FoundWithin(o, a, o.topK)
    ensures CoveredArticles(o.results, o.case_, o.topK) == found
  {
    var first, covered := FirstResults(o.results, o.topK), CoveredArticles(o.results, o.case_, o.topK);
    forall a ensures a in covered <==> a in found {
      if a in covered {
        var r :| r in first && (o.case_.expectedLaw == "" || o.case_.expectedLaw in r.lawNames) && a in r.articleNumbers;
        var i :| 0 <= i < |first| && first[i] == r;
        assert o.results[i] == r;
      }
      if a in found {
        var i :| 0 <= i < |o.results| && i < o.topK && a in o.results[i].articleNumbers &&
          (o.case_.expectedLaw != "" ==> o.case_.expectedLaw in o.results[i].lawNames);
        assert first[i] == o.results[i] && first[i] in first;
      }
    }
  }

  /** Main theorem: target coverage is the share of the expected articles found within the first topK results,
      rounded to four digits; zero, and not published, without expected articles. */
  lemma TargetCoverageMeans(o: Outcome, found: set<string>)
    requires Score(o).Ok? && forall a :: a in found <==> a in o.case_.expectedArticles && FoundWithin(o, a, o.topK)
    ensures var r, n := Score(o).value, |o.case_.expectedArticles|;
            && r.targetCoverage == (if n == 0 then 0.0 else Rounded(|found| as real / n as real, 10000))
            && TargetCoverage in r.metrics
            && r.metrics[TargetCoverage] == if n > 0 then Metric(Number(r.targetCoverage), None) else Metric(Null, Some(NoArticleGold))
  {
    hide Score, HitAtK, CitationHitOf, MeanReciprocalRank, KeywordCoverageOf, Rounded, ExecutionOf, AttemptOf, FoundWithin,
         VerificationMetric, JudgeMetric, RefusalMetric, OverRefusalMetric, CoveredArticles, NonBlank, ValidUsage, ValidCase;
    ScoredIsRecord(o);
    CoveredMeans(o, found);
  }

  /** The keyword is not empty and occurs in the answer. */
  predicate KeywordFound(o: Outcome, i: nat)
    requires i < |o.case_.keywords|
  {
    o.case_.keywords[i] != "" && Occurs(o.case_.keywords[i], o.answer)
  }

  lemma {:induction false} MatchedMeans(answer: string, keywords: seq<string>)
    ensures MatchedKeywords(answer, keywords) == |set i: nat | i < |keywords| && keywords[i] != "" && Occurs(keywords[i], answer)|
  {
    hide Occurs;
    var found := set i: nat | i < |keywords| && keywords[i] != "" && Occurs(keywords[i], answer);
    if keywords != [] {
      var rest := keywords[1..];
      var later := set i: nat | i < |rest| && rest[i] != "" && Occurs(rest[i], answer);
      MatchedMeans(answer, rest);
      var shifted := Shifted(later);
      ShiftCount(later);
      assert forall i: nat | i > 0 && i < |keywords| :: keywords[i] == rest[i - 1];
      if keywords[0] != "" && Occurs(keywords[0], answer) {
        assert found == {0} + shifted;
      } else {
        assert found == shifted;
      }
    }
  }

  function Shifted(a: set<nat>): (b: set<nat>)
    ensures forall j: nat :: j in b <==> j > 0 && j - 1 in a
  {
    set i | i in a :: i + 1
  }

  lemma {:induction false} ShiftCount(a: set<nat>)
    ensures |Shifted(a)| == |a|
    decreases |a|
  {
    if a != {} {
      var x :| x in a;
      ShiftCount(a - {x});
      assert Shifted(a) == Shifted(a - {x}) + {x + 1};
    }
  }

  /** Main theorem: keyword coverage is the share of the keywords that are not empty and occur in the answer,
      rounded to four digits; missing, for the reason the answer is missing, when there is no answer. */
  lemma KeywordCoverageMeans(o: Outcome)
    requires Score(o).Ok?
    ensures var r, n := Score(o).value, |o.case_.keywords|;
            && KeywordCoverage in r.metrics && AnswerText in r.metrics
            && (if o.generate && o.error.NoError? then
                  && r.keywordCoverage ==
                     (if n == 0 then 0.0 else Rounded(|set i: nat | i < n && KeywordFound(o, i)| as real / n as real, 10000))
                  && r.metrics[KeywordCoverage] == Metric(Number(r.keywordCoverage), None)
                  && r.metrics[AnswerText] == Metric(Text(o.answer), None)
                else
                  && r.keywordCoverage == -1.0
                  && r.metrics[KeywordCoverage] == Metric(Null, Some(if o.generate then ServiceFailed else RetrievalOnly))
                  && r.metrics[AnswerText] == r.metrics[KeywordCoverage])
  {
    hide Score, HitAtK, CitationHitOf, MeanReciprocalRank, TargetCoverageOf, Rounded, ExecutionOf, AttemptOf, Occurs,
         VerificationMetric, JudgeMetric, RefusalMetric, OverRefusalMetric, ValidOutcome, MatchedKeywords;
    ScoredIsRecord(o);
    MatchedMeans(o.answer, o.case_.keywords);
    var found := set i: nat | i < |o.case_.keywords| && KeywordFound(o, i);
    assert found == set i: nat | i < |o.case_.keywords| && o.case_.keywords[i] != "" && Occurs(o.case_.keywords[i], o.answer);
  }

  // ----- verification, refusal, judge -----

  predicate PublishedFlag(r: Record, name: MetricName, flag: bool) {
    name in r.metrics && r.metrics[name] == Metric(Bool(flag), None)
  }

  predicate Withheld(r: Record, name: MetricName, reason: Reason) {
    name in r.metrics && r.metrics[name] == Metric(Null, Some(reason))
  }

  const VERIFICATION_METRICS: set<MetricName> := {
    SchemaValid, EvidenceCatalogValid, SourceIdsExist, CitationIdsValid, CitationAlignmentValid, EvidenceScopeValid, CitationValid,
    DisclaimerPresent, ResponseModeValid, VerifierPass, SemanticSupportStatus, ResponseModeCorrect }

  /** The answer's mode, or the one the verifier saw, is the expected one. */
  predicate ModeAsExpected(o: Outcome) {
    match o.structuredMode
    case Some(mode) => mode == ResolvedBehavior(o.case_)
    case None => o.verification.Some? && o.verification.value.actualMode == ResolvedBehavior(o.case_)
  }

  lemma MetricInRecord(o: Outcome, name: MetricName)
    requires Scorable(o)
    ensures name in RecordOf(o).metrics && RecordOf(o).metrics[name] == MetricOf(o, name)
  {
    hide RecordOf, MetricOf, Scorable;
    MetricsInRecord(o);
    assert name in CANONICAL_METRICS;
  }

  /** What the verifier found about citations and evidence, each under its own name. */
  predicate CitationFindings(r: Record, v: Verification) {
    && PublishedFlag(r, EvidenceCatalogValid, v.catalogValid)
    && PublishedFlag(r, SourceIdsExist, v.catalogValid && v.missingSourceIds == [])
    && PublishedFlag(r, CitationIdsValid, v.citationIdsValid) && PublishedFlag(r, CitationAlignmentValid, v.alignmentValid)
    && (match v.scopeValid
        case None => Withheld(r, EvidenceScopeValid, ScopeCheckNotConfigured)
        case Some(valid) => PublishedFlag(r, EvidenceScopeValid, valid))
    && PublishedFlag(r, CitationValid, v.citationIdsValid && v.scopeValid != Some(false))
    && r.citationValid == (if v.citationIdsValid && v.scopeValid != Some(false) then 1 else 0)
  }

  /** And about the answer itself. */
  predicate AnswerFindings(r: Record, v: Verification, modeAsExpected: bool) {
    && PublishedFlag(r, SchemaValid, v.schemaValid)
    && PublishedFlag(r, DisclaimerPresent, v.disclaimerPresent) && PublishedFlag(r, ResponseModeValid, v.responseModeValid)
    && PublishedFlag(r, VerifierPass, v.passed) && PublishedFlag(r, ResponseModeCorrect, v.responseModeValid && modeAsExpected)
    && SemanticSupportStatus in r.metrics && r.metrics[SemanticSupportStatus] == Metric(Semantics(v.semantics), None)
    && r.verifierPass == (if v.passed then 1 else 0)
  }

  /** Main theorem: every finding of the verifier is published under its own name; without a verification all of
      them are withheld, for the reason there is none. */
  lemma VerificationMetricsMean(o: Outcome)
    requires Score(o).Ok?
    ensures var r := Score(o).value;
            match o.verification
            case None =>
              && r.citationValid == r.verifierPass == -1
              && forall name | name in VERIFICATION_METRICS :: Withheld(r, name, if !o.generate then RetrievalOnly else ServiceFailed)
            case Some(v) => CitationFindings(r, v) && AnswerFindings(r, v, ModeAsExpected(o))
  {
    hide Score, RecordOf, NonBlank, ValidUsage, ValidCase, Scorable, CitationFindings, AnswerFindings, VerificationMetric, MetricOf,
         ExecutionOf;
    ScoredIsRecord(o);
    if o.verification.Some? {
      CitationsPublished(o);
      AnswerPublished(o);
    } else {
      forall name | name in VERIFICATION_METRICS ensures Withheld(RecordOf(o), name, if !o.generate then RetrievalOnly else ServiceFailed) {
        VerificationInRecord(o, name);
        NothingFound(o, name);
      }
      VerificationScalars(o);
    }
  }

  lemma VerificationInRecord(o: Outcome, name: MetricName)
    requires Scorable(o) && name in VERIFICATION_METRICS
    ensures name in RecordOf(o).metrics && RecordOf(o).metrics[name] == VerificationMetric(o, name)
  {
    hide RecordOf, VerificationMetric, Scorable, JudgeMetric, RefusalMetric, OverRefusalMetric;
    MetricInRecord(o, name);
  }

  lemma NothingFound(o: Outcome, name: MetricName)
    requires o.verification.None? && (o.generate ==> !o.error.NoError?)
    ensures VerificationMetric(o, name) == Metric(Null, Some(if !o.generate then RetrievalOnly else ServiceFailed))
  {
  }

  lemma CitationsPublished(o: Outcome)
    requires Scorable(o) && o.verification.Some?
    ensures CitationFindings(RecordOf(o), o.verification.value)
  {
    hide RecordOf, Scorable;
    VerificationInRecord(o, EvidenceCatalogValid);
    VerificationInRecord(o, SourceIdsExist);
    VerificationInRecord(o, CitationIdsValid);
    VerificationInRecord(o, CitationAlignmentValid);
    VerificationInRecord(o, EvidenceScopeValid);
    VerificationInRecord(o, CitationValid);
    VerificationScalars(o);
  }

  lemma AnswerPublished(o: Outcome)
    requires Scorable(o) && o.verification.Some?
    ensures AnswerFindings(RecordOf(o), o.verification.value, ModeAsExpected(o))
  {
    hide RecordOf, Scorable;
    VerificationInRecord(o, SchemaValid);
    VerificationInRecord(o, DisclaimerPresent);
    VerificationInRecord(o, ResponseModeValid);
    VerificationInRecord(o, VerifierPass);
    VerificationInRecord(o, ResponseModeCorrect);
    VerificationInRecord(o, SemanticSupportStatus);
    VerificationScalars(o);
  }

  lemma VerificationScalars(o: Outcome)
    requires Scorable(o)
    ensures o.verification.None? ==> RecordOf(o).citationValid == RecordOf(o).verifierPass == -1
    ensures o.verification.Some? ==>
            var v := o.verification.value;
            && RecordOf(o).citationValid == (if v.citationIdsValid && v.scopeValid != Some(false) then 1 else 0)
            && RecordOf(o).verifierPass == (if v.passed then 1 else 0)
  {
    hide HitAtK, CitationHitOf, MeanReciprocalRank, TargetCoverageOf, KeywordCoverageOf, Rounded, ExecutionOf, AttemptOf, MetricOf;
  }

  /** Main theorem: whether the answer refuses is published as recall of refusals where the case expects one, as
      over-refusal where it expects an answer, and nowhere else. */
  lemma RefusalMetricsMean(o: Outcome)
    requires Score(o).Ok?
    ensures var r, expected := Score(o).value, ResolvedBehavior(o.case_);
            && RefusalRecallHit in r.metrics && RefusalCorrectness in r.metrics
            && r.metrics[RefusalCorrectness] == r.metrics[RefusalRecallHit]
            && (if !o.generate then Withheld(r, RefusalRecallHit, RetrievalOnly)
                else if expected != OutOfScope then Withheld(r, RefusalRecallHit, NotExpectedToRefuse)
                else if o.verification.None? then Withheld(r, RefusalRecallHit, ServiceFailed)
                else PublishedFlag(r, RefusalRecallHit, o.verification.value.refusalPresent))
            && (if expected != EvidenceAnswer && expected != InsufficientEvidence then Withheld(r, OverRefusal, NotExpectedToAnswer)
                else if o.verification.None? then Withheld(r, OverRefusal, if !o.generate then RetrievalOnly else ServiceFailed)
                else PublishedFlag(r, OverRefusal, o.verification.value.refusalPresent))
            && r.refusalCorrectness ==
               (if o.generate && expected == OutOfScope && o.verification.Some? then (if o.verification.value.refusalPresent then 1 else 0)
                else -1)
  {
    hide Score, RecordOf, NonBlank, ValidUsage, ValidCase, Scorable;
    ScoredIsRecord(o);
    MetricInRecord(o, RefusalRecallHit);
    MetricInRecord(o, RefusalCorrectness);
    MetricInRecord(o, OverRefusal);
    RefusalScalar(o);
  }

  lemma RefusalScalar(o: Outcome)
    requires Scorable(o)
    ensures RecordOf(o).refusalCorrectness == Flag(RefusalMetric(o).value)
  {
    hide HitAtK, CitationHitOf, MeanReciprocalRank, TargetCoverageOf, KeywordCoverageOf, Rounded, ExecutionOf, AttemptOf, MetricOf,
         RefusalMetric, Flag;
  }

  /** Main theorem: a judge that succeeded has each of its scores published under its own name, a judge that did
      not has none, and its error is kept. */
  lemma JudgeMetricsMean(o: Outcome)
    requires Score(o).Ok?
    ensures var r := Score(o).value;
            if o.judge.Some? && o.judge.value.status.JudgeSucceeded? then
              var j := o.judge.value;
              && j.faithfulness.Some? && r.judgeFaithfulness == j.faithfulness.value && JudgeFaithfulness in r.metrics
              && r.metrics[JudgeFaithfulness] == Metric(Number(j.faithfulness.value), None)
              && j.relevance.Some? && r.judgeRelevance == j.relevance.value && JudgeRelevance in r.metrics
              && r.metrics[JudgeRelevance] == Metric(Number(j.relevance.value), None)
              && j.completeness.Some? && r.judgeCompleteness == j.completeness.value && JudgeCompleteness in r.metrics
              && r.metrics[JudgeCompleteness] == Metric(Number(j.completeness.value), None)
              && PublishedFlag(r, JudgePass, j.faithfulness.value >= 0.7 && j.relevance.value >= 0.7)
              && r.judgePass == (if j.faithfulness.value >= 0.7 && j.relevance.value >= 0.7 then 1 else 0) && r.judgeError == ""
            else
              && r.judgeFaithfulness == r.judgeRelevance == r.judgeCompleteness == -1.0 && r.judgePass == -1
              && (forall name | JudgeName(name) :: name in r.metrics && r.metrics[name] == Metric(Null, r.execution.judge.reason))
              && r.judgeError == match o.judge case Some(j) => (match j.error case SafeMessage(t) => t case _ => "") case None => ""
  {
    hide Score, RecordOf, ValidOutcome, ExecutionOf;
    ScoredIsRecord(o);
    JudgeSettled(o);
    JudgeScalars(o);
    if !JudgeDone(o) { JudgeErrorKept(o); }
    JudgeMetricIs(o, JudgeFaithfulness);
    JudgeMetricIs(o, JudgeRelevance);
    JudgeMetricIs(o, JudgeCompleteness);
    JudgeMetricIs(o, JudgePass);
    if o.judge.Some? { JudgeErrorIsSafe(o); }
  }

  lemma JudgeMetricIs(o: Outcome, name: MetricName)
    requires Scorable(o) && JudgeName(name)
    ensures name in RecordOf(o).metrics
    ensures !JudgeDone(o) ==> RecordOf(o).metrics[name] == Metric(Null, ExecutionOf(o).judge.reason)
    ensures JudgeDone(o) ==>
              RecordOf(o).metrics[name] == (
                match name
                case JudgeFaithfulness => Metric(OptionalNumber(o.judge.value.faithfulness), None)
                case JudgeRelevance => Metric(OptionalNumber(o.judge.value.relevance), None)
                case JudgeCompleteness => Metric(OptionalNumber(o.judge.value.completeness), None)
                case _ => Metric(if o.judge.value.passed.Some? then Bool(o.judge.value.passed.value) else Null, None))
  {
    hide RecordOf, MetricOf;
    MetricInRecord(o, name);
    JudgeMetricInRecord(o, name);
  }

  lemma JudgeErrorIsSafe(o: Outcome)
    requires ValidOutcome(o) && o.judge.Some?
    ensures ValidJudge(o.judge.value)
  {
    hide ValidCase, ValidUsage, NonBlank, ValidJudge;
  }

  lemma JudgeErrorKept(o: Outcome)
    requires Scorable(o) && !JudgeDone(o)
    ensures RecordOf(o).judgeError ==
            match o.judge case Some(j) => (match j.error case SafeMessage(t) => t case UnsafeMessage(t) => t case NoMessage => "") case None => ""
  {
    hide HitAtK, CitationHitOf, MeanReciprocalRank, TargetCoverageOf, KeywordCoverageOf, Rounded, ExecutionOf, AttemptOf, MetricOf,
         RefusalMetric;
  }

  // ----- how the case ended -----

  function Skipped(reason: Reason): Stage { Stage(NotRun, Some(reason)) }

  function JudgeStage(o: Outcome): Stage {
    match o.judge
    case None => Skipped(JudgeNotConfigured)
    case Some(j) =>
      if j.status.JudgeSucceeded? then Stage(Succeeded, None)
      else Stage(Errored, Some(JudgeStopped(if j.errorCode.Some? then j.errorCode.value else JudgeFailure)))
  }

  /** Main theorem: stages and attempt of a scored case, ending by ending. */
  lemma EndingsMean(o: Outcome)
    requires Score(o).Ok?
    ensures var e, a := Score(o).value.execution, Score(o).value.attempt;
            var ok := Stage(Succeeded, None);
            if !o.generate then
              && e.service == (if o.error.NoError? then ok else Stage(Errored, Some(ServiceFailed)))
              && e.generation == e.verification == e.judge == Skipped(RetrievalOnly)
              && a == MinimalAttempt(false, Some(RetrievalOnly))
            else if !o.error.NoError? then
              && e.service == e.generation == Stage(Errored, Some(ServiceFailed))
              && e.verification == e.judge == Skipped(ServiceFailed)
              && a == FullAttempt(false, AttemptError, Some(ServiceFailed), None, false)
            else if o.generationError then
              && e.service == Stage(Degraded, Some(GenerationFailed)) && e.generation == Stage(Errored, Some(GenerationFailed))
              && e.verification == ok && e.judge == Skipped(GenerationFailed)
              && a == FullAttempt(true, AttemptError, Some(GenerationFailed), o.structuredMode, false)
            else if o.kind.ModelKind? then
              && e == Execution(ok, ok, ok, JudgeStage(o))
              && (if o.preFallbackMode.Some? then a == FullAttempt(true, Rejected, Some(VerificationFailed), o.preFallbackMode, true)
                  else a == FullAttempt(true, Accepted, None, o.structuredMode, false))
            else
              && e == Execution(ok, Skipped(ProgrammaticTerminal), ok, JudgeStage(o))
              && a == FullAttempt(false, AttemptNotRun, Some(ProgrammaticTerminal), o.structuredMode, false)
  {
    hide Score, ValidUsage, ValidCase, NonBlank, RecordOf, MetricOf, ValidJudge;
    ScoredIsRecord(o);
    ModesInRecord(o);
  }

  /** The remaining fields: who answered what with which configuration, and what it cost. */
  lemma RestOfRecordMeans(o: Outcome)
    requires Score(o).Ok?
    ensures var r := Score(o).value;
            && r.caseId == o.case_.caseId && r.caseType == o.case_.caseType && r.model == o.model && r.retriever == o.retriever
            && r.chunkStrategy == o.chunkStrategy && r.sufficiencyPass == (if o.sufficient then 1 else 0) && r.latencyMs == o.latencyMs
            && r.expectedBehavior == ResolvedBehavior(o.case_)
            && r.observedMode == (if o.structuredMode.None? && o.verification.Some? then Some(o.verification.value.actualMode) else o.structuredMode)
    ensures var r, a, n, j := Score(o).value, o.assistantUsage, o.normalizerUsage, o.judgeUsage;
            && r.assistantCalls == a.calls && r.normalizerCalls == n.calls && r.judgeCalls == j.calls
            && r.failedCalls == a.failedCalls + n.failedCalls + j.failedCalls
            && r.inputTokens == a.inputTokens + n.inputTokens + j.inputTokens
            && r.outputTokens == a.outputTokens + n.outputTokens + j.outputTokens
            && r.totalTokens == a.totalTokens + n.totalTokens + j.totalTokens
            && r.tokenUsageCalls == a.tokenUsageCalls + n.tokenUsageCalls + j.tokenUsageCalls
            && r.llmLatencyMs == Rounded(a.latencyMs + n.latencyMs + j.latencyMs, 1000)
  {
    hide Score, ValidUsage, ValidCase, NonBlank, MetricOf, ValidJudge, HitAtK, CitationHitOf, MeanReciprocalRank, TargetCoverageOf,
         KeywordCoverageOf, Rounded, ExecutionOf, AttemptOf, RefusalMetric;
    ScoredIsRecord(o);
  }
}
