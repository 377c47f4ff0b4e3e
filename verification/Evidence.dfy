/** Evidence sufficiency (legal_rag/evidence.py): which required laws and articles the
    retrieved chunks cover, and why respelling an article cannot change the verdict. */
module Evidence {
  import opened Common
  import opened Strings
  import opened ArticleNumbers

  datatype RetrievedChunk = RetrievedChunk(lawNames: seq<string>, articleNumbers: seq<string>, score: real)

  /** Law and article hints of the query analysis, of the normalized query, or of one retrieval plan. */
  datatype Hints = Hints(laws: seq<string>, articles: seq<string>)

  datatype NormalizedQuery = NormalizedQuery(hints: Hints, missingFacts: seq<string>, legalQuestionCount: nat)

  datatype Question = Question(
    text: string, analysis: Hints, normalized: Option<NormalizedQuery>, plans: seq<Hints>, minResults: int, maxFollowups: nat)

  datatype StopReason = NeedsClarification | Sufficient | NeedsFollowup

  datatype Verdict = Verdict(
    sufficient: bool, missingFacts: seq<string>, missingLawSupport: seq<string>, lowCoverage: seq<string>,
    followupQueries: seq<string>, stopReason: StopReason)

  datatype EvidenceCheck = EvidenceCheck(verdict: Verdict, checkedResults: nat, coveredLaws: seq<string>, coveredArticles: seq<string>)

  const LOW_SCORE_THRESHOLD := 0.01
  const NO_EVIDENCE := "no_retrieved_evidence"
  const MISSING_LAW := "missing_law:"
  const MISSING_ARTICLE := "missing_article:"

  // ----- list helpers -----

  function Map(f: string -> string, s: seq<string>): seq<string> {
    if s == [] then [] else [f(s[0])] + Map(f, s[1..])
  }

  function NonEmpty(s: seq<string>): seq<string> {
    if s == [] then [] else if s[0] == "" then NonEmpty(s[1..]) else [s[0]] + NonEmpty(s[1..])
  }

  function FlatLaws(hints: seq<Hints>): seq<string> {
    if hints == [] then [] else hints[0].laws + FlatLaws(hints[1..])
  }

  function FlatArticles(hints: seq<Hints>): seq<string> {
    if hints == [] then [] else hints[0].articles + FlatArticles(hints[1..])
  }

  function AllHints(q: Question): seq<Hints> {
    [q.analysis] + (if q.normalized.Some? then [q.normalized.value.hints] else []) + q.plans
  }

  lemma {:induction false} MapAgree(f: string -> string, g: string -> string, s: seq<string>, t: seq<string>)
    requires |s| == |t| && forall i | 0 <= i < |s| :: f(s[i]) == g(t[i])
    ensures Map(f, s) == Map(g, t)
  {
    if s != [] {
      MapAgree(f, g, s[1..], t[1..]);
    }
  }

  // ----- what is required, covered and missing -----

  predicate LawCovered(law: string, results: seq<RetrievedChunk>) {
    exists i | 0 <= i < |results| :: exists covered | covered in results[i].lawNames ::
      covered != "" && (Occurs(law, covered) || Occurs(covered, law))
  }

  function CoveredLabels(nfkc: string -> string, results: seq<RetrievedChunk>): set<string> {
    if results == [] then {}
    else (set a | a in results[0].articleNumbers && a != "" :: CanonicalLabel(nfkc, a)) + CoveredLabels(nfkc, results[1..])
  }

  function MissingLaw(results: seq<RetrievedChunk>): string -> string {
    law => if law == "" || LawCovered(law, results) then "" else MISSING_LAW + law
  }

  function MissingArticle(nfkc: string -> string, covered: set<string>): string -> string {
    article => if article == "" || CanonicalLabel(nfkc, article) in covered then ""
               else MISSING_ARTICLE + CanonicalLabel(nfkc, article)
  }

  /** missing_law_support before deduplication. */
  function MissingSupport(nfkc: string -> string, q: Question, results: seq<RetrievedChunk>): seq<string> {
    (if results == [] then [NO_EVIDENCE] else [])
    + NonEmpty(Map(MissingLaw(results), Unique(FlatLaws(AllHints(q)))))
    + NonEmpty(Map(MissingArticle(nfkc, CoveredLabels(nfkc, results)), Unique(FlatArticles(AllHints(q)))))
  }

  function LowCoverage(q: Question, results: seq<RetrievedChunk>): seq<string> {
    (if q.normalized.Some? && q.normalized.value.legalQuestionCount > |results| && |results| < q.minResults
     then ["not_enough_results_for_legal_questions"] else [])
    + (if |results| < q.minResults then ["too_few_results"] else [])
    + (if results != [] && forall i | 0 <= i < |results| :: results[i].score <= LOW_SCORE_THRESHOLD then ["low_scores"] else [])
  }

  function MissingFacts(q: Question): seq<string> {
    if q.normalized.Some? then q.normalized.value.missingFacts else []
  }

  /** The follow-up query one missing item asks for; empty when it asks for none. */
  function FollowupFor(query: string): string -> string {
    item => if MISSING_LAW <= item then item[|MISSING_LAW|..] + " " + query
            else if MISSING_ARTICLE <= item then query + " " + item[|MISSING_ARTICLE|..] else ""
  }

  /** build_followup_queries */
  function FollowupQueries(query: string, missing: seq<string>, maxQueries: nat): seq<string> {
    var queries := NonEmpty(Map(FollowupFor(query), missing));
    var all := Unique(if queries == [] && missing != [] then [query] else queries);
    if |all| <= maxQueries then all else all[..maxQueries]
  }

  function VerdictOf(q: Question, missing: seq<string>, results: seq<RetrievedChunk>): Verdict {
    var sufficient := missing == [] && MissingFacts(q) == [] && LowCoverage(q, results) == [] && results != [];
    Verdict(sufficient, Unique(MissingFacts(q)), Unique(missing), Unique(LowCoverage(q, results)),
            FollowupQueries(q.text, missing, q.maxFollowups),
            if MissingFacts(q) != [] then NeedsClarification else if sufficient then Sufficient else NeedsFollowup)
  }

  function LawNames(results: seq<RetrievedChunk>): seq<string> {
    if results == [] then [] else results[0].lawNames + LawNames(results[1..])
  }

  function ArticleNumbersOf(results: seq<RetrievedChunk>): seq<string> {
    if results == [] then [] else results[0].articleNumbers + ArticleNumbersOf(results[1..])
  }

  function CheckOf(nfkc: string -> string, q: Question, results: seq<RetrievedChunk>): EvidenceCheck {
    EvidenceCheck(VerdictOf(q, MissingSupport(nfkc, q, results), results), |results|, Unique(LawNames(results)), Unique(ArticleNumbersOf(results)))
  }

  // ----- the code -----

  lemma {:induction false} LawsAppend(a: seq<Hints>, b: seq<Hints>)
    ensures FlatLaws(a + b) == FlatLaws(a) + FlatLaws(b)
  {
    if a == [] {
      assert a + b == b;
    } else {
      LawsAppend(a[1..], b);
      assert (a + b)[1..] == a[1..] + b;
      assert a[0].laws + (FlatLaws(a[1..]) + FlatLaws(b)) == FlatLaws(a) + FlatLaws(b);
    }
  }

  lemma {:induction false} ArticlesAppend(a: seq<Hints>, b: seq<Hints>)
    ensures FlatArticles(a + b) == FlatArticles(a) + FlatArticles(b)
  {
    if a == [] {
      assert a + b == b;
    } else {
      ArticlesAppend(a[1..], b);
      assert (a + b)[1..] == a[1..] + b;
      assert a[0].articles + (FlatArticles(a[1..]) + FlatArticles(b)) == FlatArticles(a) + FlatArticles(b);
    }
  }

  /** required_law_hints and required_article_hints */
  method CollectHints(q: Question) returns (requiredLaws: seq<string>, requiredArticles: seq<string>)
    ensures requiredLaws == Unique(FlatLaws(AllHints(q))) && requiredArticles == Unique(FlatArticles(AllHints(q)))
  {
    var laws, articles := q.analysis.laws, q.analysis.articles;
    if q.normalized.Some? {
      laws := laws + q.normalized.value.hints.laws;
      articles := articles + q.normalized.value.hints.articles;
    }
    ghost var head := [q.analysis] + if q.normalized.Some? then [q.normalized.value.hints] else [];
    LawsAppend(head, q.plans);
    ArticlesAppend(head, q.plans);
    assert laws == FlatLaws(head) && articles == FlatArticles(head);
    var i := 0;
    while i < |q.plans|
      invariant i <= |q.plans|
      invariant laws + FlatLaws(q.plans[i..]) == FlatLaws(AllHints(q))
      invariant articles + FlatArticles(q.plans[i..]) == FlatArticles(AllHints(q))
    {
      assert q.plans[i..][1..] == q.plans[i + 1..];
      laws := laws + q.plans[i].laws;
      articles := articles + q.plans[i].articles;
      i := i + 1;
    }
    assert q.plans[i..] == [] && laws + [] == laws && articles + [] == articles;
    requiredLaws := ComputeUnique(laws);
    requiredArticles := ComputeUnique(articles);
  }

  /** The covered laws and articles. */
  method CollectCovered(results: seq<RetrievedChunk>) returns (coveredLaws: seq<string>, coveredArticles: seq<string>)
    ensures coveredLaws == Unique(LawNames(results)) && coveredArticles == Unique(ArticleNumbersOf(results))
  {
    var laws: seq<string>, articles: seq<string> := [], [];
    var i := 0;
    while i < |results|
      invariant i <= |results|
      invariant laws + LawNames(results[i..]) == LawNames(results)
      invariant articles + ArticleNumbersOf(results[i..]) == ArticleNumbersOf(results)
    {
      assert results[i..][1..] == results[i + 1..];
      laws := laws + results[i].lawNames;
      articles := articles + results[i].articleNumbers;
      i := i + 1;
    }
    assert results[i..] == [] && laws + [] == laws && articles + [] == articles;
    coveredLaws := ComputeUnique(laws);
    coveredArticles := ComputeUnique(articles);
  }

  /** Collect what the items map to, skipping the empty string. */
  method Collect(f: string -> string, items: seq<string>) returns (found: seq<string>)
    ensures found == NonEmpty(Map(f, items))
  {
    found := [];
    var i := 0;
    while i < |items|
      invariant i <= |items|
      invariant NonEmpty(Map(f, items)) == found + NonEmpty(Map(f, items[i..]))
    {
      assert items[i..][1..] == items[i + 1..];
      var value := f(items[i]);
      if value != "" {
        found := found + [value];
      }
      i := i + 1;
    }
  }

  method CollectLabels(nfkc: string -> string, results: seq<RetrievedChunk>) returns (labels: set<string>)
    ensures labels == CoveredLabels(nfkc, results)
  {
    labels := {};
    var i := 0;
    while i < |results|
      invariant i <= |results|
      invariant CoveredLabels(nfkc, results) == labels + CoveredLabels(nfkc, results[i..])
    {
      assert results[i..][1..] == results[i + 1..];
      labels := labels + set a | a in results[i].articleNumbers && a != "" :: CanonicalLabel(nfkc, a);
      i := i + 1;
    }
  }

  /** check_evidence_sufficiency */
  method CheckEvidenceSufficiency(nfkc: string -> string, q: Question, results: seq<RetrievedChunk>)
    returns (check: EvidenceCheck)
    ensures check == CheckOf(nfkc, q, results)
  {
    hide Unique, CanonicalLabel, LawCovered, FlatLaws, FlatArticles, AllHints, LawNames, ArticleNumbersOf;
    var missing: seq<string> := [];
    if results == [] {
      missing := [NO_EVIDENCE];
    }
    var coveredLaws, coveredArticles := CollectCovered(results);
    var requiredLaws, requiredArticles := CollectHints(q);
    var lawItems := Collect(MissingLaw(results), requiredLaws);
    missing := missing + lawItems;
    var covered := CollectLabels(nfkc, results);
    var articleItems := Collect(MissingArticle(nfkc, covered), requiredArticles);
    missing := missing + articleItems;
    var queries := Collect(FollowupFor(q.text), missing);
    if queries == [] && missing != [] {
      queries := [q.text];
    }
    var followups := ComputeUnique(queries);
    if |followups| > q.maxFollowups {
      followups := followups[..q.maxFollowups];
    }
    var facts, low := MissingFacts(q), LowCoverage(q, results);
    var sufficient := missing == [] && facts == [] && low == [] && results != [];
    var stop := if facts != [] then NeedsClarification else if sufficient then Sufficient else NeedsFollowup;
    var uniqueFacts := ComputeUnique(facts);
    var uniqueMissing := ComputeUnique(missing);
    var uniqueLow := ComputeUnique(low);
    check := EvidenceCheck(Verdict(sufficient, uniqueFacts, uniqueMissing, uniqueLow, followups, stop), |results|, coveredLaws, coveredArticles);
  }

  // ----- respelling -----

  lemma {:induction false} UniqueDropsEmpty(s: seq<string>, seen: set<string>)
    ensures UniqueFrom(NonEmpty(s), seen) == UniqueFrom(s, seen)
  {
    if s != [] {
      UniqueDropsEmpty(s[1..], seen);
      UniqueDropsEmpty(s[1..], seen + {s[0]});
      if s[0] != "" {
        assert NonEmpty(s)[1..] == NonEmpty(s[1..]);
      } else {
        assert NonEmpty(s) == NonEmpty(s[1..]);
      }
    }
  }

  /** Deduplicating before mapping makes no difference to deduplicating after it. */
  lemma {:induction false} UniqueThroughMap(f: string -> string, s: seq<string>, early: set<string>, seen: set<string>)
    requires f("") == ""
    requires forall x | x in early :: f(x) == "" || f(x) in seen
    ensures UniqueFrom(Map(f, UniqueFrom(s, early)), seen) == UniqueFrom(Map(f, s), seen)
  {
    if s != [] {
      var x, rest := s[0], s[1..];
      assert Map(f, s)[1..] == Map(f, rest);
      if x == "" || x in early {
        UniqueThroughMap(f, rest, early, seen);
      } else {
        var kept := UniqueFrom(rest, early + {x});
        assert ([x] + kept)[1..] == kept;
        if f(x) == "" || f(x) in seen {
          UniqueThroughMap(f, rest, early + {x}, seen);
        } else {
          UniqueThroughMap(f, rest, early + {x}, seen + {f(x)});
        }
      }
    }
  }

  /** The tail of a concatenation only matters up to what the head has not seen. */
  lemma {:induction false} UniqueAppend(a: seq<string>, b: seq<string>, c: seq<string>, seen: set<string>)
    requires forall wider: set<string> :: seen <= wider ==> UniqueFrom(b, wider) == UniqueFrom(c, wider)
    ensures UniqueFrom(a + b, seen) == UniqueFrom(a + c, seen)
  {
    if a == [] {
      assert a + b == b && a + c == c;
    } else {
      assert (a + b)[1..] == a[1..] + b && (a + c)[1..] == a[1..] + c;
      UniqueAppend(a[1..], b, c, seen);
      UniqueAppend(a[1..], b, c, seen + {a[0]});
    }
  }

  /** ys spells the articles of xs in another way: the same canonical label, place by place. */
  predicate Respelled(nfkc: string -> string, xs: seq<string>, ys: seq<string>) {
    |xs| == |ys| && forall i | 0 <= i < |xs| :: SameArticle(nfkc, xs[i], ys[i])
  }

  predicate SameArticle(nfkc: string -> string, x: string, y: string) {
    (x == "" <==> y == "") && CanonicalLabel(nfkc, x) == CanonicalLabel(nfkc, y)
  }

  predicate RespelledHints(nfkc: string -> string, a: seq<Hints>, b: seq<Hints>) {
    |a| == |b| && forall i | 0 <= i < |a| :: a[i].laws == b[i].laws && Respelled(nfkc, a[i].articles, b[i].articles)
  }

  predicate RespelledQuestion(nfkc: string -> string, q: Question, r: Question) {
    && q.text == r.text && q.minResults == r.minResults && q.maxFollowups == r.maxFollowups
    && q.analysis.laws == r.analysis.laws && Respelled(nfkc, q.analysis.articles, r.analysis.articles)
    && RespelledHints(nfkc, q.plans, r.plans)
    && match (q.normalized, r.normalized)
       case (None, None) => true
       case (Some(n), Some(m)) =>
         && n.missingFacts == m.missingFacts && n.legalQuestionCount == m.legalQuestionCount
         && n.hints.laws == m.hints.laws && Respelled(nfkc, n.hints.articles, m.hints.articles)
       case _ => false
  }

  predicate RespelledResults(nfkc: string -> string, a: seq<RetrievedChunk>, b: seq<RetrievedChunk>) {
    |a| == |b| && forall i | 0 <= i < |a| ::
      a[i].lawNames == b[i].lawNames && a[i].score == b[i].score && Respelled(nfkc, a[i].articleNumbers, b[i].articleNumbers)
  }

  lemma {:induction false} RespelledFlat(nfkc: string -> string, a: seq<Hints>, b: seq<Hints>)
    requires RespelledHints(nfkc, a, b)
    ensures FlatLaws(a) == FlatLaws(b) && Respelled(nfkc, FlatArticles(a), FlatArticles(b))
  {
    hide SameArticle;
    if a != [] {
      RespelledFlat(nfkc, a[1..], b[1..]);
    }
  }

  lemma RespelledLabels(nfkc: string -> string, xs: seq<string>, ys: seq<string>)
    requires Respelled(nfkc, xs, ys)
    ensures (set a | a in xs && a != "" :: CanonicalLabel(nfkc, a)) == (set a | a in ys && a != "" :: CanonicalLabel(nfkc, a))
  {
    hide CanonicalLabel;
    var left := set a | a in xs && a != "" :: CanonicalLabel(nfkc, a);
    var right := set a | a in ys && a != "" :: CanonicalLabel(nfkc, a);
    forall x | x in xs && x != "" ensures CanonicalLabel(nfkc, x) in right {
      var i :| 0 <= i < |xs| && xs[i] == x;
      assert SameArticle(nfkc, xs[i], ys[i]) && ys[i] in ys;
    }
    forall y | y in ys && y != "" ensures CanonicalLabel(nfkc, y) in left {
      var i :| 0 <= i < |ys| && ys[i] == y;
      assert SameArticle(nfkc, xs[i], ys[i]) && xs[i] in xs;
    }
  }

  lemma {:induction false} RespelledCoverage(nfkc: string -> string, a: seq<RetrievedChunk>, b: seq<RetrievedChunk>)
    requires RespelledResults(nfkc, a, b)
    ensures CoveredLabels(nfkc, a) == CoveredLabels(nfkc, b)
  {
    hide CanonicalLabel;
    if a != [] {
      RespelledLabels(nfkc, a[0].articleNumbers, b[0].articleNumbers);
      RespelledCoverage(nfkc, a[1..], b[1..]);
    }
  }

  /** Respelled required articles leave the same missing items, once deduplicated. */
  lemma RespelledMissing(nfkc: string -> string, covered: set<string>, xs: seq<string>, ys: seq<string>, seen: set<string>)
    requires Respelled(nfkc, xs, ys)
    ensures var f := MissingArticle(nfkc, covered);
            UniqueFrom(NonEmpty(Map(f, Unique(xs))), seen) == UniqueFrom(NonEmpty(Map(f, Unique(ys))), seen)
  {
    hide CanonicalLabel;
    var f := MissingArticle(nfkc, covered);
    UniqueDropsEmpty(Map(f, Unique(xs)), seen);
    UniqueDropsEmpty(Map(f, Unique(ys)), seen);
    UniqueThroughMap(f, xs, {}, seen);
    UniqueThroughMap(f, ys, {}, seen);
    forall i | 0 <= i < |xs| ensures f(xs[i]) == f(ys[i]) {
      assert SameArticle(nfkc, xs[i], ys[i]);
    }
    MapAgree(f, f, xs, ys);
  }

  lemma {:induction false} NoneEmptyAfter(s: seq<string>)
    ensures forall x | x in NonEmpty(s) :: x != ""
    ensures NonEmpty(s) == [] <==> Unique(s) == []
  {
    if s != [] {
      NoneEmptyAfter(s[1..]);
    }
  }

  lemma {:induction false} NonEmptyOfNonEmpty(s: seq<string>)
    requires forall x | x in s :: x != ""
    ensures NonEmpty(s) == s
  {
    if s != [] {
      assert forall x | x in s[1..] :: x in s;
      assert s[0] in s;
      NonEmptyOfNonEmpty(s[1..]);
    }
  }

  /** The verdict depends on the missing items only through what is left after deduplication. */
  lemma VerdictFromUnique(q: Question, r: Question, missing: seq<string>, other: seq<string>,
                          results: seq<RetrievedChunk>, others: seq<RetrievedChunk>)
    requires forall x | x in missing :: x != ""
    requires forall x | x in other :: x != ""
    requires Unique(missing) == Unique(other)
    requires MissingFacts(q) == MissingFacts(r) && LowCoverage(q, results) == LowCoverage(r, others)
    requires q.text == r.text && q.maxFollowups == r.maxFollowups && (results == [] <==> others == [])
    ensures VerdictOf(q, missing, results) == VerdictOf(r, other, others)
  {
    var f := FollowupFor(q.text);
    NonEmptyOfNonEmpty(missing);
    NonEmptyOfNonEmpty(other);
    NoneEmptyAfter(missing);
    NoneEmptyAfter(other);
    UniqueThroughMap(f, missing, {}, {});
    UniqueThroughMap(f, other, {}, {});
    assert Unique(Map(f, missing)) == Unique(Map(f, other));
    UniqueDropsEmpty(Map(f, missing), {});
    UniqueDropsEmpty(Map(f, other), {});
    NoneEmptyAfter(Map(f, missing));
    NoneEmptyAfter(Map(f, other));
    hide LowCoverage, MissingFacts, UniqueFrom, FollowupFor;
  }

  lemma SupportItemsNonEmpty(nfkc: string -> string, q: Question, results: seq<RetrievedChunk>)
    ensures forall x | x in MissingSupport(nfkc, q, results) :: x != ""
  {
    NoneEmptyAfter(Map(MissingLaw(results), Unique(FlatLaws(AllHints(q)))));
    NoneEmptyAfter(Map(MissingArticle(nfkc, CoveredLabels(nfkc, results)), Unique(FlatArticles(AllHints(q)))));
  }

  lemma SameLawVerdicts(a: seq<RetrievedChunk>, b: seq<RetrievedChunk>, laws: seq<string>)
    requires |a| == |b| && forall i | 0 <= i < |a| :: a[i].lawNames == b[i].lawNames
    ensures Map(MissingLaw(a), laws) == Map(MissingLaw(b), laws)
  {
    forall law ensures LawCovered(law, a) == LawCovered(law, b) {
    }
    MapAgree(MissingLaw(a), MissingLaw(b), laws, laws);
  }

  /** Main theorem: respelling any required article, in the analysis, the normalized query or a plan,
      and any covered article, in the retrieved chunks, changes nothing in the outcome of the check but how the
      covered articles are spelled. */
  lemma RespellingChangesNothing(nfkc: string -> string, q: Question, r: Question,
                                 results: seq<RetrievedChunk>, others: seq<RetrievedChunk>)
    requires RespelledQuestion(nfkc, q, r) && RespelledResults(nfkc, results, others)
    ensures CheckOf(nfkc, r, others) == CheckOf(nfkc, q, results).(coveredArticles := CheckOf(nfkc, r, others).coveredArticles)
    ensures Respelled(nfkc, ArticleNumbersOf(results), ArticleNumbersOf(others))
  {
    RespelledNames(nfkc, results, others);
    RespelledHintLists(nfkc, q, r);
    RespelledFlat(nfkc, AllHints(q), AllHints(r));
    RespelledCoverage(nfkc, results, others);
    SupportItemsNonEmpty(nfkc, q, results);
    SupportItemsNonEmpty(nfkc, r, others);
    RespelledSupport(nfkc, q, r, results, others);
    RestUnchanged(nfkc, q, r, results, others);
    hide *;
    VerdictFromUnique(q, r, MissingSupport(nfkc, q, results), MissingSupport(nfkc, r, others), results, others);
  }

  lemma {:induction false} RespelledNames(nfkc: string -> string, a: seq<RetrievedChunk>, b: seq<RetrievedChunk>)
    requires RespelledResults(nfkc, a, b)
    ensures LawNames(a) == LawNames(b) && Respelled(nfkc, ArticleNumbersOf(a), ArticleNumbersOf(b))
  {
    hide SameArticle;
    if a != [] {
      RespelledNames(nfkc, a[1..], b[1..]);
    }
  }

  lemma RestUnchanged(nfkc: string -> string, q: Question, r: Question,
                      results: seq<RetrievedChunk>, others: seq<RetrievedChunk>)
    requires RespelledQuestion(nfkc, q, r) && RespelledResults(nfkc, results, others)
    ensures LowCoverage(q, results) == LowCoverage(r, others) && MissingFacts(q) == MissingFacts(r)
    ensures q.text == r.text && q.maxFollowups == r.maxFollowups && (results == [] <==> others == [])
  {
    hide Respelled, RespelledHints;
  }

  lemma RespelledHintLists(nfkc: string -> string, q: Question, r: Question)
    requires RespelledQuestion(nfkc, q, r)
    ensures RespelledHints(nfkc, AllHints(q), AllHints(r))
  {
    hide Respelled;
  }

  lemma RespelledSupport(nfkc: string -> string, q: Question, r: Question,
                         results: seq<RetrievedChunk>, others: seq<RetrievedChunk>)
    requires RespelledResults(nfkc, results, others) && CoveredLabels(nfkc, results) == CoveredLabels(nfkc, others)
    requires FlatLaws(AllHints(q)) == FlatLaws(AllHints(r))
    requires Respelled(nfkc, FlatArticles(AllHints(q)), FlatArticles(AllHints(r)))
    ensures Unique(MissingSupport(nfkc, q, results)) == Unique(MissingSupport(nfkc, r, others))
  {
    var covered := CoveredLabels(nfkc, results);
    var xs, ys := FlatArticles(AllHints(q)), FlatArticles(AllHints(r));
    var laws := Unique(FlatLaws(AllHints(q)));
    SameLawVerdicts(results, others, laws);
    hide CoveredLabels, AllHints, FlatLaws, FlatArticles, UniqueFrom, Map, NonEmpty, MissingArticle, MissingLaw, Respelled;
    var head := (if results == [] then [NO_EVIDENCE] else []) + NonEmpty(Map(MissingLaw(results), laws));
    var f := MissingArticle(nfkc, covered);
    var b, c := NonEmpty(Map(f, Unique(xs))), NonEmpty(Map(f, Unique(ys)));
    forall seen: set<string> ensures UniqueFrom(b, seen) == UniqueFrom(c, seen) {
      RespelledMissing(nfkc, covered, xs, ys, seen);
    }
    UniqueAppend(head, b, c, {});
    assert MissingSupport(nfkc, q, results) == head + b && MissingSupport(nfkc, r, others) == head + c;
  }

  /** The verdict in plain terms: sufficient exactly when something was retrieved, every required law is
      covered, every required article has a covered spelling, no fact is missing and coverage is not low. */
  lemma SufficientMeans(nfkc: string -> string, q: Question, results: seq<RetrievedChunk>)
    ensures CheckOf(nfkc, q, results).verdict.sufficient <==>
              && results != [] && MissingFacts(q) == [] && LowCoverage(q, results) == []
              && (forall law | law in FlatLaws(AllHints(q)) && law != "" :: LawCovered(law, results))
              && (forall a | a in FlatArticles(AllHints(q)) && a != "" ::
                    CanonicalLabel(nfkc, a) in CoveredLabels(nfkc, results))
  {
    NothingMissing(MissingLaw(results), FlatLaws(AllHints(q)));
    NothingMissing(MissingArticle(nfkc, CoveredLabels(nfkc, results)), FlatArticles(AllHints(q)));
    MissingIsMarked(nfkc, results);
    hide CanonicalLabel, LawCovered, MissingLaw, MissingArticle, CoveredLabels, Unique, LowCoverage, MissingFacts, FollowupQueries;
  }

  lemma NothingMissing(f: string -> string, required: seq<string>)
    requires f("") == ""
    ensures NonEmpty(Map(f, Unique(required))) == [] <==> forall x | x in required && x != "" :: f(x) == ""
  {
    UniqueFromKeeps(required, {});
    AllMapToEmpty(f, Unique(required));
  }

  lemma MissingIsMarked(nfkc: string -> string, results: seq<RetrievedChunk>)
    ensures forall law | law != "" :: MissingLaw(results)(law) == "" <==> LawCovered(law, results)
    ensures forall a | a != "" :: MissingArticle(nfkc, CoveredLabels(nfkc, results))(a) == "" <==>
                                  CanonicalLabel(nfkc, a) in CoveredLabels(nfkc, results)
    ensures MissingLaw(results)("") == "" && MissingArticle(nfkc, CoveredLabels(nfkc, results))("") == ""
  {
    hide CanonicalLabel, LawCovered, CoveredLabels;
  }

  lemma {:induction false} AllMapToEmpty(f: string -> string, s: seq<string>)
    ensures NonEmpty(Map(f, s)) == [] <==> forall x | x in s :: f(x) == ""
  {
    if s != [] {
      AllMapToEmpty(f, s[1..]);
      assert Map(f, s)[1..] == Map(f, s[1..]);
      assert forall x :: x in s <==> x == s[0] || x in s[1..];
    }
  }
}
