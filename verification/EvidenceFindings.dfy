/** What an evidence check reports, item by item (legal_rag/evidence.py). */
module EvidenceFindings {
  import opened Common
  import opened Strings
  import opened ArticleNumbers
  import opened Evidence

  // ----- covered -----

  /** One text is part of the other. */
  predicate Contained(a: string, b: string) { Occurs(a, b) || Occurs(b, a) }

  /** A required law is covered by any law name of any retrieved chunk that contains it or is contained in it. */
  lemma LawCoveredMeans(law: string, results: seq<RetrievedChunk>)
    ensures LawCovered(law, results) <==>
            exists name | name in LawNames(results) && name != "" :: Contained(law, name)
  {
    hide Occurs;
    LawNamesMean(results);
    if i :| 0 <= i < |results| && exists covered | covered in results[i].lawNames :: covered != "" && Contained(law, covered) {
      var covered :| covered in results[i].lawNames && covered != "" && Contained(law, covered);
      assert covered in LawNames(results);
    }
    if name :| name in LawNames(results) && name != "" && Contained(law, name) {
      var i :| 0 <= i < |results| && name in results[i].lawNames;
    }
  }

  lemma {:induction false} LawNamesMean(results: seq<RetrievedChunk>)
    ensures forall name :: name in LawNames(results) <==> exists i | 0 <= i < |results| :: name in results[i].lawNames
  {
    if results != [] {
      LawNamesMean(results[1..]);
      forall name ensures name in LawNames(results) <==> exists i | 0 <= i < |results| :: name in results[i].lawNames {
        if name in LawNames(results[1..]) {
          var i :| 0 <= i < |results[1..]| && name in results[1..][i].lawNames;
          assert name in results[i + 1].lawNames;
        }
        if i :| 0 <= i < |results| && name in results[i].lawNames {
          assert i > 0 ==> results[1..][i - 1] == results[i];
        }
      }
    }
  }

  lemma {:induction false} ArticleNumbersMean(results: seq<RetrievedChunk>)
    ensures forall a :: a in ArticleNumbersOf(results) <==> exists i | 0 <= i < |results| :: a in results[i].articleNumbers
  {
    if results != [] {
      ArticleNumbersMean(results[1..]);
      forall a ensures a in ArticleNumbersOf(results) <==> exists i | 0 <= i < |results| :: a in results[i].articleNumbers {
        if a in ArticleNumbersOf(results[1..]) {
          var i :| 0 <= i < |results[1..]| && a in results[1..][i].articleNumbers;
          assert a in results[i + 1].articleNumbers;
        }
        if i :| 0 <= i < |results| && a in results[i].articleNumbers {
          assert i > 0 ==> results[1..][i - 1] == results[i];
        }
      }
    }
  }

  /** The covered labels are the canonical spellings of the articles of the retrieved chunks. */
  lemma {:induction false} CoveredLabelsMean(nfkc: string -> string, results: seq<RetrievedChunk>)
    ensures forall spelling :: spelling in CoveredLabels(nfkc, results) <==>
              exists a | a in ArticleNumbersOf(results) && a != "" :: CanonicalLabel(nfkc, a) == spelling
  {
    hide CanonicalLabel;
    if results != [] {
      CoveredLabelsMean(nfkc, results[1..]);
      assert forall a :: a in ArticleNumbersOf(results) <==> a in results[0].articleNumbers || a in ArticleNumbersOf(results[1..]);
    }
  }

  /** What the check reports as covered and checked: every non-empty law name and article of the chunks, once. */
  lemma CoveredMean(nfkc: string -> string, q: Question, results: seq<RetrievedChunk>, x: string)
    ensures var check := CheckOf(nfkc, q, results);
            && (x in check.coveredLaws <==> x != "" && exists r | r in results :: x in r.lawNames)
            && (x in check.coveredArticles <==> x != "" && exists r | r in results :: x in r.articleNumbers)
            && (forall i, j | 0 <= i < j < |check.coveredLaws| :: check.coveredLaws[i] != check.coveredLaws[j])
            && (forall i, j | 0 <= i < j < |check.coveredArticles| :: check.coveredArticles[i] != check.coveredArticles[j])
            && check.checkedResults == |results|
  {
    hide VerdictOf, MissingSupport, Unique;
    UniqueMeans(LawNames(results));
    UniqueMeans(ArticleNumbersOf(results));
    LawNamesMean(results);
    ArticleNumbersMean(results);
    if r :| r in results && x in r.lawNames {
      var i :| 0 <= i < |results| && results[i] == r;
      assert x in results[i].lawNames;
    }
    if r :| r in results && x in r.articleNumbers {
      var i :| 0 <= i < |results| && results[i] == r;
      assert x in results[i].articleNumbers;
    }
  }

  // ----- required -----

  /** The hints of the query analysis, of the normalized query when there is one, and of every plan. */
  predicate HintsOf(q: Question, h: Hints) {
    h == q.analysis || (q.normalized.Some? && h == q.normalized.value.hints) || h in q.plans
  }

  lemma {:induction false} FlatMean(hints: seq<Hints>, x: string)
    ensures x in FlatLaws(hints) <==> exists h | h in hints :: x in h.laws
    ensures x in FlatArticles(hints) <==> exists h | h in hints :: x in h.articles
  {
    if hints != [] {
      FlatMean(hints[1..], x);
      assert forall h :: h in hints <==> h == hints[0] || h in hints[1..];
    }
  }

  lemma RequiredMeans(q: Question, x: string)
    ensures x in FlatLaws(AllHints(q)) <==> exists h | HintsOf(q, h) :: x in h.laws
    ensures x in FlatArticles(AllHints(q)) <==> exists h | HintsOf(q, h) :: x in h.articles
  {
    hide FlatLaws, FlatArticles;
    FlatMean(AllHints(q), x);
    assert forall h :: h in AllHints(q) <==> HintsOf(q, h);
  }

  // ----- missing -----

  lemma {:induction false} KeptItems(f: string -> string, s: seq<string>, x: string)
    ensures x in NonEmpty(Map(f, s)) <==> x != "" && exists item | item in s :: f(item) == x
  {
    if s != [] {
      KeptItems(f, s[1..], x);
      assert Map(f, s)[1..] == Map(f, s[1..]);
      assert forall item :: item in s <==> item == s[0] || item in s[1..];
    }
  }

  ghost predicate LawMissing(q: Question, results: seq<RetrievedChunk>, law: string) {
    law != "" && (exists h | HintsOf(q, h) :: law in h.laws) && !LawCovered(law, results)
  }

  ghost predicate ArticleMissing(nfkc: string -> string, q: Question, results: seq<RetrievedChunk>, article: string) {
    article != "" && (exists h | HintsOf(q, h) :: article in h.articles) && CanonicalLabel(nfkc, article) !in CoveredLabels(nfkc, results)
  }

  /** Main theorem: the missing support names, once each, that nothing was retrieved, every required law that no
      retrieved chunk covers, and the canonical spelling of every required article that none covers. */
  lemma MissingSupportMeans(nfkc: string -> string, q: Question, results: seq<RetrievedChunk>, x: string)
    ensures var missing := CheckOf(nfkc, q, results).verdict.missingLawSupport;
            && (x in missing <==>
                  || (x == "no_retrieved_evidence" && results == [])
                  || (exists law | LawMissing(q, results, law) :: x == "missing_law:" + law)
                  || (exists a | ArticleMissing(nfkc, q, results, a) :: x == "missing_article:" + CanonicalLabel(nfkc, a)))
            && forall i, j | 0 <= i < j < |missing| :: missing[i] != missing[j]
  {
    hide CanonicalLabel, LawCovered, CoveredLabels, Unique, LowCoverage, FollowupQueries, MissingFacts, LawNames, ArticleNumbersOf, AllHints;
    var support := MissingSupport(nfkc, q, results);
    UniqueMeans(support);
    var laws, articles := Unique(FlatLaws(AllHints(q))), Unique(FlatArticles(AllHints(q)));
    UniqueMeans(FlatLaws(AllHints(q)));
    UniqueMeans(FlatArticles(AllHints(q)));
    KeptItems(MissingLaw(results), laws, x);
    KeptItems(MissingArticle(nfkc, CoveredLabels(nfkc, results)), articles, x);
    SupportParts(nfkc, q, results, x);
    hide MissingSupport;
    MissingLawItems(q, results, x);
    MissingArticleItems(nfkc, q, results, x);
  }

  lemma SupportParts(nfkc: string -> string, q: Question, results: seq<RetrievedChunk>, x: string)
    ensures x in MissingSupport(nfkc, q, results) <==>
            || (x == NO_EVIDENCE && results == [])
            || x in NonEmpty(Map(MissingLaw(results), Unique(FlatLaws(AllHints(q)))))
            || x in NonEmpty(Map(MissingArticle(nfkc, CoveredLabels(nfkc, results)), Unique(FlatArticles(AllHints(q)))))
    ensures x in MissingSupport(nfkc, q, results) ==> x != ""
  {
    SupportItemsNonEmpty(nfkc, q, results);
    hide CanonicalLabel, LawCovered, CoveredLabels, Unique, MissingLaw, MissingArticle, Map, NonEmpty;
  }

  lemma MissingLawItems(q: Question, results: seq<RetrievedChunk>, x: string)
    ensures (x != "" && exists law | law in FlatLaws(AllHints(q)) && law != "" :: MissingLaw(results)(law) == x) <==>
            exists law | LawMissing(q, results, law) :: x == "missing_law:" + law
  {
    hide LawCovered, FlatLaws, AllHints, HintsOf;
    forall law ensures law in FlatLaws(AllHints(q)) <==> exists h | HintsOf(q, h) :: law in h.laws {
      RequiredMeans(q, law);
    }
    if law :| law in FlatLaws(AllHints(q)) && law != "" && MissingLaw(results)(law) == x && x != "" {
      assert LawMissing(q, results, law);
    }
    if law :| LawMissing(q, results, law) && x == "missing_law:" + law {
      assert |x| >= 12;
      assert MissingLaw(results)(law) == x;
    }
  }

  lemma MissingArticleItems(nfkc: string -> string, q: Question, results: seq<RetrievedChunk>, x: string)
    ensures var f := MissingArticle(nfkc, CoveredLabels(nfkc, results));
            (x != "" && exists a | a in FlatArticles(AllHints(q)) && a != "" :: f(a) == x) <==>
            exists a | ArticleMissing(nfkc, q, results, a) :: x == "missing_article:" + CanonicalLabel(nfkc, a)
  {
    hide CanonicalLabel, CoveredLabels, FlatArticles, AllHints, HintsOf;
    forall a ensures a in FlatArticles(AllHints(q)) <==> exists h | HintsOf(q, h) :: a in h.articles {
      RequiredMeans(q, a);
    }
    var f := MissingArticle(nfkc, CoveredLabels(nfkc, results));
    if a :| a in FlatArticles(AllHints(q)) && a != "" && f(a) == x && x != "" {
      assert ArticleMissing(nfkc, q, results, a);
    }
    if a :| ArticleMissing(nfkc, q, results, a) && x == "missing_article:" + CanonicalLabel(nfkc, a) {
      assert |x| >= 16 && f(a) == x && a in FlatArticles(AllHints(q)) && a != "";
      assert exists b | b in FlatArticles(AllHints(q)) && b != "" :: f(b) == x;
    }
  }

  /** Laws are missed before articles, which decides which follow-up queries are within their limit. */
  lemma MissingInOrder(nfkc: string -> string, q: Question, results: seq<RetrievedChunk>, i: nat, j: nat)
    requires var missing := CheckOf(nfkc, q, results).verdict.missingLawSupport;
             i < |missing| && j < |missing| && "missing_article:" <= missing[j] && !("missing_article:" <= missing[i])
    ensures i < j
  {
    hide CanonicalLabel, LawCovered, CoveredLabels, Unique, LowCoverage, FollowupQueries, MissingFacts, LawNames, ArticleNumbersOf, AllHints,
         Map, NonEmpty, MissingLaw, MissingArticle;
    var support := MissingSupport(nfkc, q, results);
    var laws := NonEmpty(Map(MissingLaw(results), Unique(FlatLaws(AllHints(q)))));
    var articles := NonEmpty(Map(MissingArticle(nfkc, CoveredLabels(nfkc, results)), Unique(FlatArticles(AllHints(q)))));
    var head := (if results == [] then [NO_EVIDENCE] else []) + laws;
    assert support == head + articles;
    forall x ensures (x in head ==> !(MISSING_ARTICLE <= x)) && (x in articles ==> MISSING_ARTICLE <= x) {
      ItemKinds(nfkc, q, results, x);
    }
    hide MissingSupport;
    UniqueMeans(support);
    var missing := Unique(support);
    assert missing[i] in support && missing[j] in support;
    FoundIn(head, articles, missing[i], FirstPlace(support, missing[i]));
    FoundIn(head, articles, missing[j], FirstPlace(support, missing[j]));
  }

  lemma FoundIn(a: seq<string>, b: seq<string>, x: string, p: nat)
    requires FirstAt(a + b, x, p)
    ensures x !in a ==> p >= |a|
    ensures x !in b ==> p < |a|
  {
    assert p < |a| ==> (a + b)[p] == a[p];
    assert p >= |a| ==> (a + b)[p] == b[p - |a|];
  }

  lemma ItemKinds(nfkc: string -> string, q: Question, results: seq<RetrievedChunk>, x: string)
    ensures x in (if results == [] then [NO_EVIDENCE] else []) + NonEmpty(Map(MissingLaw(results), Unique(FlatLaws(AllHints(q)))))
            ==> !(MISSING_ARTICLE <= x)
    ensures x in NonEmpty(Map(MissingArticle(nfkc, CoveredLabels(nfkc, results)), Unique(FlatArticles(AllHints(q))))) ==> MISSING_ARTICLE <= x
  {
    hide CanonicalLabel, LawCovered, CoveredLabels, Unique, AllHints, Map, NonEmpty;
    KeptItems(MissingLaw(results), Unique(FlatLaws(AllHints(q))), x);
    KeptItems(MissingArticle(nfkc, CoveredLabels(nfkc, results)), Unique(FlatArticles(AllHints(q))), x);
    PrefixesDiffer(x);
    assert NO_EVIDENCE[0] == 'n' && MISSING_ARTICLE[0] == 'm';
  }

  function FirstPlace(s: seq<string>, x: string): (p: nat)
    requires x in s
    ensures p < |s| && FirstAt(s, x, p)
  {
    if s[0] == x then 0 else 1 + FirstPlace(s[1..], x)
  }

  // ----- coverage and stop reason -----

  const COMPLAINTS: set<string> := {"too_few_results", "low_scores", "not_enough_results_for_legal_questions"}

  /** Main theorem: which complaints about coverage there are. */
  lemma LowCoverageMeans(nfkc: string -> string, q: Question, results: seq<RetrievedChunk>)
    ensures var low := CheckOf(nfkc, q, results).verdict.lowCoverage;
            && ("too_few_results" in low <==> |results| < q.minResults)
            && ("low_scores" in low <==> results != [] && forall r | r in results :: r.score <= 0.01)
            && ("not_enough_results_for_legal_questions" in low <==>
                  q.normalized.Some? && |results| < q.normalized.value.legalQuestionCount && |results| < q.minResults)
            && forall x | x in low :: x in COMPLAINTS
  {
    hide MissingSupport, FollowupQueries, Unique, LawNames, ArticleNumbersOf, MissingFacts;
    UniqueMeans(LowCoverage(q, results));
    DifferentComplaints();
    ScoresAreLow(results);
  }

  lemma NoComplaints(q: Question, results: seq<RetrievedChunk>)
    ensures LowCoverage(q, results) == [] ==> Unique(LowCoverage(q, results)) == []
    ensures MissingFacts(q) == [] ==> Unique(MissingFacts(q)) == []
  {
    NothingToAsk("", 0);
    hide Unique, LowCoverage;
  }

  /** Main theorem: the facts that are missing, the stop reason, and what a sufficient verdict goes with. */
  lemma StopReasonMeans(nfkc: string -> string, q: Question, results: seq<RetrievedChunk>)
    ensures var v := CheckOf(nfkc, q, results).verdict;
            && (v.stopReason == NeedsClarification <==> q.normalized.Some? && q.normalized.value.missingFacts != [])
            && (v.stopReason == Sufficient <==> v.sufficient)
            && (v.sufficient ==> v.missingLawSupport == [] && v.lowCoverage == [] && v.missingFacts == [] && v.followupQueries == [])
            && (forall x :: x in v.missingFacts <==> q.normalized.Some? && x != "" && x in q.normalized.value.missingFacts)
  {
    hide MissingSupport, FollowupQueries, Unique, LawNames, ArticleNumbersOf, LowCoverage;
    UniqueMeans(MissingFacts(q));
    NoComplaints(q, results);
    NothingToAsk(q.text, q.maxFollowups);
  }

  lemma DifferentComplaints()
    ensures "too_few_results" != "low_scores" && "too_few_results" != "not_enough_results_for_legal_questions"
    ensures "low_scores" != "not_enough_results_for_legal_questions"
  {
    assert |"too_few_results"| != |"low_scores"|;
    assert |"too_few_results"| != |"not_enough_results_for_legal_questions"|;
    assert |"low_scores"| != |"not_enough_results_for_legal_questions"|;
  }

  lemma ScoresAreLow(results: seq<RetrievedChunk>)
    ensures (forall i | 0 <= i < |results| :: results[i].score <= LOW_SCORE_THRESHOLD) <==> forall r | r in results :: r.score <= 0.01
  {
    if forall r | r in results :: r.score <= 0.01 {
      forall i | 0 <= i < |results| ensures results[i].score <= LOW_SCORE_THRESHOLD {
        assert results[i] in results;
      }
    }
  }

  lemma NothingToAsk(query: string, maxQueries: nat)
    ensures Unique([]) == [] && FollowupQueries(query, [], maxQueries) == []
  {
  }

  // ----- follow-up queries -----

  /** What to ask about one missing item. */
  ghost predicate AsksAbout(query: string, item: string, x: string) {
    || (exists law :: item == "missing_law:" + law && x == law + " " + query)
    || (exists spelling :: item == "missing_article:" + spelling && x == query + " " + spelling)
  }

  lemma PrefixesDiffer(item: string)
    ensures MISSING_LAW <= item ==> !(MISSING_ARTICLE <= item)
  {
    assert MISSING_LAW[8] == 'l' && MISSING_ARTICLE[8] == 'a';
    if MISSING_LAW <= item {
      assert item[8] == MISSING_LAW[8];
    }
  }

  lemma PrefixMeans(head: string, item: string)
    ensures head <= item <==> exists rest :: item == head + rest
    ensures forall rest :: item == head + rest ==> head <= item && rest == item[|head|..]
  {
    if head <= item {
      assert item == head + item[|head|..];
    }
  }

  lemma FollowupForMeans(query: string, item: string, x: string)
    ensures x != "" && FollowupFor(query)(item) == x <==> AsksAbout(query, item, x)
  {
    PrefixesDiffer(item);
    PrefixMeans(MISSING_LAW, item);
    PrefixMeans(MISSING_ARTICLE, item);
    if MISSING_LAW <= item {
      assert item == "missing_law:" + item[|MISSING_LAW|..];
    } else if MISSING_ARTICLE <= item {
      assert item == "missing_article:" + item[|MISSING_ARTICLE|..];
    }
  }

  /** All queries that could be asked, before the limit. */
  function AllFollowups(query: string, missing: seq<string>): seq<string> {
    FollowupQueries(query, missing, |missing| + 1)
  }

  lemma {:induction false} NoMoreItems(f: string -> string, s: seq<string>)
    ensures |NonEmpty(Map(f, s))| <= |s|
  {
    if s != [] {
      NoMoreItems(f, s[1..]);
      assert Map(f, s)[1..] == Map(f, s[1..]);
    }
  }

  lemma {:induction false} UniqueNoLonger(s: seq<string>, seen: set<string>)
    ensures |UniqueFrom(s, seen)| <= |s|
  {
    if s != [] {
      UniqueNoLonger(s[1..], seen);
      UniqueNoLonger(s[1..], seen + {s[0]});
    }
  }

  /** Main theorem: the queries are the first ones, up to the limit, of those asking about the missing laws and
      articles, each once, or of the question itself when nothing missing can be asked about. */
  lemma FollowupsMean(query: string, missing: seq<string>, maxQueries: nat, x: string)
    ensures var all, asked := AllFollowups(query, missing), FollowupQueries(query, missing, maxQueries);
            && asked == (if |all| <= maxQueries then all else all[..maxQueries])
            && (forall i, j | 0 <= i < j < |all| :: all[i] != all[j])
            && (x in all <==>
                  || (exists item | item in missing :: AsksAbout(query, item, x))
                  || (x == query && query != "" && missing != [] && forall item, y | item in missing :: !AsksAbout(query, item, y)))
  {
    hide FollowupFor, AsksAbout, Unique, Map, NonEmpty;
    var queries := NonEmpty(Map(FollowupFor(query), missing));
    var wanted := if queries == [] && missing != [] then [query] else queries;
    UniqueMeans(wanted);
    NoMoreItems(FollowupFor(query), missing);
    UniqueShort(wanted);
    assert AllFollowups(query, missing) == Unique(wanted);
    forall y ensures y in queries <==> exists item | item in missing :: AsksAbout(query, item, y) {
      QueriesAsk(query, missing, y);
    }
    if queries != [] {
      assert queries[0] in queries;
      var item :| item in missing && AsksAbout(query, item, queries[0]);
      assert x in queries ==> x != "" by { KeptItems(FollowupFor(query), missing, x); }
    } else {
      forall item, y | item in missing ensures !AsksAbout(query, item, y) {
        assert y !in queries;
      }
    }
  }

  lemma QueriesAsk(query: string, missing: seq<string>, y: string)
    ensures y in NonEmpty(Map(FollowupFor(query), missing)) <==> exists item | item in missing :: AsksAbout(query, item, y)
  {
    hide FollowupFor, AsksAbout, Map, NonEmpty;
    KeptItems(FollowupFor(query), missing, y);
    forall item ensures y != "" && FollowupFor(query)(item) == y <==> AsksAbout(query, item, y) {
      FollowupForMeans(query, item, y);
    }
  }

  lemma UniqueShort(s: seq<string>)
    ensures |Unique(s)| <= |s|
  {
    UniqueNoLonger(s, {});
  }
}
