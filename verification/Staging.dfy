/** Retrieving and generating a turn, and what the later checks make of it (legal_rag/chat.py, retrieve_turn and
    generate_turn; legal_rag/verifier.py, filter_results_to_context; legal_rag/chat_artifacts.py, the validators).
    The checks of verify_turn and those of the artifacts were written apart; here they meet. */
module Staging {
  import opened Common
  import opened Json
  import opened Turns
  import opened Session
  import opened Codecs
  import opened SourceMaps
  import opened LegacyShapes
  import opened ArtifactChain
  import opened LegacyHashes

  // ----- the evidence filter -----

  /** Whether a result may be shown, as far as its text is concerned: scope, snapshot and access. */
  type Context = SearchResult -> bool

  /** A rank that can be cited: positive, and no other result's. */
  predicate Citable(all: seq<SearchResult>, x: SearchResult) {
    x.rank > 0 && CountId(all, OriginalId(x)) <= 1
  }

  function KeptResults(all: seq<SearchResult>, rest: seq<SearchResult>, context: Context): seq<SearchResult> {
    if rest == [] then []
    else
      var before, x := KeptResults(all, rest[..|rest| - 1], context), rest[|rest| - 1];
      if Citable(all, x) && context(x) then before + [x] else before
  }

  function RejectedIds(all: seq<SearchResult>, rest: seq<SearchResult>, context: Context): seq<Text> {
    if rest == [] then []
    else
      var before, x := RejectedIds(all, rest[..|rest| - 1], context), rest[|rest| - 1];
      if Citable(all, x) && context(x) then before else before + [OriginalId(x)]
  }

  function Reranked(kept: seq<SearchResult>): (results: seq<SearchResult>)
    ensures |results| == |kept| && forall i | 0 <= i < |kept| :: results[i] == Renumbered(kept[i], i + 1)
  {
    seq(|kept|, i requires 0 <= i < |kept| => Renumbered(kept[i], i + 1))
  }

  function IdsOf(results: seq<SearchResult>): (ids: seq<Text>)
    ensures |ids| == |results| && forall i | 0 <= i < |results| :: ids[i] == OriginalId(results[i])
  {
    seq(|results|, i requires 0 <= i < |results| => OriginalId(results[i]))
  }

  /** The map a loop over the IDs fills; a later one would win. */
  function FilledMap(ids: seq<Text>): map<Text, Text> {
    if ids == [] then map[] else FilledMap(ids[..|ids| - 1])[ids[|ids| - 1] := SourceId(|ids|)]
  }

  datatype Filtered = Filtered(results: seq<SearchResult>, rejected: seq<Text>, sourceMap: map<Text, Text>)

  function FilterOf(all: seq<SearchResult>, context: Context): Filtered {
    var kept := KeptResults(all, all, context);
    Filtered(Reranked(kept), OrderedUnique(RejectedIds(all, all, context)), FilledMap(IdsOf(kept)))
  }

  /** filter_results_to_context */
  method FilterToContext(all: seq<SearchResult>, context: Context) returns (f: Filtered)
    ensures f == FilterOf(all, context)
  {
    hide SourceId, OriginalId, Citable, Renumbered;
    var allowed: seq<SearchResult>, rejected: seq<Text> := [], [];
    var i := 0;
    while i < |all|
      invariant i <= |all|
      invariant allowed == KeptResults(all, all[..i], context) && rejected == RejectedIds(all, all[..i], context)
    {
      assert all[..i + 1][..i] == all[..i];
      if Citable(all, all[i]) && context(all[i]) {
        allowed := allowed + [all[i]];
      } else {
        rejected := rejected + [OriginalId(all[i])];
      }
      i := i + 1;
    }
    assert all[..i] == all;
    var reranked: seq<SearchResult>, sourceMap: map<Text, Text> := [], map[];
    var n := 0;
    while n < |allowed|
      invariant n <= |allowed|
      invariant reranked == Reranked(allowed)[..n]
      invariant sourceMap == FilledMap(IdsOf(allowed)[..n])
    {
      assert IdsOf(allowed)[..n + 1][..n] == IdsOf(allowed)[..n];
      sourceMap := sourceMap[OriginalId(allowed[n]) := SourceId(n + 1)];
      reranked := reranked + [Renumbered(allowed[n], n + 1)];
      n := n + 1;
    }
    assert IdsOf(allowed)[..n] == IdsOf(allowed) && Reranked(allowed)[..n] == Reranked(allowed);
    f := Filtered(reranked, OrderedUnique(rejected), sourceMap);
  }

  // ----- retrieve_turn -----

  /** Adaptive retrieval, the second evidence check over filtered results, and the verification context. */
  datatype Retrieval = Retrieval(retrieve: Text -> Adaptive, recheck: (Text, seq<SearchResult>, Adaptive) -> EvidenceCheck, context: Context)

  function FilterEntry(f: Filtered): Json {
    JObject(map[RejectedOriginalSourceIds := Texts(f.rejected), SourceIdMap := TextMap(f.sourceMap), ReturnedCount := JInt(|f.results|)])
  }

  /** The retrieval a turn carries: with its evidence checked anew and the filter noted when something was rejected,
      and always with the results of the turn. */
  function StagedAdaptive(retrieval: Retrieval, question: Text): Adaptive {
    var found := retrieval.retrieve(question);
    var f := FilterOf(found.results, retrieval.context);
    if f.rejected == [] then found.(results := f.results)
    else
      found.(results := f.results, evidence := retrieval.recheck(question, f.results, found),
             mergeTrace := found.mergeTrace[EvidenceFilter := FilterEntry(f)])
  }

  function LimitedTerminal(kit: Toolkit, adaptive: Adaptive): TerminalContract {
    if adaptive.results == [] || !adaptive.evidence.sufficient then
      TerminalContract(Some(EvidenceLimited), Some(kit.limitedAnswer(adaptive.evidence)),
                       Some(if adaptive.evidence.missingFacts == [] then InsufficientEvidence else NeedsClarification))
    else NO_TERMINAL
  }

  /** retrieve_turn; None stands for the boundary violation it raises. */
  function RetrieveTurn(kit: Toolkit, retrieval: Retrieval, p: Prepared): Option<Retrieved> {
    var flags := p.analysis.riskFlags;
    if kit.refuses(flags) then
      Some(Retrieved(p, None, [], None, [], map[], TerminalContract(Some(PreRetrievalRefusal), Some(kit.refusalAnswer(flags)), Some(OutOfScope)),
                     kit.boundary))
    else
      var adaptive := StagedAdaptive(retrieval, p.standalone);
      var f := FilterOf(retrieval.retrieve(p.standalone).results, retrieval.context);
      if !kit.matchesBoundary(f.results, kit.boundary) then None
      else Some(Retrieved(p, Some(adaptive), f.results, Some(adaptive.evidence), f.rejected, f.sourceMap, LimitedTerminal(kit, adaptive), kit.boundary))
  }

  // ----- generate_turn -----

  /** What the model answered, NoResponse if neither a text nor an answer; None when the call failed. */
  type Completion = Option<RawResponse>

  /** generate_turn, past the checks of the stage. */
  function GenerateTurn(kit: Toolkit, r: Retrieved, generate: bool, completion: Completion): Option<Generated> {
    if r.terminal.answer.Some? then
      if r.terminal.kind.None? || r.terminal.mode.None? then None
      else Some(Generated(r, r.terminal.kind.value, r.terminal.answer.value.text, r.terminal.answer, None, r.terminal.mode, NoResponse, None))
    else if !generate then Some(Generated(r, RetrievalOnly, kit.retrievalOnlyText(r.results), None, None, None, NoResponse, None))
    else match completion
      case None =>
        Some(Generated(r, GenerationFailed, kit.unavailableAnswer.text, Some(kit.unavailableAnswer), Some(GenerationFailed),
                       Some(InsufficientEvidence), NoResponse, None))
      case Some(raw) =>
        Some(Generated(r, FromModel, kit.parse(raw).text, Some(kit.parse(raw)), None, Some(EvidenceAnswer), raw, Some(ParserVersion)))
  }

  // ----- the filter and the mapping validators -----

  lemma {:induction false} KeptMeans(all: seq<SearchResult>, rest: seq<SearchResult>, context: Context, x: SearchResult)
    ensures x in KeptResults(all, rest, context) <==> x in rest && Citable(all, x) && context(x)
  {
    hide Citable;
    if rest != [] {
      KeptMeans(all, rest[..|rest| - 1], context, x);
      assert x in rest <==> x in rest[..|rest| - 1] || x == rest[|rest| - 1];
    }
  }

  lemma {:induction false} RejectedMeans(all: seq<SearchResult>, rest: seq<SearchResult>, context: Context, id: Text)
    ensures id in RejectedIds(all, rest, context) <==>
            exists i | 0 <= i < |rest| :: !(Citable(all, rest[i]) && context(rest[i])) && OriginalId(rest[i]) == id
  {
    hide Citable, OriginalId;
    if rest != [] {
      var n := |rest| - 1;
      RejectedMeans(all, rest[..n], context, id);
      if i :| 0 <= i < |rest| && !(Citable(all, rest[i]) && context(rest[i])) && OriginalId(rest[i]) == id && i < n {
        assert rest[..n][i] == rest[i];
      }
      if i :| 0 <= i < n && !(Citable(all, rest[..n][i]) && context(rest[..n][i])) && OriginalId(rest[..n][i]) == id {
        assert rest[..n][i] == rest[i];
      }
    }
  }

  lemma {:induction false} UniqueHolds(ids: seq<Text>)
    ensures forall id :: id in OrderedUnique(ids) <==> id in ids
    ensures DistinctTexts(OrderedUnique(ids))
  {
    if ids != [] {
      UniqueHolds(ids[..|ids| - 1]);
      assert forall id :: id in ids <==> id in ids[..|ids| - 1] || id == ids[|ids| - 1];
    }
  }

  lemma {:induction false} UniqueOfDistinct(ids: seq<Text>)
    requires DistinctTexts(ids)
    ensures OrderedUnique(ids) == ids
  {
    if ids != [] {
      UniqueOfDistinct(ids[..|ids| - 1]);
    }
  }

  lemma {:induction false} CountTwice(all: seq<SearchResult>, i: nat, j: nat)
    requires i < j < |all| && OriginalId(all[i]) == OriginalId(all[j])
    ensures CountId(all, OriginalId(all[i])) >= 2
  {
    hide OriginalId;
    var id := OriginalId(all[i]);
    if i == 0 {
      CountFinds(all[1..], id);
      assert OriginalId(all[1..][j - 1]) == id;
    } else {
      CountTwice(all[1..], i - 1, j - 1);
    }
  }

  /** What is kept of the first n results stands in the order it was found, and no ID twice. */
  lemma {:induction false} KeptIdsDiffer(all: seq<SearchResult>, n: nat, context: Context)
    requires n <= |all|
    ensures DistinctTexts(IdsOf(KeptResults(all, all[..n], context)))
  {
    hide Citable, OriginalId;
    if n > 0 {
      KeptIdsDiffer(all, n - 1, context);
      assert all[..n][..n - 1] == all[..n - 1];
      var before, x := KeptResults(all, all[..n - 1], context), all[n - 1];
      if Citable(all, x) && context(x) {
        forall i | 0 <= i < |before| ensures OriginalId(before[i]) != OriginalId(x) {
          KeptMeans(all, all[..n - 1], context, before[i]);
          var m :| 0 <= m < n - 1 && all[..n - 1][m] == before[i];
          IdsOfCitable(all, m, n - 1);
        }
      }
    }
  }

  lemma IdsOfCitable(all: seq<SearchResult>, i: nat, j: nat)
    requires i < |all| && j < |all| && i != j && (Citable(all, all[i]) || Citable(all, all[j]))
    ensures OriginalId(all[i]) != OriginalId(all[j])
  {
    hide OriginalId;
    if OriginalId(all[i]) == OriginalId(all[j]) {
      CountTwice(all, if i < j then i else j, if i < j then j else i);
    }
  }

  lemma {:induction false} FilledHolds(ids: seq<Text>)
    requires DistinctTexts(ids)
    ensures forall id :: id in FilledMap(ids) <==> id in ids
    ensures forall i | 0 <= i < |ids| :: FilledMap(ids)[ids[i]] == SourceId(i + 1)
  {
    hide SourceId;
    if ids != [] {
      var n := |ids| - 1;
      var before := ids[..n];
      FilledHolds(before);
      forall id ensures id in ids <==> id in before || id == ids[n] {
      }
      forall i | 0 <= i < n ensures FilledMap(ids)[ids[i]] == SourceId(i + 1) {
        assert before[i] == ids[i] && ids[i] != ids[n];
      }
    }
  }

  lemma FilledIsRenumbering(ids: seq<Text>)
    requires DistinctTexts(ids)
    ensures FilledMap(ids) == Renumbering(ids)
  {
    hide SourceId, FilledMap, DistinctTexts;
    FilledHolds(ids);
    forall id | id in ids ensures FilledMap(ids)[id] == Renumbering(ids)[id] {
      var i :| 0 <= i < |ids| && ids[i] == id;
    }
  }

  lemma SourceIdIs(n: nat)
    ensures !Blank(SourceId(n)) && (IsSourceId(SourceId(n)) <==> n > 0)
  {
    assert SourceId(n)[0] == LETTER_S;
    var d := Decimal(n);
    assert SourceId(n)[1..] == d;
    if n == 0 { assert d == [DIGIT_ZERO]; }
  }

  lemma KeptIdIsFree(all: seq<SearchResult>, context: Context, x: SearchResult)
    requires x in KeptResults(all, all, context)
    ensures OriginalId(x) !in FilterOf(all, context).rejected && !Blank(OriginalId(x)) && IsSourceId(OriginalId(x))
  {
    hide SourceId, Blank, CountId, IsSourceId;
    KeptMeans(all, all, context, x);
    SourceIdIs(Number(x));
    KeptNotRejected(all, context, x);
    UniqueHolds(RejectedIds(all, all, context));
  }

  lemma RerankedTraces(kept: seq<SearchResult>)
    ensures forall i | 0 <= i < |kept| ::
              && Reranked(kept)[i].rank == i + 1 && EvidenceFilter in Reranked(kept)[i].trace
              && Reranked(kept)[i].trace[EvidenceFilter] == FilterTrace(IdsOf(kept)[i], SourceId(i + 1))
  {
    hide SourceId, FilterTrace;
  }

  /** The kept results are renumbered under distinct positive IDs, none of them rejected. */
  lemma FilterFiles(all: seq<SearchResult>, context: Context)
    ensures var f, ids := FilterOf(all, context), IdsOf(KeptResults(all, all, context));
            && FiledAs(ids, f.results, f.sourceMap, f.rejected)
            && forall i | 0 <= i < |ids| :: IsSourceId(ids[i])
  {
    hide SourceId, Blank, IsSourceId, KeptResults, RejectedIds, OrderedUnique, DistinctTexts, OriginalId, FilterTrace, Renumbered, FilledMap;
    var kept := KeptResults(all, all, context);
    var f, ids := FilterOf(all, context), IdsOf(kept);
    assert all[..|all|] == all;
    KeptIdsDiffer(all, |all|, context);
    FilledIsRenumbering(ids);
    forall i | 0 <= i < |ids| ensures ids[i] !in f.rejected && !Blank(ids[i]) && IsSourceId(ids[i]) {
      KeptIdIsFree(all, context, kept[i]);
    }
    RerankedTraces(kept);
  }

  lemma KeptNotRejected(all: seq<SearchResult>, context: Context, x: SearchResult)
    requires x in KeptResults(all, all, context)
    ensures OriginalId(x) !in RejectedIds(all, all, context)
  {
    hide OriginalId, CountId;
    KeptMeans(all, all, context, x);
    RejectedMeans(all, all, context, OriginalId(x));
    var j :| 0 <= j < |all| && all[j] == x;
    forall i | 0 <= i < |all| && !(Citable(all, all[i]) && context(all[i])) ensures OriginalId(all[i]) != OriginalId(x) {
      if i != j { IdsOfCitable(all, i, j); }
    }
  }

  // ----- is the staged turn accepted? -----

  lemma FilterEntryMatches(f: Filtered, trace: Fields)
    requires NoBlanks(f.sourceMap)
    ensures MergeTraceMatches(trace[EvidenceFilter := FilterEntry(f)], f.sourceMap, f.rejected, |f.results|)
  {
    hide Texts, TextMap, ListOf, TextMapOf;
    TextsRead(f.rejected);
    TextMapRead(f.sourceMap);
    var entry := FilterEntry(f).fields;
    assert entry.Keys == {RejectedOriginalSourceIds, SourceIdMap, ReturnedCount};
  }

  lemma FiledMapIsNamed(ids: seq<Text>, sourceMap: map<Text, Text>)
    requires DistinctTexts(ids) && sourceMap == Renumbering(ids) && forall i | 0 <= i < |ids| :: IsSourceId(ids[i])
    ensures NoBlanks(sourceMap) && forall id | id in sourceMap :: IsSourceId(id) && IsSourceId(sourceMap[id])
  {
    hide SourceId, Blank;
    forall id | id in sourceMap ensures !Blank(id) && !Blank(sourceMap[id]) && IsSourceId(id) && IsSourceId(sourceMap[id]) {
      var i :| 0 <= i < |ids| && ids[i] == id;
      SourceIdIs(i + 1);
      SourceIdNotBlank(id);
    }
  }

  lemma SourceIdNotBlank(id: Text)
    requires IsSourceId(id)
    ensures !Blank(id)
  {
    assert !IsSpace(id[0]);
  }

  predicate RankedInTurn(all: seq<SearchResult>) {
    forall i | 0 <= i < |all| :: all[i].rank == i + 1
  }

  predicate PositiveRanks(all: seq<SearchResult>) {
    forall i | 0 <= i < |all| :: all[i].rank > 0
  }

  lemma RejectedIdsAre(all: seq<SearchResult>, context: Context)
    ensures (forall id | id in FilterOf(all, context).rejected :: IsSourceId(id)) <==> PositiveRanks(all)
  {
    hide SourceId, IsSourceId, CountId;
    var rejected := RejectedIds(all, all, context);
    UniqueHolds(rejected);
    if PositiveRanks(all) {
      forall id | id in rejected ensures IsSourceId(id) {
        RejectedMeans(all, all, context, id);
        var i :| 0 <= i < |all| && OriginalId(all[i]) == id;
        SourceIdIs(Number(all[i]));
      }
    } else {
      var i :| 0 <= i < |all| && all[i].rank <= 0;
      RejectedMeans(all, all, context, OriginalId(all[i]));
      SourceIdIs(Number(all[i]));
      assert OriginalId(all[i]) in FilterOf(all, context).rejected;
    }
  }

  /** With rejected results, the mapping validator accepts what the filter made. */
  lemma ScopeFilteredStaged(all: seq<SearchResult>, context: Context, adaptive: Adaptive)
    requires var f := FilterOf(all, context);
             adaptive.results == f.results && EvidenceFilter in adaptive.mergeTrace && adaptive.mergeTrace[EvidenceFilter] == FilterEntry(f)
    ensures var f := FilterOf(all, context); ScopeFilteredAccepted(adaptive, f.results, f.sourceMap, f.rejected)
  {
    hide FilterOf, FiledAs, MergeTraceMatches, FilterEntry, IsSourceId, NoBlanks;
    var f, ids := FilterOf(all, context), IdsOf(KeptResults(all, all, context));
    FilterFiles(all, context);
    FiledHasMap(ids, f.results, f.sourceMap, f.rejected);
    FiledMapIsNamed(ids, f.sourceMap);
    FilterEntryMatches(f, adaptive.mergeTrace);
    assert adaptive.mergeTrace[EvidenceFilter := FilterEntry(f)] == adaptive.mergeTrace;
    ScopeFilteredSuffices(adaptive, ids, f.results, f.sourceMap, f.rejected);
  }

  lemma FiledHasMap(ids: seq<Text>, results: seq<SearchResult>, sourceMap: map<Text, Text>, rejected: seq<Text>)
    requires FiledAs(ids, results, sourceMap, rejected)
    ensures DistinctTexts(ids) && sourceMap == Renumbering(ids) && |ids| == |results|
    ensures forall i | 0 <= i < |results| ::
              results[i].rank == i + 1 && EvidenceFilter in results[i].trace && results[i].trace[EvidenceFilter] == FilterTrace(ids[i], SourceId(i + 1))
  {
  }

  lemma {:induction false} NothingRejected(all: seq<SearchResult>, rest: seq<SearchResult>, context: Context)
    requires RejectedIds(all, rest, context) == []
    ensures KeptResults(all, rest, context) == rest
  {
    hide Citable, OriginalId;
    if rest != [] {
      NothingRejected(all, rest[..|rest| - 1], context);
    }
  }

  lemma FilterTraceTells(a: Text, b: Text, n: nat)
    requires FilterTrace(a, SourceId(n)) == FilterTrace(b, SourceId(n))
    ensures a == b
  {
    hide SourceId;
    assert FilterTrace(a, SourceId(n)).fields[OriginalSourceId] == JString(a);
    assert FilterTrace(b, SourceId(n)).fields[OriginalSourceId] == JString(b);
  }

  /** Results under these IDs, renumbered, are the same renumbered again exactly when the IDs count from one. */
  lemma RenumberedAgainIff(ids: seq<Text>, results: seq<SearchResult>)
    requires |ids| == |results|
    requires forall i | 0 <= i < |results| ::
               results[i].rank == i + 1 && EvidenceFilter in results[i].trace && results[i].trace[EvidenceFilter] == FilterTrace(ids[i], SourceId(i + 1))
    ensures AllRenumbered(results, results) <==> forall i | 0 <= i < |ids| :: ids[i] == SourceId(i + 1)
  {
    hide SourceId, Renumbered, FilterTrace;
    forall i | 0 <= i < |ids| ensures ids[i] == SourceId(i + 1) <==> results[i] == Renumbered(results[i], i + 1) {
      RenumberedOnceMore(ids[i], results[i], i + 1);
    }
  }

  lemma RenumberedOnceMore(id: Text, x: SearchResult, n: nat)
    requires x.rank == n && EvidenceFilter in x.trace && x.trace[EvidenceFilter] == FilterTrace(id, SourceId(n))
    ensures id == SourceId(n) <==> x == Renumbered(x, n)
  {
    hide SourceId, FilterTrace;
    if id == SourceId(n) {
      assert x.trace[EvidenceFilter := FilterTrace(SourceId(n), SourceId(n))] == x.trace;
    }
    if x == Renumbered(x, n) {
      assert x.trace[EvidenceFilter] == FilterTrace(SourceId(n), SourceId(n));
      FilterTraceTells(id, SourceId(n), n);
    }
  }

  /** Without rejected results, it does so exactly when they came numbered one by one. */
  lemma UnfilteredStagedIff(all: seq<SearchResult>, context: Context)
    requires FilterOf(all, context).rejected == []
    ensures var f := FilterOf(all, context); UnfilteredAccepted(f.results, f.results, f.sourceMap, []) <==> RankedInTurn(all)
  {
    hide UnfilteredAccepted, FilterTrace, SourceId, FiledAs, FilterOf, AllRenumbered, MapsInOrder, OriginalId, Renumbered;
    var f := FilterOf(all, context);
    var ids := IdsOf(all);
    AllKept(all, context);
    FilterFiles(all, context);
    FiledHasMap(ids, f.results, f.sourceMap, f.rejected);
    UnfilteredMeans(f.results, f.results, f.sourceMap);
    RenumberedAgainIff(ids, f.results);
    IdsInTurnIff(all);
    if RankedInTurn(all) {
      InTurn(f.results, ids, f.sourceMap);
    }
  }

  lemma IdsInTurnIff(all: seq<SearchResult>)
    ensures RankedInTurn(all) <==> forall i | 0 <= i < |all| :: IdsOf(all)[i] == SourceId(i + 1)
  {
    hide SourceId;
    forall i | 0 <= i < |all| ensures all[i].rank == i + 1 <==> IdsOf(all)[i] == SourceId(i + 1) {
      if SourceId(Number(all[i])) == SourceId(i + 1) { SourceIdInjective(Number(all[i]), i + 1); }
    }
  }

  lemma InTurn(results: seq<SearchResult>, ids: seq<Text>, sourceMap: map<Text, Text>)
    requires |ids| == |results| && DistinctTexts(ids) && sourceMap == Renumbering(ids)
    requires forall i | 0 <= i < |ids| :: ids[i] == SourceId(i + 1) && results[i].rank == i + 1
    ensures MapsInOrder(results, sourceMap)
  {
    hide SourceId;
    forall i | 0 <= i < |results| ensures OriginalId(results[i]) == ids[i] {
    }
    forall id | id in sourceMap ensures exists i | 0 <= i < |results| :: OriginalId(results[i]) == id {
      var i :| 0 <= i < |ids| && ids[i] == id;
    }
  }

  lemma AllKept(all: seq<SearchResult>, context: Context)
    requires FilterOf(all, context).rejected == []
    ensures KeptResults(all, all, context) == all
    ensures FilterOf(all, context).results == Reranked(all)
  {
    hide KeptResults, RejectedIds;
    UniqueOfNone(RejectedIds(all, all, context));
    NothingRejected(all, all, context);
  }

  // ----- the staged turn as a whole -----

  /** Facts the stage can rely on: both analyses are of one text, nothing retrieved is within any boundary, and
      without a boundary nothing carries a provenance. */
  predicate Settled(kit: Toolkit, retrieval: Retrieval, p: Prepared) {
    var found := retrieval.retrieve(p.standalone);
    && found.analysis == p.analysis && kit.matchesBoundary([], kit.boundary)
    && (kit.boundary.None? ==> NoProvenance(found.results))
  }

  /** Results numbered one by one if all of them may be shown, and with positive ranks otherwise. */
  predicate ProperlyRanked(retrieval: Retrieval, p: Prepared) {
    var all := retrieval.retrieve(p.standalone).results;
    if FilterOf(all, retrieval.context).rejected == [] then RankedInTurn(all) else PositiveRanks(all)
  }

  lemma {:induction false} KeptFrom(all: seq<SearchResult>, rest: seq<SearchResult>, context: Context)
    requires NoProvenance(rest)
    ensures NoProvenance(KeptResults(all, rest, context))
  {
    hide Citable;
    if rest != [] {
      KeptFrom(all, rest[..|rest| - 1], context);
      assert rest[|rest| - 1] in rest;
    }
  }

  lemma FilteredHasNoProvenance(all: seq<SearchResult>, context: Context)
    requires NoProvenance(all)
    ensures NoProvenance(FilterOf(all, context).results)
  {
    hide KeptResults, SourceId, FilterTrace;
    KeptFrom(all, all, context);
    var kept := KeptResults(all, all, context);
    forall x | x in Reranked(kept) ensures x.provenance.None? {
      var i :| 0 <= i < |kept| && Reranked(kept)[i] == x;
      assert kept[i] in kept;
    }
  }

  lemma StagedIdsAccepted(all: seq<SearchResult>, context: Context, r: Retrieved)
    requires var f := FilterOf(all, context); r.rejectedIds == f.rejected && r.sourceMap == f.sourceMap
    ensures SourceIdsAccepted(r) <==> PositiveRanks(all)
  {
    hide FilterOf, FiledAs, IsSourceId, NoBlanks;
    var f, ids := FilterOf(all, context), IdsOf(KeptResults(all, all, context));
    FilterFiles(all, context);
    FiledHasMap(ids, f.results, f.sourceMap, f.rejected);
    FiledMapIsNamed(ids, f.sourceMap);
    RejectedIdsAre(all, context);
    RejectedOnce(all, context);
  }

  lemma RejectedOnce(all: seq<SearchResult>, context: Context)
    ensures OrderedUnique(FilterOf(all, context).rejected) == FilterOf(all, context).rejected
  {
    UniqueHolds(RejectedIds(all, all, context));
    hide OrderedUnique, RejectedIds;
    UniqueOfDistinct(OrderedUnique(RejectedIds(all, all, context)));
  }

  /** Main theorem: the turn that retrieval stages satisfies everything its artifact demands exactly when the
      results came properly ranked, or nothing was retrieved at all because the question is refused. */
  lemma StagedAcceptedIff(kit: Toolkit, retrieval: Retrieval, p: Prepared)
    requires Settled(kit, retrieval, p) && RetrieveTurn(kit, retrieval, p).Some?
    ensures RetrievedAccepted(kit, RetrieveTurn(kit, retrieval, p).value) <==>
            kit.refuses(p.analysis.riskFlags) || ProperlyRanked(retrieval, p)
  {
    hide FilterOf, UnfilteredAccepted, ScopeFilteredAccepted, FilterEntry, SourceIdsAccepted;
    var r := RetrieveTurn(kit, retrieval, p).value;
    if !kit.refuses(p.analysis.riskFlags) {
      var all := retrieval.retrieve(p.standalone).results;
      var f, adaptive := FilterOf(all, retrieval.context), StagedAdaptive(retrieval, p.standalone);
      if kit.boundary.None? { FilteredHasNoProvenance(all, retrieval.context); }
      StagedIdsAccepted(all, retrieval.context, r);
      if f.rejected == [] {
        UnfilteredStagedIff(all, retrieval.context);
      } else {
        ScopeFilteredStaged(all, retrieval.context, adaptive);
      }
    }
  }

  /** So its artifact is written exactly then, once the question and the single results can be. */
  lemma StagedWrittenIff(t: Tools, retrieval: Retrieval, p: Prepared)
    requires Settled(t.kit, retrieval, p) && RetrieveTurn(t.kit, retrieval, p).Some? && EncodePrepared(t.kit, p).Some?
    requires var r := RetrieveTurn(t.kit, retrieval, p).value;
             RetrievedWritable(t.check, r) && Strict(Envelope(RetrievedTurn, RetrievedPayload(r, EncodePrepared(t.kit, p).value)))
    ensures EncodeRetrieved(t, RetrieveTurn(t.kit, retrieval, p).value).Some? <==>
            t.kit.refuses(p.analysis.riskFlags) || ProperlyRanked(retrieval, p)
  {
    hide RetrievedAccepted, RetrievedWritable, EncodePrepared, RetrievedPayload, Strict, ProperlyRanked, StagedAdaptive, FilterOf;
    StagedAcceptedIff(t.kit, retrieval, p);
  }

  lemma KeptNext(all: seq<SearchResult>, n: nat, context: Context)
    requires 0 < n <= |all|
    ensures KeptResults(all, all[..n], context) ==
            KeptResults(all, all[..n - 1], context) + if Citable(all, all[n - 1]) && context(all[n - 1]) then [all[n - 1]] else []
  {
    hide Citable;
    assert all[..n][..n - 1] == all[..n - 1];
  }

  predicate Rising(places: seq<nat>) {
    forall i, j | 0 <= i < j < |places| :: places[i] < places[j]
  }

  /** What is kept of the first n results stands at these places. */
  lemma {:induction false} KeptPlaces(all: seq<SearchResult>, n: nat, context: Context) returns (places: seq<nat>)
    requires n <= |all|
    ensures |places| == |KeptResults(all, all[..n], context)| && Rising(places)
    ensures forall i | 0 <= i < |places| :: places[i] < n && KeptResults(all, all[..n], context)[i] == all[places[i]]
    ensures forall m: nat | m < n :: m in places <==> Citable(all, all[m]) && context(all[m])
  {
    hide Citable, KeptResults;
    places := [];
    if n == 0 {
      assert all[..0] == [];
      NothingKept(all, context);
    } else {
      places := KeptPlaces(all, n - 1, context);
      KeptNext(all, n, context);
      if Citable(all, all[n - 1]) && context(all[n - 1]) {
        places := places + [n - 1];
      }
    }
  }

  lemma NothingKept(all: seq<SearchResult>, context: Context)
    ensures KeptResults(all, [], context) == []
  {
  }

  /** Main theorem: a staged turn shows, in the order they were found and under new numbers, exactly the results that can be
      cited and may be shown; it rejects the IDs of the others; its evidence is checked anew, over the results shown, exactly
      when something was rejected; and it ends there when nothing is left or the evidence does not suffice. */
  lemma StagedMeans(kit: Toolkit, retrieval: Retrieval, p: Prepared) returns (places: seq<nat>)
    requires RetrieveTurn(kit, retrieval, p).Some? && !kit.refuses(p.analysis.riskFlags)
    ensures var r, found := RetrieveTurn(kit, retrieval, p).value, retrieval.retrieve(p.standalone);
            && |r.results| == |places| && Rising(places)
            && (forall i | 0 <= i < |places| :: places[i] < |found.results| && r.results[i] == Renumbered(found.results[places[i]], i + 1))
            && (forall m: nat | m < |found.results| ::
                  m in places <==> Citable(found.results, found.results[m]) && retrieval.context(found.results[m]))
            && (forall id :: id in r.rejectedIds <==> exists m: nat | m < |found.results| :: m !in places && OriginalId(found.results[m]) == id)
            && r.evidence == Some(if r.rejectedIds == [] then found.evidence else retrieval.recheck(p.standalone, r.results, found))
            && r.adaptive.Some? && r.adaptive.value.evidence == r.evidence.value && r.adaptive.value.analysis == found.analysis
            && r.prepared == p && r.boundary == kit.boundary && kit.matchesBoundary(r.results, kit.boundary)
            && (if r.results == [] || !r.evidence.value.sufficient
                then r.terminal == TerminalContract(Some(EvidenceLimited), Some(kit.limitedAnswer(r.evidence.value)),
                                                    Some(LimitedMode(r.evidence.value)))
                else r.terminal == NO_TERMINAL)
  {
    hide Citable, OriginalId, Renumbered, KeptResults, RejectedIds, FilledMap, FilterEntry, OrderedUnique;
    var all := retrieval.retrieve(p.standalone).results;
    assert all[..|all|] == all;
    places := KeptPlaces(all, |all|, retrieval.context);
    UniqueHolds(RejectedIds(all, all, retrieval.context));
    forall id ensures id in RejectedIds(all, all, retrieval.context) <==>
                      exists m: nat | m < |all| :: m !in places && OriginalId(all[m]) == id {
      RejectedMeans(all, all, retrieval.context, id);
    }
  }

  /** What generation makes of a staged turn passes the checks of the stage and of its artifact, and breaks the
      contract of verification in one case only: nothing is left to show although the evidence is sufficient. */
  lemma StagedGenerates(kit: Toolkit, retrieval: Retrieval, p: Prepared, generate: bool, completion: Completion)
    requires Settled(kit, retrieval, p) && RetrieveTurn(kit, retrieval, p).Some?
    ensures var r := RetrieveTurn(kit, retrieval, p).value;
            var generated := GenerateTurn(kit, r, generate, completion);
            && generated.Some? && generated.value.retrieved == r
            && StageProblem(kit, r).None? && GeneratedAccepted(kit, generated.value)
            && (GeneratedContract(kit, generated.value) <==>
                  !(r.adaptive.Some? && r.results == [] && r.adaptive.value.evidence.sufficient))
  {
    hide FilterOf, FilterEntry;
  }

  /** The contract of verification and the checks of the artifacts, written apart, agree on every generated turn
      over an accepted retrieval but for that case. */
  lemma ContractsAgreeIff(kit: Toolkit, g: Generated)
    requires RetrievedAccepted(kit, g.retrieved)
    ensures GeneratedContract(kit, g) <==>
            GeneratedAccepted(kit, g) && (g.kind == EvidenceLimited ==> !g.retrieved.adaptive.value.evidence.sufficient)
  {
    hide SourceIdsAccepted, MappingAccepted;
  }

  /** What every verification repeats of the answer it is of. */
  ghost predicate Reports(kit: Toolkit) {
    forall answer, results, mode, evidence, riskFlags {:trigger kit.verify(answer, results, mode, evidence, riskFlags)} ::
      var v := kit.verify(answer, results, mode, evidence, riskFlags);
      v.actualMode == answer.mode && v.sourceFormat == answer.adapterSource && v.schemaValid == answer.schemaValid
  }

  /** Main theorem: what verify_turn lets through satisfies the checks of its artifact, except where an answer of
      the program itself was exchanged: a terminal answer that failed, so that the safe answer is shown, or the
      apology for a failed generation when it passed and is not the safe answer. */
  lemma VerifiedAcceptedIff(kit: Toolkit, g: Generated)
    requires Reports(kit) && VerifyTurn(kit, g).Ok?
    ensures var r, flags := g.retrieved, g.retrieved.prepared.analysis.riskFlags;
            VerifiedAccepted(kit, VerifyTurn(kit, g).value) <==>
              || g.kind == RetrievalOnly || g.kind == FromModel
              || (g.kind == PreRetrievalRefusal && kit.verify(g.answer.value, [], OutOfScope, None, Some(flags)).passed)
              || (g.kind == EvidenceLimited &&
                  kit.verify(g.answer.value, r.results, g.expectedMode.value, r.evidence, Some(r.adaptive.value.analysis.riskFlags)).passed)
              || (g.kind == GenerationFailed &&
                  (kit.verify(kit.unavailableAnswer, r.results, InsufficientEvidence, None, None).passed ==>
                     kit.unavailableAnswer == kit.safeAnswer(InsufficientEvidence)))
  {
  }
}
