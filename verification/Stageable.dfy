/** Which turns can arise (legal_rag/chat.py, legal_rag/chat_artifacts.py): the checks of the artifacts against the
    stages of a turn, read backwards.  What a stage makes is accepted; here nothing else is, or it is said what. */
module Stageable {
  import opened Common
  import opened Json
  import opened Turns
  import opened Session
  import opened Codecs
  import opened SourceMaps
  import opened ArtifactChain
  import opened LegacyHashes
  import opened Canonical
  import opened Staging

  // ----- generated turns -----

  ghost predicate Generable(kit: Toolkit, g: Generated) {
    exists generate, completion :: GenerateTurn(kit, g.retrieved, generate, completion) == Some(g)
  }

  /** Main theorem: over an accepted retrieved turn, the checks of the artifact accept exactly what generating, or not
      generating, can make of it. */
  lemma GeneratedAcceptedIff(kit: Toolkit, g: Generated)
    requires RetrievedAccepted(kit, g.retrieved)
    ensures GeneratedAccepted(kit, g) <==> Generable(kit, g)
  {
    hide SourceIdsAccepted, MappingAccepted;
    if GeneratedAccepted(kit, g) {
      var completion := if g.kind == FromModel then Some(g.raw) else None;
      assert GenerateTurn(kit, g.retrieved, g.kind != RetrievalOnly, completion) == Some(g);
    }
  }

  /** A refusal comes before anything is retrieved, a limited answer goes with evidence that does not suffice, and
      anything else that is generated with evidence. */
  predicate EvidenceFits(r: Retrieved, kind: Word) {
    if kind == RetrievalOnly then r.terminal == NO_TERMINAL
    else if kind == PreRetrievalRefusal then
      && r.terminal.kind == Some(kind) && r.terminal.answer.Some? && r.terminal.mode == Some(OutOfScope)
      && r.adaptive == None && r.results == [] && r.evidence == None
    else if kind == EvidenceLimited then
      r.terminal.kind == Some(kind) && r.terminal.answer.Some? && r.adaptive.Some? && r.evidence.Some? && !r.evidence.value.sufficient
    else r.terminal == NO_TERMINAL && r.adaptive.Some? && r.evidence.Some?
  }

  /** The contract of verify_turn is met by exactly what generating can make of a turn whose evidence fits. */
  lemma ContractMeans(kit: Toolkit, g: Generated)
    ensures GeneratedContract(kit, g) <==> Generable(kit, g) && EvidenceFits(g.retrieved, g.kind)
  {
    if GeneratedContract(kit, g) {
      var completion := if g.kind == FromModel then Some(g.raw) else None;
      assert GenerateTurn(kit, g.retrieved, g.kind != RetrievalOnly, completion) == Some(g);
    }
  }

  // ----- numbers of source IDs -----

  predicate Digits(t: Text) {
    forall i | 0 <= i < |t| :: DIGIT_ZERO <= t[i] <= DIGIT_ZERO + 9
  }

  function Value(t: Text): (n: nat)
    requires Digits(t)
  {
    if t == [] then 0 else 10 * Value(t[..|t| - 1]) + (t[|t| - 1] - DIGIT_ZERO)
  }

  lemma {:induction false} ValueSpelled(t: Text)
    requires Digits(t) && t != [] && t[0] != DIGIT_ZERO
    ensures Value(t) > 0 && Decimal(Value(t)) == t
  {
    var init, last := t[..|t| - 1], t[|t| - 1];
    assert t == init + [last];
    if init != [] {
      ValueSpelled(init);
      assert Value(t) / 10 == Value(init) && Value(t) % 10 == last - DIGIT_ZERO;
    } else {
      assert Value(init) == 0;
    }
  }

  function NumberIn(id: Text): (n: nat)
    requires IsSourceId(id)
    ensures n > 0 && SourceId(n) == id
  {
    var digits := id[1..];
    assert Digits(digits);
    ValueSpelled(digits);
    Value(digits)
  }

  // ----- retrieved turns -----

  /** Some retrieval stages this turn. */
  ghost predicate Stageable(kit: Toolkit, r: Retrieved) {
    exists retrieval :: StagedBy(kit, retrieval, r)
  }

  predicate StagedBy(kit: Toolkit, retrieval: Retrieval, r: Retrieved) {
    && Settled(kit, retrieval, r.prepared) && RetrieveTurn(kit, retrieval, r.prepared) == Some(r)
    && (kit.refuses(r.prepared.analysis.riskFlags) || ProperlyRanked(retrieval, r.prepared))
  }

  /** A retrieval that finds this and shows the results with these IDs. */
  function Finding(found: Adaptive, evidence: EvidenceCheck, hidden: seq<Text>): Retrieval {
    Retrieval(_ => found, (_, _, _) => evidence, x => OriginalId(x) !in hidden)
  }

  lemma RefusalIsStaged(kit: Toolkit, r: Retrieved, found: Adaptive)
    requires RetrievedAccepted(kit, r) && StageProblem(kit, r).None? && r.adaptive.None? && kit.matchesBoundary([], kit.boundary)
    requires found.results == [] && found.analysis == r.prepared.analysis
    ensures StagedBy(kit, Finding(found, found.evidence, []), r)
  {
  }

  // ----- nothing was rejected -----

  lemma {:induction false} KeptWhole(all: seq<SearchResult>, rest: seq<SearchResult>, context: Context)
    requires forall x | x in rest :: Citable(all, x) && context(x)
    ensures KeptResults(all, rest, context) == rest && RejectedIds(all, rest, context) == []
  {
    hide Citable, OriginalId;
    if rest != [] {
      assert rest[|rest| - 1] in rest;
      KeptWhole(all, rest[..|rest| - 1], context);
    }
  }

  lemma AllCitable(all: seq<SearchResult>)
    requires DistinctRanks(all) && PositiveRanks(all)
    ensures forall x | x in all :: Citable(all, x)
  {
    DistinctOnce(all);
    hide CountId, OriginalId, DistinctRanks;
  }

  lemma SameRenumbering(results: seq<SearchResult>, sourceMap: map<Text, Text>)
    requires DistinctTexts(IdsOf(results)) && MapsInOrder(results, sourceMap)
    ensures Renumbering(IdsOf(results)) == sourceMap
  {
    hide SourceId, OriginalId, DistinctTexts;
    var ids := IdsOf(results);
    forall id | id in sourceMap ensures id in ids && Renumbering(ids)[id] == sourceMap[id] {
      var i :| 0 <= i < |results| && OriginalId(results[i]) == id;
      assert ids[i] == id;
    }
    forall id | id in ids ensures id in sourceMap {
      var i :| 0 <= i < |ids| && ids[i] == id;
    }
  }

  lemma DistinctIds(results: seq<SearchResult>)
    ensures DistinctRanks(results) <==> DistinctTexts(IdsOf(results))
  {
    hide SourceId;
    forall i, j | 0 <= i < j < |results| ensures Number(results[i]) == Number(results[j]) <==> IdsOf(results)[i] == IdsOf(results)[j] {
      if IdsOf(results)[i] == IdsOf(results)[j] { SourceIdInjective(Number(results[i]), Number(results[j])); }
    }
  }

  lemma UnfilteredIsFilter(results: seq<SearchResult>, sourceMap: map<Text, Text>, context: Context)
    requires UnfilteredAccepted(results, results, sourceMap, []) && forall x | x in results :: context(x)
    ensures FilterOf(results, context) == Filtered(results, [], sourceMap) && RankedInTurn(results)
  {
    hide UnfilteredAccepted, SourceId, DistinctRanks, DistinctTexts, MapsInOrder, Citable, OrderedUnique, KeptResults, RejectedIds, FilledMap,
         OriginalId;
    UnfilteredMeans(results, results, sourceMap);
    forall i | 0 <= i < |results| ensures results[i].rank == i + 1 {
      assert results[i] == Renumbered(results[i], i + 1);
    }
    AllCitable(results);
    KeptWhole(results, results, context);
    DistinctIds(results);
    SameRenumbering(results, sourceMap);
    FilledIsRenumbering(IdsOf(results));
    assert Reranked(results) == results;
    UniqueOfNone([]);
  }

  lemma UnfilteredIsStaged(kit: Toolkit, r: Retrieved)
    requires RetrievedAccepted(kit, r) && StageProblem(kit, r).None? && r.adaptive.Some? && r.rejectedIds == []
    requires kit.matchesBoundary([], kit.boundary)
    ensures StagedBy(kit, Finding(r.adaptive.value, r.adaptive.value.evidence, []), r)
  {
    hide FilterOf, UnfilteredAccepted, ScopeFilteredAccepted, FilterEntry, SourceIdsAccepted, RankedInTurn, PositiveRanks;
    var retrieval := Finding(r.adaptive.value, r.adaptive.value.evidence, []);
    UnfilteredIsFilter(r.results, r.sourceMap, retrieval.context);
    assert retrieval.retrieve(r.prepared.standalone) == r.adaptive.value;
    assert StagedAdaptive(retrieval, r.prepared.standalone) == r.adaptive.value;
  }

  // ----- some results were rejected -----

  /** The results as they were found, under their original numbers. */
  function Originals(results: seq<SearchResult>, ids: seq<Text>): (all: seq<SearchResult>)
    requires |ids| == |results| && forall i | 0 <= i < |ids| :: IsSourceId(ids[i])
    ensures |all| == |results| && forall i | 0 <= i < |all| :: all[i] == results[i].(rank := NumberIn(ids[i]))
  {
    seq(|results|, i requires 0 <= i < |results| => results[i].(rank := NumberIn(ids[i])))
  }

  /** Something that was found under each of these IDs. */
  function Strangers(ids: seq<Text>): (all: seq<SearchResult>)
    requires forall i | 0 <= i < |ids| :: IsSourceId(ids[i])
    ensures |all| == |ids| && forall i | 0 <= i < |all| :: all[i] == SearchResult(JNull, 0.0, NumberIn(ids[i]), [], map[], None)
  {
    seq(|ids|, i requires 0 <= i < |ids| => SearchResult(JNull, 0.0, NumberIn(ids[i]), [], map[], None))
  }

  lemma {:induction false} KeptApart(all: seq<SearchResult>, a: seq<SearchResult>, b: seq<SearchResult>, context: Context)
    requires forall x | x in a :: Citable(all, x) && context(x)
    requires forall x | x in b :: !context(x)
    ensures KeptResults(all, a + b, context) == a && RejectedIds(all, a + b, context) == IdsOf(b)
  {
    hide Citable, OriginalId;
    if b == [] {
      assert a + b == a;
      KeptWhole(all, a, context);
    } else {
      var n := |b| - 1;
      assert (a + b)[..|a + b| - 1] == a + b[..n] && (a + b)[|a + b| - 1] == b[n];
      assert b[n] in b;
      KeptApart(all, a, b[..n], context);
      assert IdsOf(b) == IdsOf(b[..n]) + [OriginalId(b[n])];
    }
  }

  lemma IdsAre(results: seq<SearchResult>, ids: seq<Text>)
    requires |ids| == |results| && forall i | 0 <= i < |ids| :: IsSourceId(ids[i]) && results[i].rank == NumberIn(ids[i])
    ensures IdsOf(results) == ids
  {
    hide SourceId, IsSourceId, NumberIn;
    forall i | 0 <= i < |ids| ensures IdsOf(results)[i] == ids[i] {
    }
  }

  lemma TogetherDistinct(a: seq<SearchResult>, b: seq<SearchResult>)
    requires DistinctTexts(IdsOf(a)) && DistinctTexts(IdsOf(b)) && forall i | 0 <= i < |a| :: OriginalId(a[i]) !in IdsOf(b)
    ensures DistinctRanks(a + b)
  {
    hide SourceId, OriginalId;
    assert IdsOf(a + b) == IdsOf(a) + IdsOf(b);
    assert DistinctTexts(IdsOf(a) + IdsOf(b));
    DistinctIds(a + b);
  }

  /** Numbering the originals anew gives the results back. */
  lemma RenumberedBack(results: seq<SearchResult>, ids: seq<Text>, sourceMap: map<Text, Text>, rejected: seq<Text>)
    requires FiledAs(ids, results, sourceMap, rejected) && forall i | 0 <= i < |ids| :: IsSourceId(ids[i])
    ensures Reranked(Originals(results, ids)) == results
  {
    hide SourceId, FilterTrace, IsSourceId, Blank, NumberIn, DistinctTexts;
    forall i | 0 <= i < |results| ensures Reranked(Originals(results, ids))[i] == results[i] {
      var x := Originals(results, ids)[i];
      assert x.trace[EvidenceFilter := FilterTrace(ids[i], SourceId(i + 1))] == x.trace;
    }
  }

  /** The filter makes the results, the rejected IDs and the source map of what they say was found. */
  lemma FilteredIsFilter(results: seq<SearchResult>, ids: seq<Text>, sourceMap: map<Text, Text>, rejected: seq<Text>)
    requires FiledAs(ids, results, sourceMap, rejected)
    requires forall i | 0 <= i < |ids| :: IsSourceId(ids[i])
    requires OrderedUnique(rejected) == rejected && forall i | 0 <= i < |rejected| :: IsSourceId(rejected[i])
    ensures var all := Originals(results, ids) + Strangers(rejected);
            FilterOf(all, x => OriginalId(x) !in rejected) == Filtered(results, rejected, sourceMap) && PositiveRanks(all)
  {
    hide SourceId, IsSourceId, Blank, NumberIn, Citable, OrderedUnique, KeptResults, RejectedIds, FilledMap, FiledAs, OriginalId, DistinctRanks,
         DistinctTexts, FilterTrace;
    FiledIdsFree(results, ids, sourceMap, rejected);
    var a, b, context := Originals(results, ids), Strangers(rejected), x => OriginalId(x) !in rejected;
    var all := a + b;
    UniqueHolds(rejected);
    IdsAre(a, ids);
    IdsAre(b, rejected);
    TogetherDistinct(a, b);
    AllCitable(all);
    forall x | x in a ensures Citable(all, x) && context(x) {
      var i :| 0 <= i < |a| && a[i] == x;
      assert all[i] == x && IdsOf(a)[i] == OriginalId(x);
    }
    forall x | x in b ensures !context(x) {
      var i :| 0 <= i < |b| && b[i] == x;
      assert IdsOf(b)[i] == OriginalId(x);
    }
    KeptApart(all, a, b, context);
    FilledIsRenumbering(ids);
    RenumberedBack(results, ids, sourceMap, rejected);
  }

  lemma FiledIdsFree(results: seq<SearchResult>, ids: seq<Text>, sourceMap: map<Text, Text>, rejected: seq<Text>)
    requires FiledAs(ids, results, sourceMap, rejected)
    ensures |ids| == |results| && DistinctTexts(ids) && sourceMap == Renumbering(ids) && forall i | 0 <= i < |ids| :: ids[i] !in rejected
  {
    hide FilterTrace, Blank;
  }

  lemma FilterEntryBack(f: Filtered, trace: Fields)
    requires NoBlanks(f.sourceMap) && MergeTraceMatches(trace, f.sourceMap, f.rejected, |f.results|)
    ensures trace[EvidenceFilter] == FilterEntry(f)
  {
    hide Texts, TextMap, ListOf, TextMapOf, NoBlanks;
    var entry := trace[EvidenceFilter].fields;
    TextsBack(entry[RejectedOriginalSourceIds], f.rejected);
    TextMapBack(entry[SourceIdMap], f.sourceMap);
    assert entry == FilterEntry(f).fields;
  }

  /** What was found when these results are left of it. */
  function FoundOf(r: Retrieved, ids: seq<Text>): Adaptive
    requires r.adaptive.Some? && |ids| == |r.results|
    requires (forall i | 0 <= i < |ids| :: IsSourceId(ids[i])) && forall i | 0 <= i < |r.rejectedIds| :: IsSourceId(r.rejectedIds[i])
  {
    r.adaptive.value.(results := Originals(r.results, ids) + Strangers(r.rejectedIds))
  }

  /** The IDs the results were found under are source IDs, like those that were rejected. */
  lemma FiledIdsNamed(r: Retrieved, ids: seq<Text>)
    requires FiledAs(ids, r.results, r.sourceMap, r.rejectedIds) && SourceIdsAccepted(r)
    ensures forall i | 0 <= i < |ids| :: IsSourceId(ids[i])
    ensures OrderedUnique(r.rejectedIds) == r.rejectedIds && forall i | 0 <= i < |r.rejectedIds| :: IsSourceId(r.rejectedIds[i])
    ensures NoBlanks(r.sourceMap)
  {
    FiledIdsFree(r.results, ids, r.sourceMap, r.rejectedIds);
    hide FiledAs, IsSourceId, NoBlanks, DistinctTexts, OrderedUnique;
    forall i | 0 <= i < |ids| ensures IsSourceId(ids[i]) {
      assert ids[i] in r.sourceMap;
    }
    forall i | 0 <= i < |r.rejectedIds| ensures IsSourceId(r.rejectedIds[i]) {
      assert r.rejectedIds[i] in r.rejectedIds;
    }
  }

  lemma FoundWithoutProvenance(results: seq<SearchResult>, ids: seq<Text>, rejected: seq<Text>)
    requires |ids| == |results| && (forall i | 0 <= i < |ids| :: IsSourceId(ids[i])) && forall i | 0 <= i < |rejected| :: IsSourceId(rejected[i])
    requires NoProvenance(results)
    ensures NoProvenance(Originals(results, ids) + Strangers(rejected))
  {
    hide IsSourceId, NumberIn;
    forall x | x in Originals(results, ids) ensures x.provenance.None? {
      var i :| 0 <= i < |results| && Originals(results, ids)[i] == x;
      assert results[i] in results;
    }
  }

  /** An accepted turn is staged by a retrieval whose filter and whose outcome are its own. */
  lemma StagedByOwn(kit: Toolkit, r: Retrieved, retrieval: Retrieval)
    requires RetrievedAccepted(kit, r) && StageProblem(kit, r).None? && r.adaptive.Some? && Settled(kit, retrieval, r.prepared)
    requires var q := r.prepared.standalone;
             && FilterOf(retrieval.retrieve(q).results, retrieval.context) == Filtered(r.results, r.rejectedIds, r.sourceMap)
             && StagedAdaptive(retrieval, q) == r.adaptive.value && ProperlyRanked(retrieval, r.prepared)
    ensures StagedBy(kit, retrieval, r)
  {
    hide FilterOf, StagedAdaptive, ProperlyRanked, Settled, SourceIdsAccepted, MappingAccepted;
  }

  /** Filtering what was found gives the retrieval of the turn. */
  lemma FoundIsFiltered(r: Retrieved, found: Adaptive, evidence: EvidenceCheck, question: Text)
    requires r.adaptive.Some? && r.adaptive.value == found.(results := r.results, evidence := evidence) && r.rejectedIds != []
    requires NoBlanks(r.sourceMap) && MergeTraceMatches(found.mergeTrace, r.sourceMap, r.rejectedIds, |r.results|)
    requires FilterOf(found.results, x => OriginalId(x) !in r.rejectedIds) == Filtered(r.results, r.rejectedIds, r.sourceMap)
    ensures var retrieval := Finding(found, evidence, r.rejectedIds);
            && FilterOf(found.results, retrieval.context) == Filtered(r.results, r.rejectedIds, r.sourceMap)
            && StagedAdaptive(retrieval, question) == r.adaptive.value
  {
    hide FilterOf, FilterEntry, NoBlanks, MergeTraceMatches, OriginalId;
    var retrieval := Finding(found, evidence, r.rejectedIds);
    var f := Filtered(r.results, r.rejectedIds, r.sourceMap);
    FilterEntryBack(f, found.mergeTrace);
    MatchedEntry(found.mergeTrace, f);
    assert found.mergeTrace[EvidenceFilter := FilterEntry(f)] == found.mergeTrace;
  }

  lemma MatchedEntry(trace: Fields, f: Filtered)
    requires MergeTraceMatches(trace, f.sourceMap, f.rejected, |f.results|)
    ensures EvidenceFilter in trace
  {
  }

  lemma FilteredIsStaged(kit: Toolkit, r: Retrieved, ids: seq<Text>)
    requires RetrievedAccepted(kit, r) && StageProblem(kit, r).None? && r.adaptive.Some? && r.rejectedIds != []
    requires kit.matchesBoundary([], kit.boundary) && FiledAs(ids, r.results, r.sourceMap, r.rejectedIds)
    ensures Stageable(kit, r)
  {
    hide FilterOf, UnfilteredAccepted, FilterEntry, SourceIdsAccepted, RankedInTurn, PositiveRanks, IsSourceId, NumberIn, MergeTraceMatches,
         FiledAs, Originals, Strangers, NoBlanks, StagedAdaptive, OriginalId, StagedBy, RetrieveTurn, LimitedTerminal, DistinctTexts, Renumbering;
    FiledIdsNamed(r, ids);
    FiledIdsFree(r.results, ids, r.sourceMap, r.rejectedIds);
    FilteredIsFilter(r.results, ids, r.sourceMap, r.rejectedIds);
    var found, evidence := FoundOf(r, ids), r.adaptive.value.evidence;
    var retrieval := Finding(found, evidence, r.rejectedIds);
    FoundIsFiltered(r, found, evidence, r.prepared.standalone);
    if kit.boundary.None? { FoundWithoutProvenance(r.results, ids, r.rejectedIds); }
    hide RetrievedAccepted;
    assert PositiveRanks(found.results);
    StagedByOwn(kit, r, retrieval);
  }

  /** Main theorem: the checks of its artifact, together with those every stage makes, accept a retrieved turn exactly
      when some retrieval would stage it. */
  lemma RetrievedAcceptedIff(kit: Toolkit, r: Retrieved)
    requires kit.matchesBoundary([], kit.boundary)
    ensures RetrievedAccepted(kit, r) && StageProblem(kit, r).None? <==> Stageable(kit, r)
  {
    if RetrievedAccepted(kit, r) && StageProblem(kit, r).None? {
      AcceptedIsStaged(kit, r);
    }
    hide RetrievedAccepted, RetrieveTurn, ProperlyRanked, Settled, StageProblem;
    if Stageable(kit, r) {
      var retrieval :| StagedBy(kit, retrieval, r);
      StagedAcceptedIff(kit, retrieval, r.prepared);
      StagedGenerates(kit, retrieval, r.prepared, false, None);
    }
  }

  lemma AcceptedIsStaged(kit: Toolkit, r: Retrieved)
    requires RetrievedAccepted(kit, r) && StageProblem(kit, r).None? && kit.matchesBoundary([], kit.boundary)
    ensures Stageable(kit, r)
  {
    hide UnfilteredAccepted, ScopeFilteredAccepted, SourceIdsAccepted, StagedBy, FiledAs, MergeTraceMatches;
    if r.adaptive.None? {
      RefusalIsStaged(kit, r, Adaptive([], r.prepared.analysis, EvidenceCheck(false, [], JNull), map[], JNull));
    } else if r.rejectedIds == [] {
      UnfilteredIsStaged(kit, r);
    } else {
      ScopeFilteredMeans(r.adaptive.value, r.results, r.sourceMap, r.rejectedIds);
      var ids :| FiledAs(ids, r.results, r.sourceMap, r.rejectedIds);
      FilteredIsStaged(kit, r, ids);
    }
  }

  // ----- verified turns -----

  type Verifier = (Answer, seq<SearchResult>, Word, Option<EvidenceCheck>, Option<seq<Text>>) -> Verification

  type Fallback = (Answer, Verification, EvidenceCheck) -> Answer

  /** An answer of the program itself is shown as it is, and for a failed generation the safe one. */
  predicate Unexchanged(kit: Toolkit, v: Verified) {
    && (v.generated.kind == PreRetrievalRefusal || v.generated.kind == EvidenceLimited ==> v.finalAnswer == v.generated.answer)
    && (v.generated.kind == GenerationFailed ==> v.finalAnswer == Some(kit.safeAnswer(InsufficientEvidence)))
  }

  ghost predicate ProducedBy(kit: Toolkit, verify: Verifier, fallback: Fallback, v: Verified) {
    var with := kit.(verify := verify, fallbackAnswer := fallback);
    Reports(with) && VerifyTurn(with, v.generated) == Ok(v) && Unexchanged(kit, v)
  }

  ghost predicate Producible(kit: Toolkit, v: Verified) {
    exists verify, fallback :: ProducedBy(kit, verify, fallback, v)
  }

  /** The verdict on a rejected draft says of the draft whether it fits its schema, as every verdict does. */
  predicate VerdictFitsDraft(v: Verified) {
    v.preFallbackAnswer.Some? && v.preFallbackVerification.Some? ==>
      v.preFallbackVerification.value.schemaValid == v.preFallbackAnswer.value.schemaValid
  }

  /** A verifier that finds what the turn says was found, and rejects everything else. */
  function VerifierOf(v: Verified): Verifier {
    (answer, results, mode, evidence, flags) =>
      if mode == EvidenceAnswer && v.preFallbackVerification.Some? && v.preFallbackAnswer == Some(answer) then v.preFallbackVerification.value
      else if v.verification.Some? && v.finalAnswer == Some(answer) then v.verification.value
      else Verification(false, answer.schemaValid, answer.mode, answer.adapterSource, JNull)
  }

  function FallbackOf(v: Verified): Fallback {
    (answer, verdict, evidence) => if v.finalAnswer.Some? then v.finalAnswer.value else answer
  }

  lemma VerifierReports(kit: Toolkit, v: Verified)
    requires VerifiedAccepted(kit, v) && VerdictFitsDraft(v)
    ensures Reports(kit.(verify := VerifierOf(v), fallbackAnswer := FallbackOf(v)))
  {
  }

  lemma AcceptedIsProduced(kit: Toolkit, v: Verified)
    requires Verifiable(kit, v.generated) && VerifiedAccepted(kit, v) && VerdictFitsDraft(v)
    ensures ProducedBy(kit, VerifierOf(v), FallbackOf(v), v)
  {
    VerifierReports(kit, v);
    hide Reports;
  }

  lemma ProducedIsAccepted(kit: Toolkit, verify: Verifier, fallback: Fallback, v: Verified)
    requires Verifiable(kit, v.generated) && ProducedBy(kit, verify, fallback, v)
    ensures VerifiedAccepted(kit, v) && VerdictFitsDraft(v)
  {
  }

  /** Main theorem: over a generated turn that can be verified, the checks of the artifact accept exactly what some
      verifier and some rule for the fallback would let through without exchanging an answer of the program itself;
      only that a rejected draft fits its schema or not is not compared with the verdict on it. */
  lemma VerifiedAcceptedMeans(kit: Toolkit, v: Verified)
    requires Verifiable(kit, v.generated)
    ensures VerifiedAccepted(kit, v) && VerdictFitsDraft(v) <==> Producible(kit, v)
  {
    if VerifiedAccepted(kit, v) && VerdictFitsDraft(v) {
      AcceptedIsProduced(kit, v);
    }
    hide VerifiedAccepted, VerdictFitsDraft, Verifiable, ProducedBy;
    if Producible(kit, v) {
      var verify, fallback :| ProducedBy(kit, verify, fallback, v);
      ProducedIsAccepted(kit, verify, fallback, v);
    }
  }
}
