/** What the results of merging plans, and of a follow-up round, are made of (legal_rag/adaptive.py). */
module MergedResults {
  import opened Common
  import opened Strings
  import opened MergePlans
  import opened FollowupMerge

  /** The lists one after the other. */
  function Concat<T>(lists: seq<seq<T>>): seq<T> {
    if lists == [] then [] else lists[0] + Concat(lists[1..])
  }

  lemma {:induction false} ConcatSnoc<T>(lists: seq<seq<T>>)
    requires lists != []
    ensures Concat(lists) == Concat(lists[..|lists| - 1]) + lists[|lists| - 1]
  {
    if |lists| == 1 {
      assert lists[..0] == [] && lists[1..] == [];
    } else {
      ConcatSnoc(lists[1..]);
      assert lists[1..][..|lists| - 2] == lists[..|lists| - 1][1..];
    }
  }

  // ----- what was retrieved -----

  predicate AnswersTo(answers: seq<seq<Hit>>, retrieve: Retriever, queries: seq<string>, k: int) {
    |answers| == |queries| && forall i | 0 <= i < |queries| :: answers[i] == retrieve(queries[i], k)
  }

  lemma {:induction false} GatheredMeans(answers: seq<seq<Hit>>, retrieve: Retriever, queries: seq<string>, k: int)
    requires AnswersTo(answers, retrieve, queries, k)
    ensures Gathered(retrieve, queries, k) == Concat(answers)
    ensures |Counts(retrieve, queries, k)| == |queries|
    ensures forall i | 0 <= i < |queries| :: Counts(retrieve, queries, k)[i] == (queries[i], |answers[i]|)
  {
    if queries != [] {
      var n := |queries| - 1;
      GatheredMeans(answers[..n], retrieve, queries[..n], k);
      ConcatSnoc(answers);
      hide Concat;
    }
  }

  predicate PlanAnswers(answers: seq<seq<Tagged>>, retrieve: Retriever, plans: seq<Plan>) {
    |answers| == |plans| && forall i | 0 <= i < |plans| ::
      && |answers[i]| == |retrieve(plans[i].query, plans[i].topK)|
      && forall j | 0 <= j < |answers[i]| :: answers[i][j] == Tagged(plans[i], retrieve(plans[i].query, plans[i].topK)[j])
  }

  /** What the plans return is, plan by plan, what the retriever returns for the plan's query and limit. */
  lemma {:induction false} RetrievedMeans(answers: seq<seq<Tagged>>, retrieve: Retriever, plans: seq<Plan>)
    requires PlanAnswers(answers, retrieve, plans)
    ensures Retrieved(retrieve, plans) == Concat(answers)
  {
    if plans != [] {
      var n := |plans| - 1;
      RetrievedMeans(answers[..n], retrieve, plans[..n]);
      ConcatSnoc(answers);
      assert TagAll(plans[n], retrieve(plans[n].query, plans[n].topK)) == answers[n];
    }
  }

  // ----- merged hits of plans -----

  /** The sources of a chunk are all hits on it, in order, each with the plan that found it. */
  lemma {:induction false} SourcesMean(xs: seq<Tagged>, id: string, places: seq<nat>)
    requires forall i, j | 0 <= i < j < |places| :: places[i] < places[j]
    requires forall i | 0 <= i < |places| :: places[i] < |xs| && xs[places[i]].hit.chunk.id == id
    requires forall n: nat | n < |xs| && xs[n].hit.chunk.id == id :: n in places
    ensures |SourcesOf(xs, id)| == |places|
    ensures forall i | 0 <= i < |places| ::
              var x := xs[places[i]];
              SourcesOf(xs, id)[i] == Source(x.plan.id, x.plan.query, x.hit.rank, x.hit.score, x.hit.retriever, x.hit.trace)
  {
    if xs != [] {
      var n := |xs| - 1;
      if xs[n].hit.chunk.id == id {
        LastPlace(places, n);
        RestOfPlaces(places, n);
        SourcesMean(xs[..n], id, places[..|places| - 1]);
      } else {
        SourcesMean(xs[..n], id, places);
      }
    } else {
      NoPlaces(places, |xs|);
    }
  }

  lemma NoPlaces(places: seq<nat>, n: nat)
    requires forall i | 0 <= i < |places| :: places[i] < n
    ensures n == 0 ==> places == []
  {
    if places != [] {
      var first := places[0];
    }
  }

  lemma LastPlace(places: seq<nat>, n: nat)
    requires forall i, j | 0 <= i < j < |places| :: places[i] < places[j]
    requires n in places && forall m | m in places :: m <= n
    ensures places != [] && places[|places| - 1] == n
  {
    var i :| 0 <= i < |places| && places[i] == n;
    assert places[|places| - 1] in places;
  }

  lemma RestOfPlaces(places: seq<nat>, n: nat)
    requires forall i, j | 0 <= i < j < |places| :: places[i] < places[j]
    requires places != [] && places[|places| - 1] == n
    ensures forall m: nat :: m in places[..|places| - 1] <==> m in places && m != n
  {
    var rest := places[..|places| - 1];
    forall m: nat | m in places && m != n ensures m in rest {
      var i :| 0 <= i < |places| && places[i] == m;
      assert rest[i] == m;
    }
  }

  /** Main theorem: each merged result is the first best hit on its chunk, under its place, its retriever marked,
      and with all sources of the chunk and their best rank noted in its trace. */
  lemma MergedHitsMean(boundary: Boundary, retrieve: Retriever, plans: seq<Plan>, k: int, i: nat)
    requires MergeOf(boundary, retrieve, plans, k).Ok? && i < |MergeOf(boundary, retrieve, plans, k).value.results|
    ensures var xs, out := Retrieved(retrieve, plans), MergeOf(boundary, retrieve, plans, k).value.results[i];
            exists hit | Keeps(xs, out.chunk.id, hit) ::
              && out.chunk == hit.chunk && out.provenance == hit.provenance && out.score == hit.score && out.rank == i + 1
              && out.retriever == "adaptive_" + hit.retriever
              && out.trace.fingerprint == hit.trace.fingerprint && out.trace.detail == hit.trace.detail && out.trace.followup == hit.trace.followup
              && out.trace.adaptive.Some? && out.trace.adaptive.value.sources == SourcesOf(xs, out.chunk.id)
              && IsBestRank(xs, out.chunk.id, out.trace.adaptive.value.bestRank as real)
  {
    hide Keeps, Retrieved, TableOf, InBounds, AllInBounds, TopKeys, IsBestRank, BestSourceRank, SourcesOf, Mentions, Consistent;
    var xs := Retrieved(retrieve, plans);
    TableMeans(xs);
    TableOfIsFor(xs);
    var t := TableOf(xs).value;
    var out := MergeOf(boundary, retrieve, plans, k).value.results[i];
    var id := TopKeys(t, k)[i].id;
    assert out == MergedHit(t, id, i + 1) && TopKeys(t, k)[i] in TopKeys(t, k);
    KeptHasId(t, xs, id);
    BestSourceRankMeans(xs, id);
    assert t.sources[id] == SourcesOf(xs, id);
  }

  // ----- the order of results -----

  /** Best score first, then the rank it was found with, then the ID. */
  predicate FollowsInRound(a: Hit, b: Hit) {
    a.trace.followup.Some? && b.trace.followup.Some? &&
    var m, n := a.trace.followup.value.originalRank, b.trace.followup.value.originalRank;
    b.score < a.score || (b.score == a.score && (m < n || (m == n && Less(a.chunk.id, b.chunk.id))))
  }

  lemma FollowupsInOrder(initial: seq<Hit>, more: seq<Hit>, k: int, i: nat, j: nat)
    requires FollowupOf(initial, more, k).Ok? && i < j < |FollowupOf(initial, more, k).value|
    ensures FollowsInRound(FollowupOf(initial, more, k).value[i], FollowupOf(initial, more, k).value[j])
  {
    hide FollowupOf, Keeps, Less, Mentions;
    var ranked, kept := FollowupIsTopK(initial, more, k);
    assert Ahead(ranked[i], ranked[j]);
    assert ranked[i] == KeyOfHit(kept[i]) && ranked[j] == KeyOfHit(kept[j]);
  }

  /** Every hit that was not returned on its chunk is at most as good as the returned ones, when the limit was
      reached; otherwise all chunks are returned. */
  lemma FollowupsLeftOut(initial: seq<Hit>, more: seq<Hit>, k: int, hit: Hit)
    requires FollowupOf(initial, more, k).Ok? && hit in initial + more
    ensures var out := FollowupOf(initial, more, k).value;
            || (exists i | 0 <= i < |out| :: out[i].chunk == hit.chunk && out[i].score >= hit.score)
            || (|out| == k && forall i | 0 <= i < |out| :: out[i].score >= hit.score)
  {
    hide FollowupOf, Less;
    var xs := TagAll(NO_PLAN, initial + more);
    var ranked, kept := FollowupIsTopK(initial, more, k);
    var out := FollowupOf(initial, more, k).value;
    var n :| 0 <= n < |initial + more| && (initial + more)[n] == hit;
    assert xs[n].hit == hit && Mentions(xs, hit.chunk.id);
    var p :| 0 <= p < |ranked| && ranked[p].id == hit.chunk.id;
    KeepsIsBest(xs, kept[p], n);
    if p < |out| {
      assert out[p].chunk == kept[p].chunk;
    } else {
      forall i | 0 <= i < |out| ensures out[i].score >= hit.score {
        assert Ahead(ranked[i], ranked[p]);
        assert ranked[i] == KeyOfHit(kept[i]) && ranked[p] == KeyOfHit(kept[p]);
      }
    }
  }

  lemma KeepsIsBest(xs: seq<Tagged>, best: Hit, n: nat)
    requires n < |xs| && Keeps(xs, xs[n].hit.chunk.id, best) && Consistent(xs)
    ensures best.score >= xs[n].hit.score && best.chunk == xs[n].hit.chunk
  {
    var m: nat :| FirstBest(xs, best, m);
    assert m < n ==> SamePayload(xs[m].hit, xs[n].hit);
    assert n < m ==> SamePayload(xs[n].hit, xs[m].hit);
  }

  // ----- the follow-up round -----

  predicate Asks(evidence: Evidence, maxRounds: int) {
    !evidence.sufficient && evidence.stopReason != NeedsClarification && maxRounds > 0 && evidence.queries != []
  }

  /** Main theorem: a round that is asked merges the given results with what every query returned, in query order:
      its results are the first k of their ranking, checked anew, with one count for each query. */
  lemma RoundResults(boundary: Boundary, retrieve: Retriever, check: seq<Hit> -> Evidence, results: seq<Hit>, evidence: Evidence,
                     k: int, maxRounds: int, answers: seq<seq<Hit>>) returns (ranked: seq<Key>, kept: seq<Hit>)
    requires Asks(evidence, maxRounds) && RoundOf(boundary, retrieve, check, results, evidence, k, maxRounds).Ok?
    requires AnswersTo(answers, retrieve, evidence.queries, k)
    ensures var r, all := RoundOf(boundary, retrieve, check, results, evidence, k, maxRounds).value, results + Concat(answers);
            && IsFollowupRanking(TagAll(NO_PLAN, all), ranked, kept)
            && |r.results| == (if |ranked| <= k then |ranked| else k)
            && (forall i | 0 <= i < |r.results| ::
                  r.results[i] == kept[i].(rank := i + 1,
                                           trace := kept[i].trace.(followup := Some(FollowupNote(kept[i].rank, kept[i].retriever)))))
            && |r.counts| == |evidence.queries|
            && (forall i | 0 <= i < |r.counts| :: r.counts[i] == (evidence.queries[i], |retrieve(evidence.queries[i], k)|))
            && r.rounds == 1
            && r.stopReason == (if check(r.results).sufficient then SufficientAfterFollowup else MaxRoundsReached)
            && r.evidence == check(r.results).(stopReason := r.stopReason)
  {
    hide InBounds, FollowupOf, IsFollowupRanking, QueriesInBounds, Consistent;
    GatheredMeans(answers, retrieve, evidence.queries, k);
    ranked, kept := FollowupIsTopK(results, Gathered(retrieve, evidence.queries, k), k);
  }

  /** Main theorem: a round that is not asked changes only the stop reason, which says why it was not. */
  lemma NoRoundReason(boundary: Boundary, retrieve: Retriever, check: seq<Hit> -> Evidence, results: seq<Hit>, evidence: Evidence,
                      k: int, maxRounds: int)
    requires !Asks(evidence, maxRounds) && RoundOf(boundary, retrieve, check, results, evidence, k, maxRounds).Ok?
    ensures var r := RoundOf(boundary, retrieve, check, results, evidence, k, maxRounds).value;
            && r.results == results && r.counts == [] && r.rounds == 0
            && (r.stopReason == Sufficient <==> evidence.sufficient)
            && (r.stopReason == NeedsClarification <==> !evidence.sufficient && evidence.stopReason == NeedsClarification)
            && (r.stopReason == MaxRoundsReached <==>
                  !evidence.sufficient && evidence.stopReason != NeedsClarification && maxRounds <= 0)
            && (r.stopReason == NoFollowupQuery <==>
                  !evidence.sufficient && evidence.stopReason != NeedsClarification && maxRounds > 0 && evidence.queries == [])
            && r.evidence == evidence.(stopReason := r.stopReason)
  {
    hide InBounds;
  }
}
