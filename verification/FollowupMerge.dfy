/** The one follow-up round and how its results are merged (legal_rag/adaptive.py). */
module FollowupMerge {
  import opened Common
  import opened Strings
  import opened MergePlans

  const NO_PLAN := Plan("", "", 0)

  function FollowupHit(t: Table, id: string, rank: nat): Hit
    requires id in t.kept
  {
    var hit := t.kept[id];
    hit.(rank := rank, trace := hit.trace.(followup := Some(FollowupNote(hit.rank, hit.retriever))))
  }

  function FollowupHits(t: Table, top: seq<Key>): (out: seq<Hit>)
    requires forall k | k in top :: k.id in t.kept
    ensures |out| == |top| && forall i | 0 <= i < |out| :: out[i] == FollowupHit(t, top[i].id, i + 1)
  {
    seq(|top|, i requires 0 <= i < |top| => FollowupHit(t, top[i].id, i + 1))
  }

  function TopFollowups(t: Table, k: nat): (top: seq<Key>)
    requires ForTable(t)
    ensures forall key | key in top :: key.id in t.kept
  {
    SortedAmong(FollowupKeys(t));
    assert forall key | key in FollowupKeys(t) :: key.id in t.order;
    First(Sorted(FollowupKeys(t)), k)
  }

  function FollowupOf(initial: seq<Hit>, more: seq<Hit>, k: int): Result<seq<Hit>, MergeError> {
    if TopKProblem(k).Some? then Err(TopKProblem(k).value)
    else
      var xs := TagAll(NO_PLAN, initial + more);
      TableOfIsFor(xs);
      match TableOf(xs)
      case None => Err(BoundaryViolation)
      case Some(t) => Ok(FollowupHits(t, TopFollowups(t, k)))
  }

  /** merge_followup_results */
  method MergeFollowupResults(initial: seq<Hit>, more: seq<Hit>, k: int) returns (r: Result<seq<Hit>, MergeError>)
    ensures r == FollowupOf(initial, more, k)
  {
    hide TableOf;
    if TopKProblem(k).Some? {
      return Err(TopKProblem(k).value);
    }
    ghost var xs := TagAll(NO_PLAN, initial + more);
    assert [] + xs == xs;
    NothingRetrieved((q, n) => [], []);
    var table := PutHits(NO_PLAN, initial + more, EMPTY, []);
    if table.None? {
      return Err(BoundaryViolation);
    }
    TableOfIsFor(xs);
    r := Ok(FollowupHits(table.value, TopFollowups(table.value, k)));
  }

  // ----- what it means -----

  function KeyOfHit(hit: Hit): Key {
    Key(-hit.score, hit.rank as real, hit.chunk.id)
  }

  ghost predicate IsFollowupRanking(xs: seq<Tagged>, ranked: seq<Key>, kept: seq<Hit>) {
    && InOrder(ranked) && |kept| == |ranked|
    && (forall i | 0 <= i < |ranked| :: Keeps(xs, ranked[i].id, kept[i]) && ranked[i] == KeyOfHit(kept[i]))
    && (forall id | Mentions(xs, id) :: exists i | 0 <= i < |ranked| :: ranked[i].id == id)
  }

  function KeptOf(t: Table, ks: seq<Key>): (hits: seq<Hit>)
    requires forall k | k in ks :: k.id in t.kept
    ensures |hits| == |ks| && forall i | 0 <= i < |ks| :: hits[i] == t.kept[ks[i].id]
  {
    seq(|ks|, i requires 0 <= i < |ks| => t.kept[ks[i].id])
  }

  lemma FollowupKeysSorted(t: Table, xs: seq<Tagged>)
    requires TableFor(t, xs) && ForTable(t)
    ensures InOrder(Sorted(FollowupKeys(t))) && |Sorted(FollowupKeys(t))| == |t.order|
    ensures forall x :: x in Sorted(FollowupKeys(t)) <==> x in FollowupKeys(t)
  {
    hide Mentions, Keeps, SourcesOf, Sorted, InOrder;
    var ks := FollowupKeys(t);
    assert forall i | 0 <= i < |ks| :: ks[i].id == t.order[i];
    SortedMeans(ks);
  }

  lemma FollowupRankingOfTable(t: Table, xs: seq<Tagged>)
    requires TableFor(t, xs) && ForTable(t)
    ensures forall k | k in Sorted(FollowupKeys(t)) :: k.id in t.kept
    ensures IsFollowupRanking(xs, Sorted(FollowupKeys(t)), KeptOf(t, Sorted(FollowupKeys(t))))
  {
    hide Sorted, InOrder, Keeps, Mentions, SourcesOf, DistinctIds;
    FollowupKeysSorted(t, xs);
    var ks, ranked := FollowupKeys(t), Sorted(FollowupKeys(t));
    forall i | 0 <= i < |ranked| ensures ranked[i].id in t.kept && ranked[i] == FollowupKey(t, ranked[i].id) {
      assert ranked[i] in ks;
      var j :| 0 <= j < |ks| && ks[j] == ranked[i];
      assert t.order[j] in t.order;
    }
    var kept := KeptOf(t, ranked);
    forall i | 0 <= i < |ranked| ensures Keeps(xs, ranked[i].id, kept[i]) && ranked[i] == KeyOfHit(kept[i]) {
      KeptHasId(t, xs, ranked[i].id);
    }
    forall id | Mentions(xs, id) ensures exists i | 0 <= i < |ranked| :: ranked[i].id == id {
      assert id in t.order;
      var j :| 0 <= j < |t.order| && t.order[j] == id;
      assert ks[j] in ranked;
    }
    hide TableFor;
  }

  lemma KeptHasId(t: Table, xs: seq<Tagged>, id: string)
    requires TableFor(t, xs) && id in t.kept
    ensures Keeps(xs, id, t.kept[id]) && t.kept[id].chunk.id == id
  {
    hide Mentions, SourcesOf, DistinctIds;
  }

  /** Main theorem: the results are the first k chunks under best score, then the rank of the first hit that
      has it, then ID, and each is that hit under its new place; merging fails exactly on a bad limit or one
      chunk ID with two payloads. */
  lemma FollowupIsTopK(initial: seq<Hit>, more: seq<Hit>, k: int) returns (ranked: seq<Key>, kept: seq<Hit>)
    ensures FollowupOf(initial, more, k).Ok? <==> 0 < k <= MAX_TOP_K && Consistent(TagAll(NO_PLAN, initial + more))
    ensures FollowupOf(initial, more, k).Ok? ==>
              var out := FollowupOf(initial, more, k).value;
              && IsFollowupRanking(TagAll(NO_PLAN, initial + more), ranked, kept)
              && |out| == (if |ranked| <= k then |ranked| else k)
              && forall i | 0 <= i < |out| ::
                   out[i] == kept[i].(rank := i + 1,
                                      trace := kept[i].trace.(followup := Some(FollowupNote(kept[i].rank, kept[i].retriever))))
  {
    var xs := TagAll(NO_PLAN, initial + more);
    TableMeans(xs);
    TableOfIsFor(xs);
    ranked, kept := [], [];
    if FollowupOf(initial, more, k).Ok? {
      var t := TableOf(xs).value;
      FollowupRankingOfTable(t, xs);
      ranked := Sorted(FollowupKeys(t));
      kept := KeptOf(t, ranked);
      hide TableFor, TableOf, Sorted, IsFollowupRanking, Consistent;
    }
    hide TableFor, TableOf, Consistent;
  }

  // ----- when the order of the hits matters -----

  /** The ranking behind the results, before the limit; nothing when the hits conflict. */
  function RankingOf(hits: seq<Hit>): seq<Key> {
    var xs := TagAll(NO_PLAN, hits);
    TableOfIsFor(xs);
    match TableOf(xs)
    case None => []
    case Some(t) => Sorted(FollowupKeys(t))
  }

  lemma RankingMeans(hits: seq<Hit>) returns (kept: seq<Hit>)
    requires Consistent(TagAll(NO_PLAN, hits))
    ensures IsFollowupRanking(TagAll(NO_PLAN, hits), RankingOf(hits), kept)
  {
    var xs := TagAll(NO_PLAN, hits);
    TableMeans(xs);
    TableOfIsFor(xs);
    var t := TableOf(xs).value;
    FollowupRankingOfTable(t, xs);
    kept := KeptOf(t, Sorted(FollowupKeys(t)));
    hide TableFor, TableOf, Sorted, IsFollowupRanking, Consistent;
  }

  /** No hit on the same chunk scores higher. */
  predicate IsTop(hits: seq<Hit>, i: nat)
    requires i < |hits|
  {
    forall j | 0 <= j < |hits| && hits[j].chunk.id == hits[i].chunk.id :: hits[j].score <= hits[i].score
  }

  /** The hits that tie for the best score of a chunk share their rank. */
  predicate TiesShareRank(hits: seq<Hit>) {
    forall i: nat, j: nat | i < |hits| && j < |hits| && hits[i].chunk.id == hits[j].chunk.id && IsTop(hits, i) && IsTop(hits, j) ::
      hits[i].rank == hits[j].rank
  }

  lemma SameMultisetSameHits(hits: seq<Hit>, others: seq<Hit>)
    requires multiset(hits) == multiset(others)
    ensures SameHits(TagAll(NO_PLAN, hits), TagAll(NO_PLAN, others))
  {
    var xs, ys := TagAll(NO_PLAN, hits), TagAll(NO_PLAN, others);
    forall hit ensures HitIn(xs, hit) <==> HitIn(ys, hit) {
      if HitIn(xs, hit) { InOther(hits, others, hit); }
      if HitIn(ys, hit) { InOther(others, hits, hit); }
    }
  }

  lemma InOther(hits: seq<Hit>, others: seq<Hit>, hit: Hit)
    requires multiset(hits) == multiset(others) && HitIn(TagAll(NO_PLAN, hits), hit)
    ensures HitIn(TagAll(NO_PLAN, others), hit)
  {
    var i :| 0 <= i < |hits| && TagAll(NO_PLAN, hits)[i].hit == hit;
    assert hit in multiset(others);
    var j :| 0 <= j < |others| && others[j] == hit;
    assert TagAll(NO_PLAN, others)[j].hit == hit;
  }

  lemma KeepsOne(xs: seq<Tagged>, id: string, a: Hit, b: Hit)
    requires Keeps(xs, id, a) && Keeps(xs, id, b)
    ensures a == b
  {
    var i: nat :| FirstBest(xs, a, i);
    var j: nat :| FirstBest(xs, b, j);
    assert i == j;
  }

  /** A kept hit is one of those with the best score. */
  lemma KeptIsTop(hits: seq<Hit>, id: string, hit: Hit) returns (i: nat)
    requires Keeps(TagAll(NO_PLAN, hits), id, hit)
    ensures i < |hits| && hits[i] == hit && IsTop(hits, i)
  {
    var xs := TagAll(NO_PLAN, hits);
    i :| FirstBest(xs, hit, i);
    forall j | 0 <= j < |hits| && hits[j].chunk.id == hits[i].chunk.id ensures hits[j].score <= hits[i].score {
      assert xs[j].hit == hits[j];
    }
  }

  lemma KeptKey(hits: seq<Hit>, others: seq<Hit>, id: string, a: Hit, b: Hit)
    requires multiset(hits) == multiset(others) && TiesShareRank(hits)
    requires Keeps(TagAll(NO_PLAN, hits), id, a) && Keeps(TagAll(NO_PLAN, others), id, b)
    ensures KeyOfHit(a) == KeyOfHit(b)
  {
    var i := KeptIsTop(hits, id, a);
    var j := KeptIsTop(others, id, b);
    assert b in multiset(hits) && a in multiset(others);
    var k :| 0 <= k < |hits| && hits[k] == b;
    var l :| 0 <= l < |others| && others[l] == a;
    assert b.score <= a.score && a.score <= b.score;
    assert IsTop(hits, k);
  }

  lemma RankedAlike(hits: seq<Hit>, others: seq<Hit>, kept: seq<Hit>, rest: seq<Hit>, i: nat)
    requires multiset(hits) == multiset(others) && TiesShareRank(hits)
    requires IsFollowupRanking(TagAll(NO_PLAN, hits), RankingOf(hits), kept)
    requires IsFollowupRanking(TagAll(NO_PLAN, others), RankingOf(others), rest) && i < |RankingOf(hits)|
    ensures RankingOf(hits)[i] in RankingOf(others)
  {
    hide RankingOf, TiesShareRank;
    var xs, ys, a, b := TagAll(NO_PLAN, hits), TagAll(NO_PLAN, others), RankingOf(hits), RankingOf(others);
    var id := a[i].id;
    KeepsMentions(xs, id, kept[i]);
    SameMultisetSameHits(hits, others);
    SameHitsMention(xs, ys, id);
    var j :| 0 <= j < |b| && b[j].id == id;
    KeptKey(hits, others, id, kept[i], rest[j]);
    assert b[j] in b;
  }

  lemma KeepsMentions(xs: seq<Tagged>, id: string, hit: Hit)
    requires Keeps(xs, id, hit)
    ensures Mentions(xs, id)
  {
    var i: nat :| FirstBest(xs, hit, i);
    assert xs[i].hit.chunk.id == id;
  }

  lemma SameHitsMention(xs: seq<Tagged>, ys: seq<Tagged>, id: string)
    requires SameHits(xs, ys) && Mentions(xs, id)
    ensures Mentions(ys, id)
  {
    var i :| 0 <= i < |xs| && xs[i].hit.chunk.id == id;
    var j := SameHitsFind(xs, ys, i);
  }

  lemma TiesAnyOrder(hits: seq<Hit>, others: seq<Hit>)
    requires multiset(hits) == multiset(others) && TiesShareRank(hits)
    ensures TiesShareRank(others)
  {
    forall i: nat, j: nat | i < |others| && j < |others| && others[i].chunk.id == others[j].chunk.id && IsTop(others, i) && IsTop(others, j)
      ensures others[i].rank == others[j].rank
    {
      var a := TopElsewhere(others, hits, i);
      var b := TopElsewhere(others, hits, j);
    }
  }

  lemma TopElsewhere(hits: seq<Hit>, others: seq<Hit>, i: nat) returns (j: nat)
    requires multiset(hits) == multiset(others) && i < |hits| && IsTop(hits, i)
    ensures j < |others| && others[j] == hits[i] && IsTop(others, j)
  {
    assert hits[i] in multiset(others);
    j :| 0 <= j < |others| && others[j] == hits[i];
    forall k | 0 <= k < |others| && others[k].chunk.id == others[j].chunk.id ensures others[k].score <= others[j].score {
      assert others[k] in multiset(hits);
      var l :| 0 <= l < |hits| && hits[l] == others[k];
    }
  }

  lemma AnyOrderConsistent(hits: seq<Hit>, others: seq<Hit>)
    requires multiset(hits) == multiset(others)
    ensures Consistent(TagAll(NO_PLAN, hits)) <==> Consistent(TagAll(NO_PLAN, others))
  {
    hide Consistent, SameHits;
    SameMultisetSameHits(hits, others);
    SameMultisetSameHits(others, hits);
    if Consistent(TagAll(NO_PLAN, hits)) { SameHitsConsistent(TagAll(NO_PLAN, hits), TagAll(NO_PLAN, others)); }
    if Consistent(TagAll(NO_PLAN, others)) { SameHitsConsistent(TagAll(NO_PLAN, others), TagAll(NO_PLAN, hits)); }
  }

  /** When the ties share their ranks, every order of the hits gives the same ranking. */
  lemma SharedRanksSameRanking(hits: seq<Hit>, others: seq<Hit>)
    requires multiset(hits) == multiset(others) && TiesShareRank(hits) && Consistent(TagAll(NO_PLAN, hits))
    ensures RankingOf(others) == RankingOf(hits)
  {
    hide RankingOf, TiesShareRank, Consistent;
    AnyOrderConsistent(hits, others);
    TiesAnyOrder(hits, others);
    var kept := RankingMeans(hits);
    var rest := RankingMeans(others);
    var a, b := RankingOf(hits), RankingOf(others);
    forall x ensures x in a <==> x in b {
      if x in a {
        var i :| 0 <= i < |a| && a[i] == x;
        RankedAlike(hits, others, kept, rest, i);
      }
      if x in b {
        var i :| 0 <= i < |b| && b[i] == x;
        RankedAlike(others, hits, rest, kept, i);
      }
    }
    hide IsFollowupRanking;
    assert InOrder(a) && InOrder(b) by { RankingInOrder(hits, kept); RankingInOrder(others, rest); }
    OrderIsUnique(a, b);
  }

  lemma RankingInOrder(hits: seq<Hit>, kept: seq<Hit>)
    requires IsFollowupRanking(TagAll(NO_PLAN, hits), RankingOf(hits), kept)
    ensures InOrder(RankingOf(hits))
  {
  }

  /** The m-th hit moved to the front. */
  function Fronted(hits: seq<Hit>, m: nat): seq<Hit>
    requires m < |hits|
  {
    [hits[m]] + (hits[..m] + hits[m + 1..])
  }

  lemma FrontedPermutes(hits: seq<Hit>, m: nat)
    requires m < |hits|
    ensures multiset(Fronted(hits, m)) == multiset(hits)
  {
    var l, h, r := hits[..m], [hits[m]], hits[m + 1..];
    assert hits == l + (h + r);
    assert multiset(l + (h + r)) == multiset(l) + (multiset(h) + multiset(r));
    assert multiset(h + (l + r)) == multiset(h) + (multiset(l) + multiset(r));
  }

  /** In front, a hit with its chunk's best score is the one that is kept. */
  lemma FrontedIsKept(hits: seq<Hit>, m: nat)
    requires m < |hits| && IsTop(hits, m)
    ensures Keeps(TagAll(NO_PLAN, Fronted(hits, m)), hits[m].chunk.id, hits[m])
  {
    var others := Fronted(hits, m);
    var ys := TagAll(NO_PLAN, others);
    FrontedPermutes(hits, m);
    forall j | 0 <= j < |ys| && ys[j].hit.chunk.id == hits[m].chunk.id ensures ys[j].hit.score <= hits[m].score {
      assert others[j] in multiset(hits);
      var l :| 0 <= l < |hits| && hits[l] == others[j];
    }
    assert FirstBest(ys, hits[m], 0);
  }

  /** Two orders that keep hits of different rank for one chunk have different rankings. */
  lemma OtherKeptOtherRanking(hits: seq<Hit>, others: seq<Hit>, a: Hit, b: Hit)
    requires Consistent(TagAll(NO_PLAN, hits)) && Consistent(TagAll(NO_PLAN, others)) && a.chunk.id == b.chunk.id && a.rank != b.rank
    requires Keeps(TagAll(NO_PLAN, hits), a.chunk.id, a) && Keeps(TagAll(NO_PLAN, others), b.chunk.id, b)
    ensures RankingOf(others) != RankingOf(hits)
  {
    hide RankingOf, Consistent, InOrder, Keeps, Mentions;
    var id, xs, ys := a.chunk.id, TagAll(NO_PLAN, hits), TagAll(NO_PLAN, others);
    var kept := RankingMeans(hits);
    var rest := RankingMeans(others);
    KeepsMentions(xs, id, a);
    var p :| 0 <= p < |RankingOf(hits)| && RankingOf(hits)[p].id == id;
    KeepsOne(xs, id, a, kept[p]);
    if RankingOf(others) == RankingOf(hits) {
      KeepsOne(ys, id, b, rest[p]);
    }
  }

  lemma FrontsRankApart(hits: seq<Hit>, i: nat, j: nat)
    requires Consistent(TagAll(NO_PLAN, hits)) && i < |hits| && j < |hits| && hits[i].chunk.id == hits[j].chunk.id
    requires IsTop(hits, i) && IsTop(hits, j) && hits[i].rank != hits[j].rank
    ensures RankingOf(Fronted(hits, i)) != RankingOf(Fronted(hits, j))
    ensures multiset(Fronted(hits, i)) == multiset(hits) == multiset(Fronted(hits, j))
  {
    hide RankingOf, Consistent, Keeps, Fronted, IsTop;
    FrontedPermutes(hits, i);
    FrontedPermutes(hits, j);
    FrontedIsKept(hits, i);
    FrontedIsKept(hits, j);
    AnyOrderConsistent(hits, Fronted(hits, i));
    AnyOrderConsistent(hits, Fronted(hits, j));
    OtherKeptOtherRanking(Fronted(hits, i), Fronted(hits, j), hits[i], hits[j]);
  }

  /** Ties of different rank: putting one of them in front changes the ranking. */
  lemma DifferentRanksDifferentRanking(hits: seq<Hit>) returns (others: seq<Hit>)
    requires Consistent(TagAll(NO_PLAN, hits)) && !TiesShareRank(hits)
    ensures multiset(others) == multiset(hits) && RankingOf(others) != RankingOf(hits)
  {
    hide RankingOf, Consistent, Fronted, IsTop;
    var i: nat, j: nat :| i < |hits| && j < |hits| && hits[i].chunk.id == hits[j].chunk.id && IsTop(hits, i) && IsTop(hits, j) &&
      hits[i].rank != hits[j].rank;
    FrontsRankApart(hits, i, j);
    others := if RankingOf(Fronted(hits, i)) != RankingOf(hits) then Fronted(hits, i) else Fronted(hits, j);
  }

  ghost predicate RankingIgnoresOrder(hits: seq<Hit>) {
    forall others: seq<Hit> | multiset(others) == multiset(hits) :: RankingOf(others) == RankingOf(hits)
  }

  /** Main theorem: the ranking is the same for every order of the hits exactly when hits that tie for the best
      score of a chunk share their rank. */
  lemma RankingIgnoresOrderIff(hits: seq<Hit>)
    requires Consistent(TagAll(NO_PLAN, hits))
    ensures RankingIgnoresOrder(hits) <==> TiesShareRank(hits)
  {
    hide RankingOf, TiesShareRank, Consistent;
    if TiesShareRank(hits) {
      forall others: seq<Hit> | multiset(others) == multiset(hits) ensures RankingOf(others) == RankingOf(hits) {
        SharedRanksSameRanking(hits, others);
      }
    } else {
      var others := DifferentRanksDifferentRanking(hits);
    }
  }

  // ----- the same, seen on the results -----

  /** What a result says but for what its trace and retriever add: chunk, payload, score, place and the rank it
      was found with. */
  datatype Seen = Seen(line: Line, originalRank: Option<int>)

  function SeenHit(hit: Hit): Seen {
    Seen(Line(hit.chunk, hit.provenance, hit.score, hit.rank),
         match hit.trace.followup case None => None case Some(note) => Some(note.originalRank))
  }

  function SeenHits(hits: seq<Hit>): (seen: seq<Seen>)
    ensures |seen| == |hits| && forall i | 0 <= i < |hits| :: seen[i] == SeenHit(hits[i])
  {
    seq(|hits|, i requires 0 <= i < |hits| => SeenHit(hits[i]))
  }

  function SeenOf(r: Result<seq<Hit>, MergeError>): Result<seq<Seen>, MergeError> {
    match r
    case Ok(hits) => Ok(SeenHits(hits))
    case Err(e) => Err(e)
  }

  lemma HitsFollowTable(t: Table, k: nat)
    requires ForTable(t) && forall key | key in Sorted(FollowupKeys(t)) :: key.id in t.kept
    ensures var ranked, out := Sorted(FollowupKeys(t)), FollowupHits(t, TopFollowups(t, k));
            && |out| == (if |ranked| <= k then |ranked| else k)
            && forall i | 0 <= i < |out| ::
                 var hit := KeptOf(t, ranked)[i];
                 SeenHit(out[i]) == Seen(Line(hit.chunk, hit.provenance, hit.score, i + 1), Some(hit.rank))
  {
    hide Sorted;
  }

  lemma RankingOfTable(hits: seq<Hit>) returns (t: Table)
    requires Consistent(TagAll(NO_PLAN, hits))
    ensures TableOf(TagAll(NO_PLAN, hits)) == Some(t) && TableFor(t, TagAll(NO_PLAN, hits)) && ForTable(t)
    ensures RankingOf(hits) == Sorted(FollowupKeys(t))
  {
    hide Consistent, TableOf, TableFor, Sorted;
    TableMeans(TagAll(NO_PLAN, hits));
    TableOfIsFor(TagAll(NO_PLAN, hits));
    t := TableOf(TagAll(NO_PLAN, hits)).value;
  }

  lemma FollowupOfTable(initial: seq<Hit>, more: seq<Hit>, k: int, t: Table)
    requires 0 < k <= MAX_TOP_K && TableOf(TagAll(NO_PLAN, initial + more)) == Some(t) && ForTable(t)
    ensures FollowupOf(initial, more, k) == Ok(FollowupHits(t, TopFollowups(t, k)))
  {
    hide TableOf, ForTable, TopFollowups, FollowupHits;
  }

  /** The i-th result under any limit is the hit kept for the i-th key. */
  lemma ResultsFollowRanking(initial: seq<Hit>, more: seq<Hit>, k: int) returns (kept: seq<Hit>)
    requires 0 < k <= MAX_TOP_K && Consistent(TagAll(NO_PLAN, initial + more))
    ensures FollowupOf(initial, more, k).Ok?
    ensures var ranked, out := RankingOf(initial + more), FollowupOf(initial, more, k).value;
            && IsFollowupRanking(TagAll(NO_PLAN, initial + more), ranked, kept)
            && |out| == (if |ranked| <= k then |ranked| else k)
            && forall i | 0 <= i < |out| ::
                 SeenHit(out[i]) == Seen(Line(kept[i].chunk, kept[i].provenance, kept[i].score, i + 1), Some(kept[i].rank))
  {
    hide TableFor, TableOf, Sorted, IsFollowupRanking, Consistent, FollowupOf, RankingOf, FollowupHits, TopFollowups, FollowupKeys, SeenHit;
    var t := RankingOfTable(initial + more);
    FollowupOfTable(initial, more, k, t);
    FollowupRankingOfTable(t, TagAll(NO_PLAN, initial + more));
    kept := KeptOf(t, RankingOf(initial + more));
    HitsFollowTable(t, k);
  }

  lemma KeptSamePayload(hits: seq<Hit>, others: seq<Hit>, id: string, a: Hit, b: Hit)
    requires multiset(hits) == multiset(others) && Consistent(TagAll(NO_PLAN, hits))
    requires Keeps(TagAll(NO_PLAN, hits), id, a) && Keeps(TagAll(NO_PLAN, others), id, b)
    ensures SamePayload(a, b)
  {
    var xs, ys := TagAll(NO_PLAN, hits), TagAll(NO_PLAN, others);
    var i: nat :| FirstBest(xs, a, i);
    var j: nat :| FirstBest(ys, b, j);
    assert xs[i].hit == a && ys[j].hit == b;
    assert HitIn(xs, a) && HitIn(ys, b);
    SameMultisetSameHits(hits, others);
    hide FirstBest, SameHits, Consistent;
    PayloadDetermined(xs, ys, a, b);
  }

  /** When the ties share their ranks, no order of the hits changes what any limit returns. */
  lemma SharedRanksSameResults(initial: seq<Hit>, more: seq<Hit>, first: seq<Hit>, rest: seq<Hit>, k: int)
    requires multiset(first + rest) == multiset(initial + more)
    requires Consistent(TagAll(NO_PLAN, initial + more)) ==> TiesShareRank(initial + more)
    ensures SeenOf(FollowupOf(first, rest, k)) == SeenOf(FollowupOf(initial, more, k))
  {
    hide RankingOf, TiesShareRank, Consistent, FollowupOf;
    FollowupErrorIs(initial, more, k);
    FollowupErrorIs(first, rest, k);
    AnyOrderConsistent(initial + more, first + rest);
    if 0 < k <= MAX_TOP_K && Consistent(TagAll(NO_PLAN, initial + more)) {
      SharedRanksSameRanking(initial + more, first + rest);
      var a := ResultsFollowRanking(initial, more, k);
      var b := ResultsFollowRanking(first, rest, k);
      var p, q := FollowupOf(initial, more, k).value, FollowupOf(first, rest, k).value;
      forall i | 0 <= i < |p| ensures SeenHit(p[i]) == SeenHit(q[i]) {
        KeptSamePayload(initial + more, first + rest, RankingOf(initial + more)[i].id, a[i], b[i]);
      }
      assert SeenHits(p) == SeenHits(q);
    }
  }

  lemma FollowupErrorIs(initial: seq<Hit>, more: seq<Hit>, k: int)
    ensures FollowupOf(initial, more, k).Ok? <==> 0 < k <= MAX_TOP_K && Consistent(TagAll(NO_PLAN, initial + more))
    ensures FollowupOf(initial, more, k).Err? ==>
              FollowupOf(initial, more, k).error == if 0 < k <= MAX_TOP_K then BoundaryViolation else BadTopK
  {
    TableMeans(TagAll(NO_PLAN, initial + more));
    hide TableOf, Consistent, TableFor;
  }

  lemma RankedIdsDiffer(xs: seq<Tagged>, ranked: seq<Key>, kept: seq<Hit>, i: nat, j: nat)
    requires IsFollowupRanking(xs, ranked, kept) && i < j < |ranked|
    ensures ranked[i].id != ranked[j].id
  {
    hide Keeps;
    AheadIsOrder(ranked[i], ranked[j], ranked[j]);
    if ranked[i].id == ranked[j].id {
      KeepsOne(xs, ranked[i].id, kept[i], kept[j]);
    }
  }

  /** What a limit that reaches all chunks shows gives back the ranking. */
  lemma SeenTellsRanking(hits: seq<Hit>, others: seq<Hit>)
    requires multiset(others) == multiset(hits) && Consistent(TagAll(NO_PLAN, hits)) && 0 < |RankingOf(hits)| <= MAX_TOP_K
    requires SeenOf(FollowupOf(others, [], |RankingOf(hits)|)) == SeenOf(FollowupOf(hits, [], |RankingOf(hits)|))
    ensures RankingOf(others) == RankingOf(hits)
  {
    assert hits + [] == hits && others + [] == others;
    hide RankingOf, Consistent, FollowupOf, Keeps, InOrder, Mentions, SameHits;
    AnyOrderConsistent(hits, others);
    var a, b := RankingOf(hits), RankingOf(others);
    var k := |a|;
    var kept := ResultsFollowRanking(hits, [], k);
    var rest := ResultsFollowRanking(others, [], k);
    var p, q := FollowupOf(hits, [], k).value, FollowupOf(others, [], k).value;
    assert SeenHits(p) == SeenHits(q);
    forall i | 0 <= i < k ensures i < |b| && a[i] == b[i] {
      assert SeenHits(p)[i] == SeenHits(q)[i];
      KeptHasKey(TagAll(NO_PLAN, hits), a, kept, i);
      KeptHasKey(TagAll(NO_PLAN, others), b, rest, i);
    }
    if k < |b| {
      var xs, ys := TagAll(NO_PLAN, hits), TagAll(NO_PLAN, others);
      KeepsMentions(ys, b[k].id, rest[k]);
      SameMultisetSameHits(others, hits);
      SameHitsMention(ys, xs, b[k].id);
      var i :| 0 <= i < k && a[i].id == b[k].id;
      RankedIdsDiffer(ys, b, rest, i, k);
    }
  }

  lemma KeptHasKey(xs: seq<Tagged>, ranked: seq<Key>, kept: seq<Hit>, i: nat)
    requires IsFollowupRanking(xs, ranked, kept) && i < |ranked|
    ensures ranked[i] == Key(-kept[i].score, kept[i].rank as real, kept[i].chunk.id)
  {
  }

  /** Every order of the hits, however split into first and further ones, gives results that look the same
      under every limit, or the same error. */
  ghost predicate ResultsIgnoreOrder(initial: seq<Hit>, more: seq<Hit>) {
    forall first: seq<Hit>, rest: seq<Hit>, k: int | multiset(first + rest) == multiset(initial + more) ::
      SeenOf(FollowupOf(first, rest, k)) == SeenOf(FollowupOf(initial, more, k))
  }

  lemma FollowupOfJoined(initial: seq<Hit>, more: seq<Hit>, k: int)
    ensures FollowupOf(initial + more, [], k) == FollowupOf(initial, more, k)
  {
    assert (initial + more) + [] == initial + more;
  }

  /** Main theorem: as long as some limit reaches all chunks, the results are the same for every order of the
      hits exactly when merging fails on two payloads anyway, or hits that tie for the best score of a chunk
      share their rank. */
  lemma ResultsIgnoreOrderIff(initial: seq<Hit>, more: seq<Hit>)
    requires |RankingOf(initial + more)| <= MAX_TOP_K
    ensures ResultsIgnoreOrder(initial, more) <==>
            (Consistent(TagAll(NO_PLAN, initial + more)) ==> TiesShareRank(initial + more))
  {
    hide RankingOf, TiesShareRank, Consistent, FollowupOf, SeenOf;
    var hits := initial + more;
    if Consistent(TagAll(NO_PLAN, hits)) ==> TiesShareRank(hits) {
      forall first: seq<Hit>, rest: seq<Hit>, k: int | multiset(first + rest) == multiset(initial + more)
        ensures SeenOf(FollowupOf(first, rest, k)) == SeenOf(FollowupOf(initial, more, k))
      {
        SharedRanksSameResults(initial, more, first, rest, k);
      }
    } else {
      var others := DifferentRanksDifferentRanking(hits);
      var k := |RankingOf(hits)|;
      FollowupOfJoined(initial, more, k);
      assert others + [] == others;
      SomethingRanked(hits);
      if ResultsIgnoreOrder(initial, more) {
        assert SeenOf(FollowupOf(others, [], k)) == SeenOf(FollowupOf(initial, more, k));
        SeenTellsRanking(hits, others);
      }
    }
  }

  lemma SomethingRanked(hits: seq<Hit>)
    requires Consistent(TagAll(NO_PLAN, hits)) && !TiesShareRank(hits)
    ensures |RankingOf(hits)| > 0
  {
    assert hits != [];
    hide RankingOf, Consistent, TiesShareRank;
    var kept := RankingMeans(hits);
    var xs := TagAll(NO_PLAN, hits);
    assert xs[0].hit.chunk.id == hits[0].chunk.id;
    assert Mentions(xs, hits[0].chunk.id);
  }

  /** On equal scores the order of the hits decides, unlike when plans are merged: a first retrieval of one hit,
      and two follow-up queries, of which one returns that hit and a second one and the other returns the second
      chunk in the first place.  Which of the two queries is asked first decides the best result. */
  lemma FollowupOrderMatters(chunk: Chunk, other: Chunk, trace: Trace)
    requires Less(chunk.id, other.id)
    ensures var a, b, c := Hit(chunk, None, 1.0, 2, "r", trace), Hit(chunk, None, 1.0, 1, "r", trace), Hit(other, None, 1.0, 1, "r", trace);
            && FollowupOf([c], [c, a] + [b], 1).Ok? && FollowupOf([c], [b] + [c, a], 1).Ok?
            && multiset([c] + ([c, a] + [b])) == multiset([c] + ([b] + [c, a]))
            && |FollowupOf([c], [c, a] + [b], 1).value| == 1 && FollowupOf([c], [c, a] + [b], 1).value[0].chunk == other
            && |FollowupOf([c], [b] + [c, a], 1).value| == 1 && FollowupOf([c], [b] + [c, a], 1).value[0].chunk == chunk
  {
    hide FollowupOf, Less;
    LessTotal(chunk.id, other.id);
    LessTotal(chunk.id, chunk.id);
    var a, b, c := Hit(chunk, None, 1.0, 2, "r", trace), Hit(chunk, None, 1.0, 1, "r", trace), Hit(other, None, 1.0, 1, "r", trace);
    assert [c] + ([c, a] + [b]) == [c, c, a, b] && [c] + ([b] + [c, a]) == [c, b, c, a];
    var t := FourHits(c, c, a, b, a);
    TopOfTwo([c], [c, a] + [b], t, c, a);
    t := FourHits(c, b, c, a, b);
    TopOfTwo([c], [b] + [c, a], t, c, b);
    Swapped([c], [c, a], [b]);
  }

  lemma Swapped(first: seq<Hit>, x: seq<Hit>, y: seq<Hit>)
    ensures multiset(first + (x + y)) == multiset(first + (y + x))
  {
  }

  /** Four hits of one score on the chunks of the first and of another one, which is the first on its chunk. */
  lemma FourHits(c: Hit, x: Hit, y: Hit, z: Hit, kept: Hit) returns (t: Table)
    requires c.chunk.id != kept.chunk.id && x.score == y.score == z.score == c.score == kept.score
    requires forall hit | hit in [x, y, z] :: SamePayload(hit, c) || SamePayload(hit, kept)
    requires x == kept || (x.chunk.id == c.chunk.id && y == kept)
    ensures TableOf(TagAll(NO_PLAN, [c, x, y, z])) == Some(t)
    ensures t.order == [c.chunk.id, kept.chunk.id] && t.kept == map[c.chunk.id := c, kept.chunk.id := kept]
  {
    var xs := [Tagged(NO_PLAN, c)];
    assert x in [x, y, z] && y in [x, y, z] && z in [x, y, z];
    TableStep([], xs[0]);
    TableStep(xs, Tagged(NO_PLAN, x));
    TableStep(xs + [Tagged(NO_PLAN, x)], Tagged(NO_PLAN, y));
    TableStep(xs + [Tagged(NO_PLAN, x)] + [Tagged(NO_PLAN, y)], Tagged(NO_PLAN, z));
    assert [] + xs == xs;
    assert TagAll(NO_PLAN, [c, x, y, z]) == xs + [Tagged(NO_PLAN, x)] + [Tagged(NO_PLAN, y)] + [Tagged(NO_PLAN, z)];
    hide TableOf;
    t := TableOf(TagAll(NO_PLAN, [c, x, y, z])).value;
  }

  lemma TopOfTwo(initial: seq<Hit>, more: seq<Hit>, t: Table, p: Hit, q: Hit)
    requires TableOf(TagAll(NO_PLAN, initial + more)) == Some(t) && p.chunk.id != q.chunk.id
    requires t.order == [p.chunk.id, q.chunk.id] && t.kept == map[p.chunk.id := p, q.chunk.id := q]
    ensures FollowupOf(initial, more, 1).Ok? && |FollowupOf(initial, more, 1).value| == 1
    ensures FollowupOf(initial, more, 1).value[0].chunk == if Ahead(KeyOfHit(p), KeyOfHit(q)) then p.chunk else q.chunk
  {
    hide TableOf, Less, Ahead;
    TableOfIsFor(TagAll(NO_PLAN, initial + more));
    var ks := FollowupKeys(t);
    assert ks == [KeyOfHit(p), KeyOfHit(q)];
    assert ks[1..] == [KeyOfHit(q)] && ks[1..][1..] == [];
    assert Sorted([KeyOfHit(q)]) == [KeyOfHit(q)] by { assert [KeyOfHit(q)][1..] == []; }
    AheadIsOrder(KeyOfHit(q), KeyOfHit(p), KeyOfHit(p));
    assert Sorted(ks) == Insert(KeyOfHit(p), [KeyOfHit(q)]);
    assert Insert(KeyOfHit(p), [KeyOfHit(q)])[0] == if Ahead(KeyOfHit(p), KeyOfHit(q)) then KeyOfHit(p) else KeyOfHit(q);
  }

  // ----- the bounded round -----

  datatype StopReason = NeedsFollowup | NeedsClarification | Sufficient | MaxRoundsReached | NoFollowupQuery | SufficientAfterFollowup

  datatype Evidence = Evidence(sufficient: bool, queries: seq<string>, stopReason: StopReason, detail: string)

  datatype Round = Round(results: seq<Hit>, evidence: Evidence, rounds: nat, counts: seq<(string, nat)>, stopReason: StopReason)

  function Stopped(results: seq<Hit>, evidence: Evidence, reason: StopReason): Round {
    Round(results, evidence.(stopReason := reason), 0, [], reason)
  }

  /** What the follow-up queries return together, query by query. */
  function Gathered(retrieve: Retriever, queries: seq<string>, k: int): seq<Hit> {
    if queries == [] then [] else Gathered(retrieve, queries[..|queries| - 1], k) + retrieve(queries[|queries| - 1], k)
  }

  function Counts(retrieve: Retriever, queries: seq<string>, k: int): seq<(string, nat)> {
    if queries == [] then []
    else
      var q := queries[|queries| - 1];
      Counts(retrieve, queries[..|queries| - 1], k) + [(q, |retrieve(q, k)|)]
  }

  predicate QueriesInBounds(boundary: Boundary, retrieve: Retriever, queries: seq<string>, k: int) {
    forall q | q in queries :: InBounds(boundary, retrieve(q, k))
  }

  function RoundOf(boundary: Boundary, retrieve: Retriever, check: seq<Hit> -> Evidence, results: seq<Hit>, evidence: Evidence,
                   k: int, maxRounds: int): Result<Round, MergeError>
  {
    if TopKProblem(k).Some? then Err(TopKProblem(k).value)
    else if !InBounds(boundary, results) then Err(BoundaryViolation)
    else if evidence.sufficient then Ok(Stopped(results, evidence, Sufficient))
    else if evidence.stopReason == NeedsClarification then Ok(Stopped(results, evidence, NeedsClarification))
    else if maxRounds <= 0 then Ok(Stopped(results, evidence, MaxRoundsReached))
    else if evidence.queries == [] then Ok(Stopped(results, evidence, NoFollowupQuery))
    else if !QueriesInBounds(boundary, retrieve, evidence.queries, k) then Err(BoundaryViolation)
    else
      match FollowupOf(results, Gathered(retrieve, evidence.queries, k), k)
      case Err(e) => Err(e)
      case Ok(merged) =>
        if !InBounds(boundary, merged) then Err(BoundaryViolation)
        else
          var checked := check(merged);
          var reason := if checked.sufficient then SufficientAfterFollowup else MaxRoundsReached;
          Ok(Round(merged, checked.(stopReason := reason), 1, Counts(retrieve, evidence.queries, k), reason))
  }

  /** run_bounded_followup */
  method RunBoundedFollowup(boundary: Boundary, retrieve: Retriever, check: seq<Hit> -> Evidence, results: seq<Hit>,
                            evidence: Evidence, k: int, maxRounds: int) returns (r: Result<Round, MergeError>)
    ensures r == RoundOf(boundary, retrieve, check, results, evidence, k, maxRounds)
  {
    hide InBounds, FollowupOf;
    if TopKProblem(k).Some? {
      return Err(TopKProblem(k).value);
    }
    var bound := ResultsMatchBoundary(boundary, results);
    if !bound {
      return Err(BoundaryViolation);
    }
    if evidence.sufficient {
      return Ok(Stopped(results, evidence, Sufficient));
    }
    if evidence.stopReason == NeedsClarification {
      return Ok(Stopped(results, evidence, NeedsClarification));
    }
    if maxRounds <= 0 || evidence.queries == [] {
      return Ok(Stopped(results, evidence, if maxRounds <= 0 then MaxRoundsReached else NoFollowupQuery));
    }
    var queries := evidence.queries;
    var gathered: seq<Hit>, counts: seq<(string, nat)> := [], [];
    var i := 0;
    while i < |queries|
      invariant i <= |queries|
      invariant gathered == Gathered(retrieve, queries[..i], k) && counts == Counts(retrieve, queries[..i], k)
      invariant forall j | 0 <= j < i :: InBounds(boundary, retrieve(queries[j], k))
    {
      var found := retrieve(queries[i], k);
      bound := ResultsMatchBoundary(boundary, found);
      if !bound {
        return Err(BoundaryViolation);
      }
      OneMore(queries, i);
      counts := counts + [(queries[i], |found|)];
      gathered := gathered + found;
      i := i + 1;
    }
    assert queries[..i] == queries;
    var merged := MergeFollowupResults(results, gathered, k);
    if merged.Err? {
      return Err(merged.error);
    }
    bound := ResultsMatchBoundary(boundary, merged.value);
    if !bound {
      return Err(BoundaryViolation);
    }
    var checked := check(merged.value);
    var reason := if checked.sufficient then SufficientAfterFollowup else MaxRoundsReached;
    r := Ok(Round(merged.value, checked.(stopReason := reason), 1, counts, reason));
  }

  lemma {:induction false} GatheredHit(retrieve: Retriever, queries: seq<string>, k: int, hit: Hit)
    requires hit in Gathered(retrieve, queries, k)
    ensures exists q | q in queries :: hit in retrieve(q, k)
  {
    if queries != [] {
      var before, q := queries[..|queries| - 1], queries[|queries| - 1];
      if hit in Gathered(retrieve, before, k) {
        GatheredHit(retrieve, before, k, hit);
        var p :| p in before && hit in retrieve(p, k);
        assert p in queries;
      } else {
        assert q in queries && hit in retrieve(q, k);
      }
    }
  }

  lemma InBoundsHit(boundary: Boundary, results: seq<Hit>, hit: Hit)
    requires boundary.Bounded? && InBounds(boundary, results) && hit in results
    ensures !Blank(hit.retriever) && boundary.admits(hit.chunk, hit.provenance, hit.trace.fingerprint)
  {
    hide Blank;
  }

  lemma MergedHitIsOld(initial: seq<Hit>, more: seq<Hit>, k: int, i: nat)
    requires FollowupOf(initial, more, k).Ok? && i < |FollowupOf(initial, more, k).value|
    ensures var out := FollowupOf(initial, more, k).value[i];
            out.rank == i + 1 && exists hit | hit in initial + more ::
              SamePayload(hit, out) && hit.retriever == out.retriever && hit.trace.fingerprint == out.trace.fingerprint
  {
    var xs := TagAll(NO_PLAN, initial + more);
    var ranked, kept := FollowupIsTopK(initial, more, k);
    var n: nat :| FirstBest(xs, kept[i], n);
    assert xs[n].hit in initial + more;
  }

  /** The check of the merged results never fires here either. */
  lemma FollowupStaysInBounds(boundary: Boundary, retrieve: Retriever, results: seq<Hit>, queries: seq<string>, k: int)
    requires InBounds(boundary, results) && QueriesInBounds(boundary, retrieve, queries, k)
    requires FollowupOf(results, Gathered(retrieve, queries, k), k).Ok?
    ensures InBounds(boundary, FollowupOf(results, Gathered(retrieve, queries, k), k).value)
  {
    var more := Gathered(retrieve, queries, k);
    var out := FollowupOf(results, more, k).value;
    hide FollowupOf, Blank;
    forall i | 0 <= i < |out|
      ensures out[i].rank == i + 1
      ensures boundary.Bounded? ==>
                !Blank(out[i].retriever) && boundary.admits(out[i].chunk, out[i].provenance, out[i].trace.fingerprint)
    {
      MergedHitIsOld(results, more, k, i);
      if boundary.Bounded? {
        var hit :| hit in results + more && SamePayload(hit, out[i]) && hit.retriever == out[i].retriever &&
          hit.trace.fingerprint == out[i].trace.fingerprint;
        if hit in results {
          InBoundsHit(boundary, results, hit);
        } else {
          GatheredHit(retrieve, queries, k, hit);
          var q :| q in queries && hit in retrieve(q, k);
          InBoundsHit(boundary, retrieve(q, k), hit);
        }
      }
    }
  }

  /** Main theorem: there is at most one round; it happens exactly when the evidence is neither sufficient nor
      waiting for the user, a round is allowed and there is something to ask; it fails exactly on a bad limit,
      a list that leaves the boundary or one chunk ID with two payloads; and without it nothing changes but
      the stop reason. */
  lemma RoundOutcome(boundary: Boundary, retrieve: Retriever, check: seq<Hit> -> Evidence, results: seq<Hit>, evidence: Evidence,
                     k: int, maxRounds: int)
    ensures var r := RoundOf(boundary, retrieve, check, results, evidence, k, maxRounds);
            var asks := !evidence.sufficient && evidence.stopReason != NeedsClarification && maxRounds > 0 && evidence.queries != [];
            var all := results + Gathered(retrieve, evidence.queries, k);
            && (r.Ok? <==>
                  && 0 < k <= MAX_TOP_K && InBounds(boundary, results)
                  && (asks ==> QueriesInBounds(boundary, retrieve, evidence.queries, k) && Consistent(TagAll(NO_PLAN, all))))
            && (r.Ok? ==>
                  && r.value.rounds == (if asks then 1 else 0)
                  && r.value.evidence.stopReason == r.value.stopReason
                  && InBounds(boundary, r.value.results)
                  && (!asks ==> r.value.results == results && r.value.evidence == evidence.(stopReason := r.value.stopReason))
                  && (asks ==> r.value.evidence == check(r.value.results).(stopReason := r.value.stopReason))
                  && (r.value.evidence.sufficient <==> r.value.stopReason in {Sufficient, SufficientAfterFollowup}))
  {
    var more := Gathered(retrieve, evidence.queries, k);
    var ranked, kept := FollowupIsTopK(results, more, k);
    hide InBounds, FollowupOf, Consistent, QueriesInBounds;
    if InBounds(boundary, results) && QueriesInBounds(boundary, retrieve, evidence.queries, k) && FollowupOf(results, more, k).Ok? {
      FollowupStaysInBounds(boundary, retrieve, results, evidence.queries, k);
    }
  }
}
