/** Merging the results of several retrieval plans (legal_rag/adaptive.py). */
module MergePlans {
  import opened Common
  import opened Strings

  const MAX_TOP_K := 10000
  const NO_RANK := 999999

  datatype Chunk = Chunk(id: string, body: string)

  /** A trace: the fingerprint boundary checks read, what the retriever wrote, what merging adds. */
  datatype Trace = Trace(fingerprint: Option<string>, detail: string, adaptive: Option<PlanNote>, followup: Option<FollowupNote>)

  datatype PlanNote = PlanNote(sources: seq<Source>, bestRank: int)

  datatype FollowupNote = FollowupNote(originalRank: int, sourceRetriever: string)

  datatype Source = Source(planId: string, query: string, rank: int, score: real, retriever: string, ranking: Trace)

  datatype Hit = Hit(chunk: Chunk, provenance: Option<string>, score: real, rank: int, retriever: string, trace: Trace)

  datatype Plan = Plan(id: string, query: string, topK: int)

  type Retriever = (string, int) -> seq<Hit>

  datatype Boundary = Unbounded | Bounded(admits: (Chunk, Option<string>, Option<string>) -> bool)

  datatype MergeError = BadTopK | BoundaryViolation

  datatype Tagged = Tagged(plan: Plan, hit: Hit)

  /** What assert_results_match_boundary accepts: every result is well formed and admitted, and no rank is used twice. */
  predicate InBounds(b: Boundary, results: seq<Hit>) {
    b.Bounded? ==>
      && (forall i | 0 <= i < |results| ::
            results[i].rank > 0 && !Blank(results[i].retriever) &&
            b.admits(results[i].chunk, results[i].provenance, results[i].trace.fingerprint))
      && (forall i, j | 0 <= i < j < |results| :: results[i].rank != results[j].rank)
  }

  /** assert_results_match_boundary */
  method ResultsMatchBoundary(b: Boundary, results: seq<Hit>) returns (ok: bool)
    ensures ok <==> InBounds(b, results)
  {
    hide Blank;
    if b.Unbounded? {
      return true;
    }
    var seen: set<int> := {};
    var i := 0;
    while i < |results|
      invariant i <= |results| && InBounds(b, results[..i])
      invariant forall rank :: rank in seen <==> exists j | 0 <= j < i :: results[j].rank == rank
    {
      var hit := results[i];
      if hit.rank <= 0 || hit.rank in seen || Blank(hit.retriever) || !b.admits(hit.chunk, hit.provenance, hit.trace.fingerprint) {
        return false;
      }
      seen := seen + {hit.rank};
      i := i + 1;
    }
    assert results[..i] == results;
    ok := true;
  }

  function TopKProblem(k: int): Option<MergeError> {
    if k <= 0 || k > MAX_TOP_K then Some(BadTopK) else None
  }

  // ----- one hit after the other -----

  /** by_chunk_id in insertion order, and source_trace. */
  datatype Table = Table(order: seq<string>, kept: map<string, Hit>, sources: map<string, seq<Source>>)

  const EMPTY := Table([], map[], map[])

  function SourceOf(x: Tagged): Source {
    Source(x.plan.id, x.plan.query, x.hit.rank, x.hit.score, x.hit.retriever, x.hit.trace)
  }

  predicate SamePayload(a: Hit, b: Hit) {
    a.chunk == b.chunk && a.provenance == b.provenance
  }

  function Put(t: Table, x: Tagged): Option<Table> {
    var id := x.hit.chunk.id;
    var sources := t.sources[id := (if id in t.sources then t.sources[id] else []) + [SourceOf(x)]];
    if id !in t.kept then Some(Table(t.order + [id], t.kept[id := x.hit], sources))
    else if !SamePayload(t.kept[id], x.hit) then None
    else Some(Table(t.order, if x.hit.score > t.kept[id].score then t.kept[id := x.hit] else t.kept, sources))
  }

  function TableOf(xs: seq<Tagged>): Option<Table> {
    if xs == [] then Some(EMPTY)
    else match TableOf(xs[..|xs| - 1])
      case None => None
      case Some(t) => Put(t, xs[|xs| - 1])
  }

  // ----- the same, stated of each chunk -----

  predicate Consistent(xs: seq<Tagged>) {
    forall i, j | 0 <= i < j < |xs| && xs[i].hit.chunk.id == xs[j].hit.chunk.id :: SamePayload(xs[i].hit, xs[j].hit)
  }

  predicate Mentions(xs: seq<Tagged>, id: string) {
    exists i | 0 <= i < |xs| :: xs[i].hit.chunk.id == id
  }

  /** hit is the first of the best scored hits on its chunk. */
  predicate FirstBest(xs: seq<Tagged>, hit: Hit, i: nat) {
    && i < |xs| && xs[i].hit == hit
    && (forall j | 0 <= j < |xs| && xs[j].hit.chunk.id == hit.chunk.id :: xs[j].hit.score <= hit.score)
    && (forall j | 0 <= j < i && xs[j].hit.chunk.id == hit.chunk.id :: xs[j].hit.score < hit.score)
  }

  ghost predicate Keeps(xs: seq<Tagged>, id: string, hit: Hit) {
    hit.chunk.id == id && exists i: nat :: FirstBest(xs, hit, i)
  }

  function SourcesOf(xs: seq<Tagged>, id: string): seq<Source> {
    if xs == [] then []
    else SourcesOf(xs[..|xs| - 1], id) + if xs[|xs| - 1].hit.chunk.id == id then [SourceOf(xs[|xs| - 1])] else []
  }

  predicate DistinctIds(ids: seq<string>) {
    forall i, j | 0 <= i < j < |ids| :: ids[i] != ids[j]
  }

  ghost predicate TableFor(t: Table, xs: seq<Tagged>) {
    && DistinctIds(t.order)
    && (forall id :: id in t.order <==> Mentions(xs, id))
    && (forall id :: id in t.kept <==> Mentions(xs, id))
    && (forall id :: id in t.sources <==> Mentions(xs, id))
    && (forall id | id in t.kept :: Keeps(xs, id, t.kept[id]))
    && (forall id | id in t.sources :: t.sources[id] == SourcesOf(xs, id))
  }

  lemma MentionsSnoc(xs: seq<Tagged>, x: Tagged, id: string)
    ensures Mentions(xs + [x], id) <==> Mentions(xs, id) || x.hit.chunk.id == id
  {
    var ys := xs + [x];
    if Mentions(xs, id) {
      var i :| 0 <= i < |xs| && xs[i].hit.chunk.id == id;
      assert ys[i].hit.chunk.id == id;
    }
    if x.hit.chunk.id == id { assert ys[|xs|].hit.chunk.id == id; }
  }

  lemma KeepsSnoc(xs: seq<Tagged>, x: Tagged, id: string, hit: Hit)
    requires Keeps(xs, id, hit)
    ensures x.hit.chunk.id != id || x.hit.score <= hit.score ==> Keeps(xs + [x], id, hit)
    ensures x.hit.chunk.id == id && x.hit.score > hit.score ==> Keeps(xs + [x], id, x.hit)
  {
    var i: nat :| FirstBest(xs, hit, i);
    var ys := xs + [x];
    if x.hit.chunk.id != id || x.hit.score <= hit.score {
      assert FirstBest(ys, hit, i);
    } else {
      assert FirstBest(ys, x.hit, |xs|);
    }
  }

  lemma FirstKept(xs: seq<Tagged>, x: Tagged)
    requires !Mentions(xs, x.hit.chunk.id)
    ensures Keeps(xs + [x], x.hit.chunk.id, x.hit)
  {
    assert FirstBest(xs + [x], x.hit, |xs|);
  }

  lemma SourcesSnoc(xs: seq<Tagged>, x: Tagged, id: string)
    ensures SourcesOf(xs + [x], id) == SourcesOf(xs, id) + if x.hit.chunk.id == id then [SourceOf(x)] else []
  {
    assert (xs + [x])[..|xs|] == xs;
  }

  lemma {:induction false} NoSources(xs: seq<Tagged>, id: string)
    requires !Mentions(xs, id)
    ensures SourcesOf(xs, id) == []
  {
    if xs != [] {
      var before := xs[..|xs| - 1];
      assert xs == before + [xs[|xs| - 1]];
      MentionsSnoc(before, xs[|xs| - 1], id);
      NoSources(before, id);
    }
  }

  lemma PutOrder(t: Table, xs: seq<Tagged>, x: Tagged)
    requires TableFor(t, xs) && Put(t, x).Some?
    ensures DistinctIds(Put(t, x).value.order)
    ensures forall id :: id in Put(t, x).value.order <==> Mentions(xs + [x], id)
    ensures forall id :: id in Put(t, x).value.kept <==> Mentions(xs + [x], id)
    ensures forall id :: id in Put(t, x).value.sources <==> Mentions(xs + [x], id)
  {
    hide Mentions, Keeps, SourcesOf, SamePayload, SourceOf;
    forall id ensures Mentions(xs + [x], id) <==> Mentions(xs, id) || x.hit.chunk.id == id {
      MentionsSnoc(xs, x, id);
    }
  }

  lemma PutKept(t: Table, xs: seq<Tagged>, x: Tagged, id: string)
    requires TableFor(t, xs) && Put(t, x).Some? && id in Put(t, x).value.kept
    ensures Keeps(xs + [x], id, Put(t, x).value.kept[id])
  {
    hide Mentions, Keeps, SourcesOf, SamePayload, SourceOf, DistinctIds;
    if id in t.kept {
      KeepsSnoc(xs, x, id, t.kept[id]);
    } else {
      FirstKept(xs, x);
    }
  }

  lemma PutSources(t: Table, xs: seq<Tagged>, x: Tagged, id: string)
    requires TableFor(t, xs) && Put(t, x).Some? && id in Put(t, x).value.sources
    ensures Put(t, x).value.sources[id] == SourcesOf(xs + [x], id)
  {
    hide Mentions, Keeps, SourcesOf, SamePayload, SourceOf, DistinctIds;
    SourcesSnoc(xs, x, id);
    if id !in t.sources { NoSources(xs, id); }
  }

  lemma PutKeeps(t: Table, xs: seq<Tagged>, x: Tagged)
    requires TableFor(t, xs) && Put(t, x).Some?
    ensures TableFor(Put(t, x).value, xs + [x])
  {
    PutOrder(t, xs, x);
    forall id | id in Put(t, x).value.kept ensures Keeps(xs + [x], id, Put(t, x).value.kept[id]) {
      PutKept(t, xs, x, id);
    }
    forall id | id in Put(t, x).value.sources ensures Put(t, x).value.sources[id] == SourcesOf(xs + [x], id) {
      PutSources(t, xs, x, id);
    }
    hide Mentions, Keeps, SourcesOf, DistinctIds, Put;
  }

  /** Putting fails exactly on a payload that conflicts with an earlier one. */
  lemma PutFailsOnConflict(t: Table, xs: seq<Tagged>, x: Tagged)
    requires TableFor(t, xs) && Consistent(xs)
    ensures Put(t, x).Some? <==> forall i | 0 <= i < |xs| && xs[i].hit.chunk.id == x.hit.chunk.id :: SamePayload(xs[i].hit, x.hit)
  {
    var id := x.hit.chunk.id;
    hide SourcesOf, SourceOf, DistinctIds;
    if id in t.kept {
      var i: nat :| FirstBest(xs, t.kept[id], i);
      assert xs[i].hit == t.kept[id];
      forall k | 0 <= k < |xs| && xs[k].hit.chunk.id == id ensures SamePayload(xs[k].hit, xs[i].hit) {
      }
    } else {
      assert !Mentions(xs, id);
    }
  }

  lemma ConsistentSnoc(xs: seq<Tagged>, x: Tagged)
    ensures Consistent(xs + [x]) <==>
            Consistent(xs) && forall i | 0 <= i < |xs| && xs[i].hit.chunk.id == x.hit.chunk.id :: SamePayload(xs[i].hit, x.hit)
  {
    var ys := xs + [x];
    if Consistent(ys) {
      forall i, j | 0 <= i < j < |xs| && xs[i].hit.chunk.id == xs[j].hit.chunk.id ensures SamePayload(xs[i].hit, xs[j].hit) {
        assert ys[i] == xs[i] && ys[j] == xs[j];
      }
      forall i | 0 <= i < |xs| && xs[i].hit.chunk.id == x.hit.chunk.id ensures SamePayload(xs[i].hit, x.hit) {
        assert ys[i] == xs[i] && ys[|xs|] == x;
      }
    }
  }

  /** The table exists exactly when no chunk ID comes with two payloads, and then holds, for every chunk, its
      first best hit and all its sources in order. */
  lemma {:induction false} TableMeans(xs: seq<Tagged>)
    ensures TableOf(xs).Some? <==> Consistent(xs)
    ensures TableOf(xs).Some? ==> TableFor(TableOf(xs).value, xs)
  {
    if xs != [] {
      var before, x := xs[..|xs| - 1], xs[|xs| - 1];
      assert xs == before + [x];
      TableMeans(before);
      ConsistentSnoc(before, x);
      hide TableFor, Put, SamePayload, Consistent;
      if TableOf(before).Some? {
        PutFailsOnConflict(TableOf(before).value, before, x);
        if Put(TableOf(before).value, x).Some? {
          PutKeeps(TableOf(before).value, before, x);
        }
      }
    }
  }

  lemma {:induction false} TableStops(xs: seq<Tagged>, n: nat)
    requires n <= |xs| && TableOf(xs[..n]).None?
    ensures TableOf(xs).None?
    decreases |xs|
  {
    if n == |xs| {
      assert xs[..n] == xs;
    } else {
      assert xs[..|xs| - 1][..n] == xs[..n];
      TableStops(xs[..|xs| - 1], n);
    }
  }

  // ----- ranking -----

  /** A sort key: two numbers ascending, then the chunk ID. */
  datatype Key = Key(major: real, minor: real, id: string)

  predicate Ahead(a: Key, b: Key) {
    a.major < b.major || (a.major == b.major && (a.minor < b.minor || (a.minor == b.minor && Less(a.id, b.id))))
  }

  lemma AheadIsOrder(a: Key, b: Key, c: Key)
    ensures Ahead(a, b) || a == b || Ahead(b, a)
    ensures !(Ahead(a, b) && Ahead(b, a)) && !Ahead(a, a)
    ensures Ahead(a, b) && Ahead(b, c) ==> Ahead(a, c)
  {
    LessTotal(a.id, b.id);
    LessTotal(a.id, a.id);
    if Less(a.id, b.id) && Less(b.id, c.id) {
      LessTransitive(a.id, b.id, c.id);
    }
  }

  predicate InOrder(ks: seq<Key>) {
    forall i, j | 0 <= i < j < |ks| :: Ahead(ks[i], ks[j])
  }

  predicate DistinctKeys(ks: seq<Key>) {
    forall i, j | 0 <= i < j < |ks| :: ks[i] != ks[j]
  }

  function Insert(k: Key, ks: seq<Key>): seq<Key> {
    if ks == [] then [k]
    else if Ahead(k, ks[0]) then [k] + ks
    else [ks[0]] + Insert(k, ks[1..])
  }

  /** sorted() */
  function Sorted(ks: seq<Key>): seq<Key> {
    if ks == [] then [] else Insert(ks[0], Sorted(ks[1..]))
  }

  lemma {:induction false} InsertKeeps(k: Key, ks: seq<Key>)
    requires InOrder(ks) && k !in ks
    ensures InOrder(Insert(k, ks)) && |Insert(k, ks)| == |ks| + 1
    ensures forall x :: x in Insert(k, ks) <==> x == k || x in ks
  {
    if ks != [] {
      AheadIsOrder(k, ks[0], ks[0]);
      if Ahead(k, ks[0]) {
        forall j | 0 < j < |ks| ensures Ahead(k, ks[j]) {
          AheadIsOrder(k, ks[0], ks[j]);
        }
      } else {
        assert forall x :: x in ks <==> x == ks[0] || x in ks[1..];
        InsertKeeps(k, ks[1..]);
        var rest := Insert(k, ks[1..]);
        forall j | 0 <= j < |rest| ensures Ahead(ks[0], rest[j]) {
          assert rest[j] in rest;
        }
      }
      hide Ahead;
    }
  }

  lemma {:induction false} SortedMeans(ks: seq<Key>)
    requires DistinctKeys(ks)
    ensures InOrder(Sorted(ks)) && |Sorted(ks)| == |ks|
    ensures forall x :: x in Sorted(ks) <==> x in ks
  {
    if ks != [] {
      assert forall x :: x in ks <==> x == ks[0] || x in ks[1..];
      SortedMeans(ks[1..]);
      assert ks[0] !in ks[1..];
      InsertKeeps(ks[0], Sorted(ks[1..]));
    }
  }

  lemma SomeMember<T>(s: seq<T>)
    requires s != []
    ensures exists x :: x in s
  {
    assert s[0] in s;
  }

  /** There is only one way to put keys in order. */
  lemma {:induction false} OrderIsUnique(a: seq<Key>, b: seq<Key>)
    requires InOrder(a) && InOrder(b) && forall x :: x in a <==> x in b
    ensures a == b
    decreases |a|
  {
    hide Ahead;
    if a == [] {
      if b != [] { SomeMember(b); }
    } else {
      assert a[0] in b && b[0] in a;
      var i :| 0 <= i < |b| && b[i] == a[0];
      var j :| 0 <= j < |a| && a[j] == b[0];
      AheadIsOrder(a[0], b[0], b[0]);
      assert a[0] == b[0];
      forall x ensures x in a[1..] <==> x in b[1..] {
        AheadIsOrder(a[0], a[0], a[0]);
        assert a == [a[0]] + a[1..] && b == [b[0]] + b[1..];
        assert x in a <==> x in b;
      }
      OrderIsUnique(a[1..], b[1..]);
    }
  }

  // ----- the keys of a table -----

  function NonZeroRanks(sources: seq<Source>): seq<int> {
    if sources == [] then []
    else (if sources[0].rank != 0 then [sources[0].rank] else []) + NonZeroRanks(sources[1..])
  }

  function Min(ranks: seq<int>): (m: int)
    requires ranks != []
    ensures m in ranks && forall r | r in ranks :: m <= r
  {
    if |ranks| == 1 then ranks[0] else
      var rest := Min(ranks[1..]);
      assert forall r | r in ranks :: r == ranks[0] || r in ranks[1..];
      if ranks[0] <= rest then ranks[0] else rest
  }

  /** best_source_rank: ranks of zero do not count. */
  function BestSourceRank(sources: seq<Source>): int {
    var ranks := NonZeroRanks(sources);
    if ranks == [] then NO_RANK else Min(ranks)
  }

  predicate ForTable(t: Table) {
    (forall id | id in t.order :: id in t.kept) && (forall id | id in t.kept :: id in t.sources)
  }

  function PlanKey(t: Table, id: string): Key
    requires id in t.kept && id in t.sources
  {
    Key(BestSourceRank(t.sources[id]) as real, -t.kept[id].score, id)
  }

  function PlanKeys(t: Table): (ks: seq<Key>)
    requires ForTable(t)
    ensures |ks| == |t.order| && forall i | 0 <= i < |ks| :: ks[i] == PlanKey(t, t.order[i])
  {
    seq(|t.order|, i requires 0 <= i < |t.order| => PlanKey(t, t.order[i]))
  }

  function FollowupKey(t: Table, id: string): Key
    requires id in t.kept
  {
    Key(-t.kept[id].score, t.kept[id].rank as real, id)
  }

  function FollowupKeys(t: Table): (ks: seq<Key>)
    requires ForTable(t)
    ensures |ks| == |t.order| && forall i | 0 <= i < |ks| :: ks[i] == FollowupKey(t, t.order[i])
  {
    seq(|t.order|, i requires 0 <= i < |t.order| => FollowupKey(t, t.order[i]))
  }

  function First(ks: seq<Key>, k: nat): seq<Key> {
    if |ks| <= k then ks else ks[..k]
  }

  // ----- the keys, stated of each chunk -----

  ghost predicate IsBestRank(xs: seq<Tagged>, id: string, n: real) {
    if forall i | 0 <= i < |xs| && xs[i].hit.chunk.id == id :: xs[i].hit.rank == 0 then n == NO_RANK as real
    else
      && n != 0.0 && (exists i | 0 <= i < |xs| :: xs[i].hit.chunk.id == id && xs[i].hit.rank as real == n)
      && (forall i | 0 <= i < |xs| && xs[i].hit.chunk.id == id && xs[i].hit.rank != 0 :: n <= xs[i].hit.rank as real)
  }

  ghost predicate IsBestScore(xs: seq<Tagged>, id: string, score: real) {
    && (exists i | 0 <= i < |xs| :: xs[i].hit.chunk.id == id && xs[i].hit.score == score)
    && (forall i | 0 <= i < |xs| && xs[i].hit.chunk.id == id :: xs[i].hit.score <= score)
  }

  /** The key of a chunk: its smallest source rank, its best score descending, its ID. */
  ghost predicate PlanKeyFor(xs: seq<Tagged>, k: Key) {
    IsBestRank(xs, k.id, k.major) && IsBestScore(xs, k.id, -k.minor)
  }

  predicate HasRank(xs: seq<Tagged>, id: string, n: int) {
    exists i | 0 <= i < |xs| :: xs[i].hit.chunk.id == id && xs[i].hit.rank == n
  }

  lemma HasRankSnoc(xs: seq<Tagged>, x: Tagged, id: string, n: int)
    ensures HasRank(xs + [x], id, n) <==> HasRank(xs, id, n) || (x.hit.chunk.id == id && x.hit.rank == n)
  {
    var ys := xs + [x];
    if HasRank(xs, id, n) {
      var i :| 0 <= i < |xs| && xs[i].hit.chunk.id == id && xs[i].hit.rank == n;
      assert ys[i] == xs[i];
    }
    if x.hit.chunk.id == id && x.hit.rank == n { assert ys[|xs|] == x; }
  }

  lemma {:induction false} RanksOfSources(xs: seq<Tagged>, id: string)
    ensures forall n :: n in NonZeroRanks(SourcesOf(xs, id)) <==> n != 0 && HasRank(xs, id, n)
  {
    if xs != [] {
      var before, x := xs[..|xs| - 1], xs[|xs| - 1];
      assert xs == before + [x];
      RanksOfSources(before, id);
      NonZeroAppend(SourcesOf(before, id), if x.hit.chunk.id == id then [SourceOf(x)] else []);
      forall n ensures n in NonZeroRanks(SourcesOf(xs, id)) <==> n != 0 && HasRank(xs, id, n) {
        HasRankSnoc(before, x, id, n);
      }
    }
  }

  lemma {:induction false} NonZeroAppend(a: seq<Source>, b: seq<Source>)
    ensures NonZeroRanks(a + b) == NonZeroRanks(a) + NonZeroRanks(b)
  {
    if a == [] {
      assert a + b == b;
    } else {
      assert (a + b)[1..] == a[1..] + b;
      NonZeroAppend(a[1..], b);
    }
  }

  lemma BestSourceRankMeans(xs: seq<Tagged>, id: string)
    ensures IsBestRank(xs, id, BestSourceRank(SourcesOf(xs, id)) as real)
  {
    RanksOfSources(xs, id);
    var ranks := NonZeroRanks(SourcesOf(xs, id));
    hide SourcesOf, NonZeroRanks;
    if ranks == [] {
      forall i | 0 <= i < |xs| && xs[i].hit.chunk.id == id ensures xs[i].hit.rank == 0 {
        assert xs[i].hit.rank !in ranks;
      }
    } else {
      var m := Min(ranks);
      assert m in ranks;
      forall i | 0 <= i < |xs| && xs[i].hit.chunk.id == id && xs[i].hit.rank != 0 ensures m <= xs[i].hit.rank {
        assert xs[i].hit.rank in ranks;
      }
    }
  }

  lemma KeptScore(xs: seq<Tagged>, id: string, hit: Hit)
    requires Keeps(xs, id, hit)
    ensures IsBestScore(xs, id, hit.score)
  {
    var i: nat :| FirstBest(xs, hit, i);
    assert xs[i].hit.score == hit.score;
  }

  lemma BestRankUnique(xs: seq<Tagged>, id: string, m: real, n: real)
    requires IsBestRank(xs, id, m) && IsBestRank(xs, id, n)
    ensures m == n
  {
  }

  lemma PlanKeyUnique(xs: seq<Tagged>, a: Key, b: Key)
    requires PlanKeyFor(xs, a) && PlanKeyFor(xs, b) && a.id == b.id
    ensures a == b
  {
    BestRankUnique(xs, a.id, a.major, b.major);
    hide IsBestRank;
  }

  lemma TableIsFor(t: Table, xs: seq<Tagged>)
    requires TableFor(t, xs)
    ensures ForTable(t)
  {
    hide Mentions, Keeps, SourcesOf;
  }

  lemma PlanKeyMeans(t: Table, xs: seq<Tagged>, id: string)
    requires TableFor(t, xs) && id in t.kept && id in t.sources
    ensures PlanKeyFor(xs, PlanKey(t, id))
  {
    BestSourceRankMeans(xs, id);
    KeptScore(xs, id, t.kept[id]);
    hide IsBestRank, IsBestScore, Mentions, Keeps, SourcesOf, BestSourceRank;
    assert -(-t.kept[id].score) == t.kept[id].score;
  }

  /** The keys of a table are exactly the keys of the chunks found, each once. */
  lemma PlanKeysMean(t: Table, xs: seq<Tagged>)
    requires TableFor(t, xs)
    ensures ForTable(t) && DistinctKeys(PlanKeys(t))
    ensures forall k :: k in PlanKeys(t) <==> PlanKeyFor(xs, k)
  {
    TableIsFor(t, xs);
    var ks := PlanKeys(t);
    forall i | 0 <= i < |ks| ensures PlanKeyFor(xs, ks[i]) {
      PlanKeyMeans(t, xs, t.order[i]);
    }
    forall k | PlanKeyFor(xs, k) ensures k in ks {
      MentionedByKey(xs, k);
      var i :| 0 <= i < |t.order| && t.order[i] == k.id;
      PlanKeyUnique(xs, k, ks[i]);
    }
    hide PlanKeyFor, Mentions, Keeps, SourcesOf;
  }

  lemma MentionedByKey(xs: seq<Tagged>, k: Key)
    requires PlanKeyFor(xs, k)
    ensures Mentions(xs, k.id)
  {
  }

  // ----- merging -----

  function TagAll(plan: Plan, hits: seq<Hit>): (xs: seq<Tagged>)
    ensures |xs| == |hits| && forall i | 0 <= i < |xs| :: xs[i] == Tagged(plan, hits[i])
  {
    seq(|hits|, i requires 0 <= i < |hits| => Tagged(plan, hits[i]))
  }

  /** Everything the plans return, plan by plan. */
  function Retrieved(retrieve: Retriever, plans: seq<Plan>): seq<Tagged> {
    if plans == [] then []
    else
      var plan := plans[|plans| - 1];
      Retrieved(retrieve, plans[..|plans| - 1]) + TagAll(plan, retrieve(plan.query, plan.topK))
  }

  predicate AllInBounds(boundary: Boundary, retrieve: Retriever, plans: seq<Plan>) {
    forall plan | plan in plans :: InBounds(boundary, retrieve(plan.query, plan.topK))
  }

  function MergedHit(t: Table, id: string, rank: nat): Hit
    requires id in t.kept && id in t.sources
  {
    var hit := t.kept[id];
    hit.(rank := rank, retriever := "adaptive_" + hit.retriever,
         trace := hit.trace.(adaptive := Some(PlanNote(t.sources[id], BestSourceRank(t.sources[id])))))
  }

  function MergedHits(t: Table, top: seq<Key>): (out: seq<Hit>)
    requires forall k | k in top :: k.id in t.kept && k.id in t.sources
    ensures |out| == |top| && forall i | 0 <= i < |out| :: out[i] == MergedHit(t, top[i].id, i + 1)
  {
    seq(|top|, i requires 0 <= i < |top| => MergedHit(t, top[i].id, i + 1))
  }

  datatype MergeInfo = MergeInfo(planCount: nat, inputCount: nat, dedupedCount: nat, returnedCount: nat, truncated: nat)

  datatype Merge = Merge(results: seq<Hit>, info: MergeInfo)

  function InfoOf(planCount: nat, inputCount: nat, deduped: nat, returned: nat): MergeInfo {
    MergeInfo(planCount, inputCount, deduped, returned, if deduped > returned then deduped - returned else 0)
  }

  lemma {:induction false} SortedAmong(ks: seq<Key>)
    ensures |Sorted(ks)| == |ks| && forall k | k in Sorted(ks) :: k in ks
  {
    if ks != [] {
      SortedAmong(ks[1..]);
      InsertAmong(ks[0], Sorted(ks[1..]));
    }
  }

  lemma {:induction false} InsertAmong(k: Key, ks: seq<Key>)
    ensures |Insert(k, ks)| == |ks| + 1 && forall x | x in Insert(k, ks) :: x == k || x in ks
  {
    if ks != [] {
      InsertAmong(k, ks[1..]);
    }
  }

  function TopKeys(t: Table, k: nat): (top: seq<Key>)
    requires ForTable(t)
    ensures |top| == if |t.order| <= k then |t.order| else k
    ensures forall key | key in top :: key.id in t.kept && key.id in t.sources
  {
    SortedAmong(PlanKeys(t));
    assert forall key | key in PlanKeys(t) :: key.id in t.order;
    First(Sorted(PlanKeys(t)), k)
  }

  lemma TableOfIsFor(xs: seq<Tagged>)
    ensures TableOf(xs).Some? ==> ForTable(TableOf(xs).value)
  {
    TableMeans(xs);
    if TableOf(xs).Some? { TableIsFor(TableOf(xs).value, xs); }
  }

  function MergeOf(boundary: Boundary, retrieve: Retriever, plans: seq<Plan>, k: int): Result<Merge, MergeError> {
    if TopKProblem(k).Some? then Err(TopKProblem(k).value)
    else if !AllInBounds(boundary, retrieve, plans) then Err(BoundaryViolation)
    else
      var xs := Retrieved(retrieve, plans);
      TableOfIsFor(xs);
      match TableOf(xs)
      case None => Err(BoundaryViolation)
      case Some(t) =>
        var out := MergedHits(t, TopKeys(t, k));
        if !InBounds(boundary, out) then Err(BoundaryViolation)
        else Ok(Merge(out, InfoOf(|plans|, |xs|, |t.order|, |out|)))
  }

  lemma OneMore<T>(s: seq<T>, i: nat)
    requires i < |s|
    ensures s[..i + 1] == s[..i] + [s[i]] && s[..i + 1][..i] == s[..i]
  {
  }

  lemma TableStep(xs: seq<Tagged>, x: Tagged)
    ensures TableOf(xs + [x]) == match TableOf(xs) case None => None case Some(t) => Put(t, x)
  {
    assert (xs + [x])[..|xs|] == xs;
  }

  lemma {:induction false} RetrievedStops(retrieve: Retriever, plans: seq<Plan>, i: nat)
    requires i <= |plans| && TableOf(Retrieved(retrieve, plans[..i])).None?
    ensures TableOf(Retrieved(retrieve, plans)).None?
    decreases |plans|
  {
    if i == |plans| {
      assert plans[..i] == plans;
    } else {
      var before, plan := plans[..|plans| - 1], plans[|plans| - 1];
      assert before[..i] == plans[..i];
      RetrievedStops(retrieve, before, i);
      var xs := Retrieved(retrieve, plans);
      assert xs[..|Retrieved(retrieve, before)|] == Retrieved(retrieve, before);
      TableStops(xs, |Retrieved(retrieve, before)|);
    }
  }

  /** The inner loop: one plan's hits into the table. */
  method PutHits(plan: Plan, hits: seq<Hit>, start: Table, ghost before: seq<Tagged>) returns (r: Option<Table>)
    requires TableOf(before) == Some(start)
    ensures r == TableOf(before + TagAll(plan, hits))
  {
    hide Put, TableOf;
    ghost var xs := TagAll(plan, hits);
    var table := start;
    var j := 0;
    assert before + xs[..0] == before;
    while j < |hits|
      invariant j <= |hits|
      invariant TableOf(before + xs[..j]) == Some(table)
    {
      var x := Tagged(plan, hits[j]);
      assert before + xs[..j + 1] == (before + xs[..j]) + [x];
      TableStep(before + xs[..j], x);
      var next := Put(table, x);
      if next.None? {
        assert (before + xs)[..|before| + j + 1] == before + xs[..j + 1];
        TableStops(before + xs, |before| + j + 1);
        return None;
      }
      table := next.value;
      j := j + 1;
    }
    assert xs[..j] == xs;
    r := Some(table);
  }

  /** retrieve_and_merge_plans */
  method RetrieveAndMergePlans(boundary: Boundary, retrieve: Retriever, plans: seq<Plan>, k: int) returns (r: Result<Merge, MergeError>)
    ensures r == MergeOf(boundary, retrieve, plans, k)
  {
    hide Put, InBounds, Blank, TableOf, Retrieved;
    if TopKProblem(k).Some? {
      return Err(TopKProblem(k).value);
    }
    var table := EMPTY;
    var count := 0;
    var i := 0;
    NothingRetrieved(retrieve, plans);
    while i < |plans|
      invariant i <= |plans|
      invariant forall j | 0 <= j < i :: InBounds(boundary, retrieve(plans[j].query, plans[j].topK))
      invariant count == |Retrieved(retrieve, plans[..i])|
      invariant TableOf(Retrieved(retrieve, plans[..i])) == Some(table)
    {
      var plan := plans[i];
      var hits := retrieve(plan.query, plan.topK);
      var bound := ResultsMatchBoundary(boundary, hits);
      if !bound {
        return Err(BoundaryViolation);
      }
      count := count + |hits|;
      RetrievedStep(retrieve, plans, i);
      var next := PutHits(plan, hits, table, Retrieved(retrieve, plans[..i]));
      if next.None? {
        RetrievedStops(retrieve, plans, i + 1);
        return Err(BoundaryViolation);
      }
      table := next.value;
      i := i + 1;
    }
    assert plans[..i] == plans;
    assert AllInBounds(boundary, retrieve, plans);
    TableOfIsFor(Retrieved(retrieve, plans));
    var out := MergedHits(table, TopKeys(table, k));
    var bound := ResultsMatchBoundary(boundary, out);
    if !bound {
      return Err(BoundaryViolation);
    }
    r := Ok(Merge(out, InfoOf(|plans|, count, |table.order|, |out|)));
  }

  lemma NothingRetrieved(retrieve: Retriever, plans: seq<Plan>)
    ensures Retrieved(retrieve, plans[..0]) == [] && TableOf([]) == Some(EMPTY)
  {
  }

  lemma RetrievedStep(retrieve: Retriever, plans: seq<Plan>, i: nat)
    requires i < |plans|
    ensures Retrieved(retrieve, plans[..i + 1]) ==
            Retrieved(retrieve, plans[..i]) + TagAll(plans[i], retrieve(plans[i].query, plans[i].topK))
  {
    OneMore(plans, i);
  }

  // ----- what merging means -----

  predicate HitIn(xs: seq<Tagged>, hit: Hit) {
    exists i | 0 <= i < |xs| :: xs[i].hit == hit
  }

  ghost predicate SameHits(xs: seq<Tagged>, ys: seq<Tagged>) {
    forall hit :: HitIn(xs, hit) <==> HitIn(ys, hit)
  }

  ghost predicate ReturnedBy(retrieve: Retriever, plans: seq<Plan>, hit: Hit) {
    exists plan | plan in plans :: hit in retrieve(plan.query, plan.topK)
  }

  lemma HitInAppend(xs: seq<Tagged>, ys: seq<Tagged>, hit: Hit)
    ensures HitIn(xs + ys, hit) <==> HitIn(xs, hit) || HitIn(ys, hit)
  {
    var zs := xs + ys;
    if HitIn(xs, hit) {
      var i :| 0 <= i < |xs| && xs[i].hit == hit;
      assert zs[i].hit == hit;
    }
    if HitIn(ys, hit) {
      var i :| 0 <= i < |ys| && ys[i].hit == hit;
      assert zs[|xs| + i].hit == hit;
    }
  }

  lemma {:induction false} RetrievedHits(retrieve: Retriever, plans: seq<Plan>, hit: Hit)
    ensures HitIn(Retrieved(retrieve, plans), hit) <==> ReturnedBy(retrieve, plans, hit)
  {
    if plans != [] {
      var before, plan := plans[..|plans| - 1], plans[|plans| - 1];
      var hits := retrieve(plan.query, plan.topK);
      RetrievedHits(retrieve, before, hit);
      HitInAppend(Retrieved(retrieve, before), TagAll(plan, hits), hit);
      assert forall p :: p in plans <==> p in before || p == plan;
      if hit in hits {
        var i :| 0 <= i < |hits| && hits[i] == hit;
        assert TagAll(plan, hits)[i].hit == hit;
      }
      assert HitIn(TagAll(plan, hits), hit) <==> hit in hits;
    }
  }

  lemma PlanOrderSameHits(retrieve: Retriever, plans: seq<Plan>, others: seq<Plan>)
    requires multiset(plans) == multiset(others)
    ensures SameHits(Retrieved(retrieve, plans), Retrieved(retrieve, others))
  {
    forall p ensures p in plans <==> p in others {
      assert p in multiset(plans) <==> p in multiset(others);
    }
    forall hit ensures HitIn(Retrieved(retrieve, plans), hit) <==> HitIn(Retrieved(retrieve, others), hit) {
      RetrievedHits(retrieve, plans, hit);
      RetrievedHits(retrieve, others, hit);
    }
  }

  lemma SameHitsFind(xs: seq<Tagged>, ys: seq<Tagged>, i: nat) returns (j: nat)
    requires SameHits(xs, ys) && i < |xs|
    ensures j < |ys| && ys[j].hit == xs[i].hit
  {
    assert HitIn(xs, xs[i].hit);
    j :| 0 <= j < |ys| && ys[j].hit == xs[i].hit;
  }

  lemma SameHitsSameRank(xs: seq<Tagged>, ys: seq<Tagged>, id: string, n: real)
    requires SameHits(xs, ys) && IsBestRank(xs, id, n)
    ensures IsBestRank(ys, id, n)
  {
    if forall i | 0 <= i < |xs| && xs[i].hit.chunk.id == id :: xs[i].hit.rank == 0 {
      forall i | 0 <= i < |ys| && ys[i].hit.chunk.id == id ensures ys[i].hit.rank == 0 {
        var j := SameHitsFind(ys, xs, i);
      }
    } else {
      var i :| 0 <= i < |xs| && xs[i].hit.chunk.id == id && xs[i].hit.rank as real == n;
      var j := SameHitsFind(xs, ys, i);
      forall k | 0 <= k < |ys| && ys[k].hit.chunk.id == id && ys[k].hit.rank != 0 ensures n <= ys[k].hit.rank as real {
        var l := SameHitsFind(ys, xs, k);
      }
    }
  }

  lemma SameHitsSameScore(xs: seq<Tagged>, ys: seq<Tagged>, id: string, score: real)
    requires SameHits(xs, ys) && IsBestScore(xs, id, score)
    ensures IsBestScore(ys, id, score)
  {
    var i :| 0 <= i < |xs| && xs[i].hit.chunk.id == id && xs[i].hit.score == score;
    var j := SameHitsFind(xs, ys, i);
    forall k | 0 <= k < |ys| && ys[k].hit.chunk.id == id ensures ys[k].hit.score <= score {
      var l := SameHitsFind(ys, xs, k);
    }
  }

  lemma SameHitsSameKeys(xs: seq<Tagged>, ys: seq<Tagged>, k: Key)
    requires SameHits(xs, ys) && PlanKeyFor(xs, k)
    ensures PlanKeyFor(ys, k)
  {
    SameHitsSameRank(xs, ys, k.id, k.major);
    SameHitsSameScore(xs, ys, k.id, -k.minor);
  }

  lemma SameHitsConsistent(xs: seq<Tagged>, ys: seq<Tagged>)
    requires SameHits(xs, ys) && Consistent(xs)
    ensures Consistent(ys)
  {
    forall i, j | 0 <= i < j < |ys| && ys[i].hit.chunk.id == ys[j].hit.chunk.id ensures SamePayload(ys[i].hit, ys[j].hit) {
      var a := SameHitsFind(ys, xs, i);
      var b := SameHitsFind(ys, xs, j);
      if a < b {
        assert SamePayload(xs[a].hit, xs[b].hit);
      } else if b < a {
        assert SamePayload(xs[b].hit, xs[a].hit);
      }
    }
  }

  /** The ranking of everything found. */
  ghost predicate IsRanking(xs: seq<Tagged>, ranked: seq<Key>) {
    InOrder(ranked) && forall k :: k in ranked <==> PlanKeyFor(xs, k)
  }

  lemma RankingOfTable(t: Table, xs: seq<Tagged>)
    requires TableFor(t, xs)
    ensures ForTable(t) && IsRanking(xs, Sorted(PlanKeys(t))) && |Sorted(PlanKeys(t))| == |t.order|
  {
    PlanKeysMean(t, xs);
    SortedMeans(PlanKeys(t));
    hide TableFor, PlanKeyFor, DistinctKeys, InOrder, Sorted;
  }

  lemma SameHitsSameRanking(xs: seq<Tagged>, ys: seq<Tagged>, a: seq<Key>, b: seq<Key>)
    requires SameHits(xs, ys) && IsRanking(xs, a) && IsRanking(ys, b)
    ensures a == b
  {
    forall k ensures PlanKeyFor(xs, k) <==> PlanKeyFor(ys, k) {
      if PlanKeyFor(xs, k) { SameHitsSameKeys(xs, ys, k); }
      if PlanKeyFor(ys, k) { SameHitsSameKeys(ys, xs, k); }
    }
    hide PlanKeyFor, InOrder, SameHits;
    OrderIsUnique(a, b);
  }

  lemma KeptIn(t: Table, xs: seq<Tagged>, id: string)
    requires TableFor(t, xs) && id in t.kept
    ensures HitIn(xs, t.kept[id]) && t.kept[id].chunk.id == id
  {
    var i: nat :| FirstBest(xs, t.kept[id], i);
    assert xs[i].hit == t.kept[id];
  }

  lemma AdaptiveNotBlank(s: string)
    ensures !Blank("adaptive_" + s)
  {
    var t := "adaptive_" + s;
    assert t[0] == 'a';
  }

  /** The check of the merged results never fires: whatever the plans returned was inside the boundary. */
  lemma MergedStaysInBounds(boundary: Boundary, retrieve: Retriever, plans: seq<Plan>, t: Table, top: seq<Key>)
    requires AllInBounds(boundary, retrieve, plans) && TableOf(Retrieved(retrieve, plans)) == Some(t)
    requires forall k | k in top :: k.id in t.kept && k.id in t.sources
    ensures InBounds(boundary, MergedHits(t, top))
  {
    hide TableFor, Blank, TableOf, BestSourceRank, Retrieved;
    var xs := Retrieved(retrieve, plans);
    TableMeans(xs);
    var out := MergedHits(t, top);
    if boundary.Bounded? {
      forall i | 0 <= i < |out|
        ensures !Blank(out[i].retriever) && boundary.admits(out[i].chunk, out[i].provenance, out[i].trace.fingerprint)
      {
        var hit := t.kept[top[i].id];
        AdaptiveNotBlank(hit.retriever);
        KeptIn(t, xs, top[i].id);
        HitAdmitted(boundary, retrieve, plans, hit);
      }
    }
  }

  lemma HitAdmitted(boundary: Boundary, retrieve: Retriever, plans: seq<Plan>, hit: Hit)
    requires boundary.Bounded? && AllInBounds(boundary, retrieve, plans) && HitIn(Retrieved(retrieve, plans), hit)
    ensures boundary.admits(hit.chunk, hit.provenance, hit.trace.fingerprint)
  {
    hide Blank, Retrieved;
    RetrievedHits(retrieve, plans, hit);
    var plan :| plan in plans && hit in retrieve(plan.query, plan.topK);
    var results := retrieve(plan.query, plan.topK);
    assert InBounds(boundary, results);
    var j :| 0 <= j < |results| && results[j] == hit;
  }

  /** Main theorem: merging fails exactly on a bad limit, a plan that leaves the boundary, or one chunk ID with
      two payloads. */
  lemma MergeFailsIff(boundary: Boundary, retrieve: Retriever, plans: seq<Plan>, k: int)
    ensures MergeOf(boundary, retrieve, plans, k).Ok? <==>
            0 < k <= MAX_TOP_K && AllInBounds(boundary, retrieve, plans) && Consistent(Retrieved(retrieve, plans))
  {
    var xs := Retrieved(retrieve, plans);
    TableMeans(xs);
    TableOfIsFor(xs);
    hide TableOf, TableFor, InBounds, Retrieved, Consistent, ForTable;
    if 0 < k <= MAX_TOP_K && AllInBounds(boundary, retrieve, plans) && TableOf(xs).Some? {
      var t := TableOf(xs).value;
      MergedStaysInBounds(boundary, retrieve, plans, t, TopKeys(t, k));
    }
  }

  /** Main theorem: the results are exactly the first k chunks found under smallest source rank, then best
      score, then ID; each chunk once, with its payload, its best score and its place. */
  lemma MergeIsTopK(boundary: Boundary, retrieve: Retriever, plans: seq<Plan>, k: int) returns (ranked: seq<Key>)
    requires MergeOf(boundary, retrieve, plans, k).Ok?
    ensures var xs, out := Retrieved(retrieve, plans), MergeOf(boundary, retrieve, plans, k).value.results;
            && IsRanking(xs, ranked)
            && |out| == (if |ranked| <= k then |ranked| else k)
            && forall i | 0 <= i < |out| ::
                 out[i].chunk.id == ranked[i].id && out[i].score == -ranked[i].minor && out[i].rank == i + 1 &&
                 exists hit | HitIn(xs, hit) :: SamePayload(hit, out[i])
    ensures MergeOf(boundary, retrieve, plans, k).value.info ==
            var n := |MergeOf(boundary, retrieve, plans, k).value.results|;
            MergeInfo(|plans|, |Retrieved(retrieve, plans)|, |ranked|, n, |ranked| - n)
  {
    hide TableFor, TableOf, Retrieved, InBounds, AllInBounds, IsRanking, Sorted, BestSourceRank;
    var xs := Retrieved(retrieve, plans);
    TableMeans(xs);
    var t := TableOf(xs).value;
    RankingOfTable(t, xs);
    ranked := Sorted(PlanKeys(t));
    var out := MergeOf(boundary, retrieve, plans, k).value.results;
    SortedAmong(PlanKeys(t));
    forall i | 0 <= i < |out|
      ensures out[i].chunk.id == ranked[i].id && out[i].score == -ranked[i].minor && out[i].rank == i + 1
      ensures exists hit | HitIn(xs, hit) :: SamePayload(hit, out[i])
    {
      var key := ranked[i];
      assert key in PlanKeys(t);
      assert TopKeys(t, k)[i] == key;
      KeptIn(t, xs, key.id);
      assert SamePayload(t.kept[key.id], out[i]);
    }
  }

  /** No two results are one chunk. */
  lemma MergedIdsDiffer(boundary: Boundary, retrieve: Retriever, plans: seq<Plan>, k: int, i: nat, j: nat)
    requires MergeOf(boundary, retrieve, plans, k).Ok?
    requires i < j < |MergeOf(boundary, retrieve, plans, k).value.results|
    ensures var out := MergeOf(boundary, retrieve, plans, k).value.results; out[i].chunk.id != out[j].chunk.id
  {
    var ranked := MergeIsTopK(boundary, retrieve, plans, k);
    hide MergeOf;
    var xs := Retrieved(retrieve, plans);
    assert PlanKeyFor(xs, ranked[i]) && PlanKeyFor(xs, ranked[j]);
    AheadIsOrder(ranked[i], ranked[j], ranked[j]);
    if ranked[i].id == ranked[j].id {
      PlanKeyUnique(xs, ranked[i], ranked[j]);
    }
  }

  datatype Line = Line(chunk: Chunk, provenance: Option<string>, score: real, rank: int)

  function Lines(hits: seq<Hit>): (ls: seq<Line>)
    ensures |ls| == |hits|
    ensures forall i | 0 <= i < |hits| :: ls[i] == Line(hits[i].chunk, hits[i].provenance, hits[i].score, hits[i].rank)
  {
    seq(|hits|, i requires 0 <= i < |hits| => Line(hits[i].chunk, hits[i].provenance, hits[i].score, hits[i].rank))
  }

  function Outline(r: Result<Merge, MergeError>): Result<seq<Line>, MergeError> {
    match r
    case Ok(m) => Ok(Lines(m.results))
    case Err(e) => Err(e)
  }

  lemma InBoundsAnyOrder(boundary: Boundary, retrieve: Retriever, plans: seq<Plan>, others: seq<Plan>)
    requires multiset(plans) == multiset(others) && AllInBounds(boundary, retrieve, plans)
    ensures AllInBounds(boundary, retrieve, others)
  {
    hide InBounds;
    forall plan | plan in others ensures InBounds(boundary, retrieve(plan.query, plan.topK)) {
      assert plan in multiset(plans);
    }
  }

  /** Main theorem: permuting the plans changes neither whether merging fails nor the chunks, payloads, scores
      and ranks it returns. */
  lemma MergeIgnoresPlanOrder(boundary: Boundary, retrieve: Retriever, plans: seq<Plan>, others: seq<Plan>, k: int)
    requires multiset(plans) == multiset(others)
    ensures Outline(MergeOf(boundary, retrieve, plans, k)) == Outline(MergeOf(boundary, retrieve, others, k))
  {
    var xs, ys := Retrieved(retrieve, plans), Retrieved(retrieve, others);
    hide InBounds, TableOf, TableFor, SameHits, Consistent, AllInBounds, MergeOf;
    PlanOrderSameHits(retrieve, plans, others);
    PlanOrderSameHits(retrieve, others, plans);
    if AllInBounds(boundary, retrieve, plans) { InBoundsAnyOrder(boundary, retrieve, plans, others); }
    if AllInBounds(boundary, retrieve, others) { InBoundsAnyOrder(boundary, retrieve, others, plans); }
    if Consistent(xs) { SameHitsConsistent(xs, ys); }
    if Consistent(ys) { SameHitsConsistent(ys, xs); }
    MergeFailsIff(boundary, retrieve, plans, k);
    MergeFailsIff(boundary, retrieve, others, k);
    MergeErrorIs(boundary, retrieve, plans, k);
    MergeErrorIs(boundary, retrieve, others, k);
    if MergeOf(boundary, retrieve, plans, k).Ok? {
      var a := MergeIsTopK(boundary, retrieve, plans, k);
      var b := MergeIsTopK(boundary, retrieve, others, k);
      SameHitsSameRanking(xs, ys, a, b);
      var p, q := MergeOf(boundary, retrieve, plans, k).value.results, MergeOf(boundary, retrieve, others, k).value.results;
      hide IsRanking, Retrieved, HitIn, SamePayload;
      forall i | 0 <= i < |p| ensures SamePayload(p[i], q[i]) {
        PayloadDetermined(xs, ys, p[i], q[i]);
      }
      SameLines(p, q);
    }
  }

  lemma SameLines(p: seq<Hit>, q: seq<Hit>)
    requires |p| == |q|
    requires forall i | 0 <= i < |p| :: SamePayload(p[i], q[i]) && p[i].score == q[i].score && p[i].rank == q[i].rank
    ensures Lines(p) == Lines(q)
  {
  }

  lemma PayloadDetermined(xs: seq<Tagged>, ys: seq<Tagged>, p: Hit, q: Hit)
    requires SameHits(xs, ys) && Consistent(xs) && p.chunk.id == q.chunk.id
    requires exists hit | HitIn(xs, hit) :: SamePayload(hit, p)
    requires exists hit | HitIn(ys, hit) :: SamePayload(hit, q)
    ensures SamePayload(p, q)
  {
    var a :| HitIn(xs, a) && SamePayload(a, p);
    var b :| HitIn(ys, b) && SamePayload(b, q);
    assert HitIn(xs, b);
    var i :| 0 <= i < |xs| && xs[i].hit == a;
    var j :| 0 <= j < |xs| && xs[j].hit == b;
    if i < j { assert SamePayload(xs[i].hit, xs[j].hit); } else if j < i { assert SamePayload(xs[j].hit, xs[i].hit); }
  }

  lemma MergeErrorIs(boundary: Boundary, retrieve: Retriever, plans: seq<Plan>, k: int)
    ensures var r := MergeOf(boundary, retrieve, plans, k);
            r.Err? ==> r.error == if 0 < k <= MAX_TOP_K then BoundaryViolation else BadTopK
  {
    hide InBounds, TableOf, AllInBounds, Retrieved;
  }
}
