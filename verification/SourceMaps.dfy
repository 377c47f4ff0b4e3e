/** The checks that tie retrieved results to the evidence they were filtered from
    (legal_rag/chat_artifacts.py, the two mapping validators). */
module SourceMaps {
  import opened Common
  import opened Json
  import opened Turns
  import opened Codecs

  const LETTER_S: CodePoint := 83
  const DIGIT_ZERO: CodePoint := 48

  function Decimal(n: nat): (t: Text)
    ensures t != []
    ensures forall i | 0 <= i < |t| :: DIGIT_ZERO <= t[i] <= DIGIT_ZERO + 9
    ensures n > 0 ==> t[0] != DIGIT_ZERO
    ensures n >= 10 <==> |t| >= 2
  {
    if n < 10 then [DIGIT_ZERO + n] else Decimal(n / 10) + [DIGIT_ZERO + n % 10]
  }

  /** "S" followed by the number. */
  function SourceId(n: nat): Text {
    [LETTER_S] + Decimal(n)
  }

  /** Matches S[1-9][0-9]*. */
  predicate IsSourceId(t: Text) {
    |t| >= 2 && t[0] == LETTER_S && DIGIT_ZERO < t[1] <= DIGIT_ZERO + 9 &&
    forall i | 2 <= i < |t| :: DIGIT_ZERO <= t[i] <= DIGIT_ZERO + 9
  }

  lemma {:induction false} DecimalInjective(m: nat, n: nat)
    requires Decimal(m) == Decimal(n)
    ensures m == n
  {
    if m >= 10 {
      var a, b := Decimal(m / 10), Decimal(n / 10);
      assert Decimal(m) == a + [DIGIT_ZERO + m % 10] && Decimal(n) == b + [DIGIT_ZERO + n % 10];
      assert a == Decimal(m)[..|Decimal(m)| - 1] && b == Decimal(n)[..|Decimal(n)| - 1];
      DecimalInjective(m / 10, n / 10);
      assert Decimal(m)[|a|] == Decimal(n)[|b|];
    }
  }

  lemma SourceIdInjective(m: nat, n: nat)
    requires SourceId(m) == SourceId(n)
    ensures m == n
  {
    assert SourceId(m)[1..] == Decimal(m) && SourceId(n)[1..] == Decimal(n);
    DecimalInjective(m, n);
  }

  /** The trace the evidence filter leaves on a result it keeps. */
  function FilterTrace(original: Text, filtered: Text): Json {
    JObject(map[OriginalSourceId := JString(original), FilteredSourceId := JString(filtered), Allowed := JBool(true)])
  }

  /** A kept result under its new number. */
  function Renumbered(r: SearchResult, rank: nat): SearchResult {
    r.(rank := rank, trace := r.trace[EvidenceFilter := FilterTrace(SourceId(Number(r)), SourceId(rank))])
  }

  /** The number a result's source ID is made of.  Results that can be written have ranks from 1 on; negative
      ranks, which the source would spell with a sign, count as 0 here. */
  function Number(r: SearchResult): nat {
    if r.rank >= 0 then r.rank else 0
  }

  function OriginalId(r: SearchResult): Text {
    SourceId(Number(r))
  }

  // ----- everything was kept -----

  function CountId(results: seq<SearchResult>, id: Text): nat {
    if results == [] then 0 else (if OriginalId(results[0]) == id then 1 else 0) + CountId(results[1..], id)
  }

  /** The loop of _validate_unfiltered_retrieval_mapping: kept results renumbered, rejected IDs collected;
      None when a kept result is not mapped to the next number. */
  function Refiled(results: seq<SearchResult>, sourceMap: map<Text, Text>, kept: nat): Option<(seq<SearchResult>, seq<Text>)> {
    if results == [] then Some(([], []))
    else
      var id := OriginalId(results[0]);
      if id !in sourceMap then
        match Refiled(results[1..], sourceMap, kept)
        case None => None
        case Some((rest, rejected)) => Some((rest, [id] + rejected))
      else if sourceMap[id] != SourceId(kept + 1) then None
      else
        match Refiled(results[1..], sourceMap, kept + 1)
        case None => None
        case Some((rest, rejected)) => Some(([Renumbered(results[0], kept + 1)] + rest, rejected))
  }

  function OrderedUnique(ids: seq<Text>): seq<Text> {
    if ids == [] then []
    else
      var before := OrderedUnique(ids[..|ids| - 1]);
      if ids[|ids| - 1] in before then before else before + [ids[|ids| - 1]]
  }

  /** An ID that several results share may not be mapped. */
  predicate Unambiguous(adaptive: seq<SearchResult>, sourceMap: map<Text, Text>, i: nat)
    requires i < |adaptive|
  {
    CountId(adaptive, OriginalId(adaptive[i])) > 1 ==> OriginalId(adaptive[i]) !in sourceMap
  }

  predicate Found(adaptive: seq<SearchResult>, id: Text) {
    CountId(adaptive, id) > 0
  }

  /** _validate_unfiltered_retrieval_mapping */
  predicate UnfilteredAccepted(adaptive: seq<SearchResult>, results: seq<SearchResult>, sourceMap: map<Text, Text>, rejected: seq<Text>) {
    && (forall i: nat {:trigger Unambiguous(adaptive, sourceMap, i)} | i < |adaptive| :: Unambiguous(adaptive, sourceMap, i))
    && (forall id {:trigger Found(adaptive, id)} | id in sourceMap :: Found(adaptive, id))
    && (forall id | id in rejected :: id !in sourceMap)
    && match Refiled(adaptive, sourceMap, 0)
       case None => false
       case Some((kept, dropped)) => OrderedUnique(dropped) == rejected && kept == results
  }

  /** The validator itself, which fills the expected results and rejections while it walks the evidence. */
  method ValidateUnfiltered(adaptive: seq<SearchResult>, results: seq<SearchResult>, sourceMap: map<Text, Text>,
                            rejected: seq<Text>) returns (ok: bool)
    ensures ok <==> UnfilteredAccepted(adaptive, results, sourceMap, rejected)
  {
    hide SourceId, OriginalId, Renumbered, CountId, OrderedUnique;
    if (exists i: nat | i < |adaptive| :: !Unambiguous(adaptive, sourceMap, i))
       || (exists id | id in sourceMap :: !Found(adaptive, id)) || (exists id | id in rejected :: id in sourceMap)
    {
      return false;
    }
    var expected: seq<SearchResult>, dropped: seq<Text> := [], [];
    var i := 0;
    assert adaptive[0..] == adaptive;
    NothingRefiledYet(adaptive, sourceMap);
    while i < |adaptive|
      invariant i <= |adaptive|
      invariant Refiled(adaptive, sourceMap, 0) == Continued(expected, dropped, Refiled(adaptive[i..], sourceMap, |expected|))
    {
      var id := OriginalId(adaptive[i]);
      assert adaptive[i..][0] == adaptive[i] && adaptive[i..][1..] == adaptive[i + 1..];
      if id !in sourceMap {
        DropFirst(expected, dropped, id, Refiled(adaptive[i + 1..], sourceMap, |expected|));
        dropped := dropped + [id];
      } else if sourceMap[id] != SourceId(|expected| + 1) {
        return false;
      } else {
        var kept := Renumbered(adaptive[i], |expected| + 1);
        KeepFirst(expected, dropped, kept, Refiled(adaptive[i + 1..], sourceMap, |expected| + 1));
        expected := expected + [kept];
      }
      i := i + 1;
    }
    assert adaptive[i..] == [] && expected + [] == expected && dropped + [] == dropped;
    ok := OrderedUnique(dropped) == rejected && expected == results;
  }

  function Continued(expected: seq<SearchResult>, dropped: seq<Text>, rest: Option<(seq<SearchResult>, seq<Text>)>)
    : Option<(seq<SearchResult>, seq<Text>)>
  {
    match rest
    case None => None
    case Some((more, others)) => Some((expected + more, dropped + others))
  }

  lemma NothingRefiledYet(adaptive: seq<SearchResult>, sourceMap: map<Text, Text>)
    ensures Continued([], [], Refiled(adaptive, sourceMap, 0)) == Refiled(adaptive, sourceMap, 0)
  {
    var r := Refiled(adaptive, sourceMap, 0);
    assert r.Some? ==> [] + r.value.0 == r.value.0 && [] + r.value.1 == r.value.1;
  }

  lemma DropFirst(expected: seq<SearchResult>, dropped: seq<Text>, id: Text, rest: Option<(seq<SearchResult>, seq<Text>)>)
    ensures Continued(expected, dropped, Continued([], [id], rest)) == Continued(expected, dropped + [id], rest)
    ensures Continued([], [id], rest) == match rest case None => None case Some((more, others)) => Some((more, [id] + others))
  {
    if rest.Some? {
      assert dropped + ([id] + rest.value.1) == dropped + [id] + rest.value.1;
      assert [] + rest.value.0 == rest.value.0;
    }
  }

  lemma KeepFirst(expected: seq<SearchResult>, dropped: seq<Text>, kept: SearchResult, rest: Option<(seq<SearchResult>, seq<Text>)>)
    ensures Continued(expected, dropped, Continued([kept], [], rest)) == Continued(expected + [kept], dropped, rest)
    ensures Continued([kept], [], rest) == match rest case None => None case Some((more, others)) => Some(([kept] + more, others))
  {
    if rest.Some? {
      assert expected + ([kept] + rest.value.0) == expected + [kept] + rest.value.0;
      assert [] + rest.value.1 == rest.value.1;
    }
  }

  predicate DistinctRanks(results: seq<SearchResult>) {
    forall i, j | 0 <= i < j < |results| :: Number(results[i]) != Number(results[j])
  }

  /** The i-th result's original ID is mapped to number i + 1, and nothing else is mapped. */
  predicate MapsInOrder(results: seq<SearchResult>, sourceMap: map<Text, Text>) {
    && (forall i | 0 <= i < |results| :: OriginalId(results[i]) in sourceMap && sourceMap[OriginalId(results[i])] == SourceId(i + 1))
    && (forall id | id in sourceMap :: exists i | 0 <= i < |results| :: OriginalId(results[i]) == id)
  }

  predicate AllRenumbered(adaptive: seq<SearchResult>, results: seq<SearchResult>) {
    |adaptive| == |results| && forall i | 0 <= i < |adaptive| :: results[i] == Renumbered(adaptive[i], i + 1)
  }

  lemma {:induction false} UniqueOfNone(ids: seq<Text>)
    ensures OrderedUnique(ids) == [] <==> ids == []
  {
    if ids != [] {
      UniqueOfNone(ids[..|ids| - 1]);
    }
  }

  /** Every result is mapped to its place, counting from kept + 1. */
  predicate MappedFrom(adaptive: seq<SearchResult>, sourceMap: map<Text, Text>, kept: nat) {
    forall i | 0 <= i < |adaptive| ::
      OriginalId(adaptive[i]) in sourceMap && sourceMap[OriginalId(adaptive[i])] == SourceId(kept + i + 1)
  }

  lemma MappedCons(adaptive: seq<SearchResult>, sourceMap: map<Text, Text>, kept: nat)
    requires adaptive != []
    ensures MappedFrom(adaptive, sourceMap, kept) <==>
            && OriginalId(adaptive[0]) in sourceMap && sourceMap[OriginalId(adaptive[0])] == SourceId(kept + 1)
            && MappedFrom(adaptive[1..], sourceMap, kept + 1)
  {
    hide SourceId, OriginalId;
    var rest := adaptive[1..];
    if MappedFrom(adaptive, sourceMap, kept) {
      assert OriginalId(adaptive[0]) in sourceMap && sourceMap[OriginalId(adaptive[0])] == SourceId(kept + 0 + 1);
      forall i | 0 <= i < |rest|
        ensures OriginalId(rest[i]) in sourceMap && sourceMap[OriginalId(rest[i])] == SourceId(kept + 1 + i + 1)
      {
        assert rest[i] == adaptive[i + 1] && kept + 1 + i + 1 == kept + (i + 1) + 1;
      }
    }
    if OriginalId(adaptive[0]) in sourceMap && sourceMap[OriginalId(adaptive[0])] == SourceId(kept + 1) && MappedFrom(rest, sourceMap, kept + 1) {
      forall i | 0 <= i < |adaptive|
        ensures OriginalId(adaptive[i]) in sourceMap && sourceMap[OriginalId(adaptive[i])] == SourceId(kept + i + 1)
      {
        if i > 0 {
          assert adaptive[i] == rest[i - 1] && kept + 1 + (i - 1) + 1 == kept + i + 1;
        }
      }
    }
  }

  /** Nothing is dropped exactly when every result is mapped to its place. */
  lemma {:induction false} RefiledAll(adaptive: seq<SearchResult>, sourceMap: map<Text, Text>, kept: nat)
    ensures (Refiled(adaptive, sourceMap, kept).Some? && Refiled(adaptive, sourceMap, kept).value.1 == []) <==>
            MappedFrom(adaptive, sourceMap, kept)
    ensures MappedFrom(adaptive, sourceMap, kept) ==>
              var results := Refiled(adaptive, sourceMap, kept).value.0;
              |results| == |adaptive| && forall i | 0 <= i < |adaptive| :: results[i] == Renumbered(adaptive[i], kept + i + 1)
  {
    hide SourceId, OriginalId, Renumbered;
    if adaptive != [] {
      MappedCons(adaptive, sourceMap, kept);
      RefiledAll(adaptive[1..], sourceMap, kept + 1);
      hide MappedFrom;
      if MappedFrom(adaptive, sourceMap, kept) {
        var results, rest := Refiled(adaptive, sourceMap, kept).value.0, Refiled(adaptive[1..], sourceMap, kept + 1).value.0;
        assert results == [Renumbered(adaptive[0], kept + 1)] + rest;
        forall i | 0 <= i < |adaptive| ensures results[i] == Renumbered(adaptive[i], kept + i + 1) {
          if i > 0 {
            assert rest[i - 1] == Renumbered(adaptive[1..][i - 1], kept + 1 + (i - 1) + 1);
          }
        }
      }
    }
  }

  lemma {:induction false} CountFinds(results: seq<SearchResult>, id: Text)
    ensures CountId(results, id) > 0 <==> exists i | 0 <= i < |results| :: OriginalId(results[i]) == id
  {
    hide OriginalId;
    if results != [] {
      CountFinds(results[1..], id);
      if CountId(results[1..], id) > 0 {
        var i :| 0 <= i < |results[1..]| && OriginalId(results[1..][i]) == id;
        assert OriginalId(results[i + 1]) == id;
      }
      if i :| 0 <= i < |results| && OriginalId(results[i]) == id && i > 0 {
        assert OriginalId(results[1..][i - 1]) == id;
      }
    }
  }

  lemma {:induction false} DistinctOnce(results: seq<SearchResult>)
    requires DistinctRanks(results)
    ensures forall id :: CountId(results, id) <= 1
  {
    if results != [] {
      var rest := results[1..];
      forall i, j | 0 <= i < j < |rest| ensures Number(rest[i]) != Number(rest[j]) {
        assert rest[i] == results[i + 1] && rest[j] == results[j + 1];
      }
      DistinctOnce(rest);
      CountFinds(rest, OriginalId(results[0]));
      forall i | 0 <= i < |rest| ensures OriginalId(rest[i]) != OriginalId(results[0]) {
        assert results[i + 1] == rest[i];
        if OriginalId(rest[i]) == OriginalId(results[0]) {
          SourceIdInjective(Number(rest[i]), Number(results[0]));
        }
      }
    }
  }

  lemma {:induction false} OnceDistinct(results: seq<SearchResult>)
    requires forall id :: CountId(results, id) <= 1
    ensures DistinctRanks(results)
  {
    if results != [] {
      var rest := results[1..];
      forall id ensures CountId(rest, id) <= 1 {
        assert CountId(results, id) <= 1;
      }
      OnceDistinct(rest);
      var id := OriginalId(results[0]);
      assert CountId(results, id) == 1 + CountId(rest, id);
      CountFinds(rest, id);
      forall i, j | 0 <= i < j < |results| ensures Number(results[i]) != Number(results[j]) {
        assert results[j] == rest[j - 1];
        if i > 0 {
          assert results[i] == rest[i - 1];
        } else {
          assert OriginalId(rest[j - 1]) != id;
        }
      }
    }
  }

  ghost predicate NoneTwice(results: seq<SearchResult>) {
    forall id :: CountId(results, id) <= 1
  }

  /** No ID is ambiguous exactly when all ranks differ. */
  lemma CountsAreOne(results: seq<SearchResult>)
    ensures NoneTwice(results) <==> DistinctRanks(results)
  {
    hide CountId, DistinctRanks;
    if DistinctRanks(results) {
      DistinctOnce(results);
    }
    if NoneTwice(results) {
      OnceDistinct(results);
    }
  }

  lemma Occurs(adaptive: seq<SearchResult>)
    ensures forall id :: CountId(adaptive, id) > 0 <==> exists i | 0 <= i < |adaptive| :: OriginalId(adaptive[i]) == id
  {
    forall id ensures CountId(adaptive, id) > 0 <==> exists i | 0 <= i < |adaptive| :: OriginalId(adaptive[i]) == id {
      CountFinds(adaptive, id);
    }
  }

  lemma UnfilteredNeeds(adaptive: seq<SearchResult>, results: seq<SearchResult>, sourceMap: map<Text, Text>)
    requires UnfilteredAccepted(adaptive, results, sourceMap, [])
    ensures DistinctRanks(adaptive) && MapsInOrder(adaptive, sourceMap) && AllRenumbered(adaptive, results)
  {
    hide SourceId, Renumbered, OriginalId, CountId, DistinctRanks, Refiled, OrderedUnique;
    UniqueOfNone(Refiled(adaptive, sourceMap, 0).value.1);
    RefiledAll(adaptive, sourceMap, 0);
    Occurs(adaptive);
    CountsAreOne(adaptive);
    forall i: nat | i < |adaptive| ensures CountId(adaptive, OriginalId(adaptive[i])) <= 1 {
      assert Unambiguous(adaptive, sourceMap, i);
    }
    forall id | id in sourceMap ensures CountId(adaptive, id) > 0 {
      assert Found(adaptive, id);
    }
    forall id ensures CountId(adaptive, id) <= 1 {
      if i :| 0 <= i < |adaptive| && OriginalId(adaptive[i]) == id {
        assert CountId(adaptive, OriginalId(adaptive[i])) <= 1;
      }
    }
  }

  lemma UnfilteredSuffices(adaptive: seq<SearchResult>, results: seq<SearchResult>, sourceMap: map<Text, Text>)
    requires DistinctRanks(adaptive) && MapsInOrder(adaptive, sourceMap) && AllRenumbered(adaptive, results)
    ensures UnfilteredAccepted(adaptive, results, sourceMap, [])
  {
    CountsAreOne(adaptive);
    hide SourceId, Renumbered, OriginalId, CountId, DistinctRanks, Refiled;
    Occurs(adaptive);
    forall id | id in sourceMap ensures CountId(adaptive, id) > 0 {
    }
    RefiledAll(adaptive, sourceMap, 0);
    assert MappedFrom(adaptive, sourceMap, 0);
    var refiled := Refiled(adaptive, sourceMap, 0);
    assert refiled.Some? && refiled.value.1 == [];
    assert refiled.value.0 == results;
    UniqueOfNone(refiled.value.1);
    assert OrderedUnique(refiled.value.1) == [];
    assert forall i | 0 <= i < |adaptive| :: CountId(adaptive, OriginalId(adaptive[i])) <= 1;
    hide OrderedUnique, MapsInOrder, AllRenumbered;
    forall i: nat | i < |adaptive| ensures Unambiguous(adaptive, sourceMap, i) {
      assert CountId(adaptive, OriginalId(adaptive[i])) <= 1;
    }
    forall id | id in sourceMap ensures Found(adaptive, id) {
      assert CountId(adaptive, id) > 0;
    }
  }

  /** Main theorem: without rejected evidence, a source map and result list are accepted exactly when all
      ranks differ, the i-th result is mapped to S(i + 1) and to nothing else, and results are the adaptive
      results renumbered. */
  lemma UnfilteredMeans(adaptive: seq<SearchResult>, results: seq<SearchResult>, sourceMap: map<Text, Text>)
    ensures UnfilteredAccepted(adaptive, results, sourceMap, []) <==>
            DistinctRanks(adaptive) && MapsInOrder(adaptive, sourceMap) && AllRenumbered(adaptive, results)
  {
    if UnfilteredAccepted(adaptive, results, sourceMap, []) {
      UnfilteredNeeds(adaptive, results, sourceMap);
    }
    hide UnfilteredAccepted;
    if DistinctRanks(adaptive) && MapsInOrder(adaptive, sourceMap) && AllRenumbered(adaptive, results) {
      UnfilteredSuffices(adaptive, results, sourceMap);
    }
  }

  // ----- some evidence was rejected -----

  function NumberedIds(n: nat): (ids: set<Text>)
    ensures forall id :: id in ids <==> exists k | 1 <= k <= n :: SourceId(k) == id
  {
    set k | 1 <= k <= n :: SourceId(k)
  }

  predicate FilteredTrace(r: SearchResult, index: nat, sourceMap: map<Text, Text>) {
    && EvidenceFilter in r.trace
    && match Exactly(r.trace[EvidenceFilter], {OriginalSourceId, FilteredSourceId, Allowed})
       case None => false
       case Some(f) =>
         && f[OriginalSourceId].JString? && !Blank(f[OriginalSourceId].text)
         && f[FilteredSourceId] == JString(SourceId(index))
         && f[Allowed] == JBool(true)
         && r.rank == index
         && f[OriginalSourceId].text in sourceMap && sourceMap[f[OriginalSourceId].text] == SourceId(index)
  }

  predicate MergeTraceMatches(trace: map<Key, Json>, sourceMap: map<Text, Text>, rejected: seq<Text>, count: nat) {
    && EvidenceFilter in trace
    && match Exactly(trace[EvidenceFilter], {RejectedOriginalSourceIds, SourceIdMap, ReturnedCount})
       case None => false
       case Some(f) =>
         && ListOf(f[RejectedOriginalSourceIds], TextOf) == Some(rejected)
         && TextMapOf(f[SourceIdMap]) == Some(sourceMap)
         && f[ReturnedCount] == JInt(count)
  }

  /** _validate_scope_filtered_retrieval_mapping.  Two sorted lists, one without duplicates, agree exactly
      when the sets do and the other has no duplicates either. */
  predicate ScopeFilteredAccepted(adaptive: Adaptive, results: seq<SearchResult>, sourceMap: map<Text, Text>, rejected: seq<Text>) {
    && adaptive.results == results
    && sourceMap.Values == NumberedIds(|results|)
    && |sourceMap.Values| == |sourceMap|
    && (forall id | id in rejected :: id !in sourceMap)
    && (forall i | 0 <= i < |results| :: FilteredTrace(results[i], i + 1, sourceMap))
    && MergeTraceMatches(adaptive.mergeTrace, sourceMap, rejected, |results|)
  }

  predicate DistinctTexts(ids: seq<Text>) {
    forall i, j | 0 <= i < j < |ids| :: ids[i] != ids[j]
  }

  /** The i-th ID mapped to number i + 1. */
  function Renumbering(ids: seq<Text>): (m: map<Text, Text>)
    requires DistinctTexts(ids)
    ensures forall id :: id in m <==> id in ids
    ensures forall i | 0 <= i < |ids| :: m[ids[i]] == SourceId(i + 1)
  {
    map i | 0 <= i < |ids| :: ids[i] := SourceId(i + 1)
  }

  /** originals are the IDs the results had before filtering: all different, none rejected, none blank,
      recorded in each result's trace beside its new number, and the source map is exactly the renumbering. */
  predicate FiledAs(originals: seq<Text>, results: seq<SearchResult>, sourceMap: map<Text, Text>, rejected: seq<Text>) {
    && |originals| == |results| && DistinctTexts(originals)
    && (forall i | 0 <= i < |originals| :: originals[i] !in rejected && !Blank(originals[i]))
    && (forall i | 0 <= i < |results| ::
          results[i].rank == i + 1 && EvidenceFilter in results[i].trace &&
          results[i].trace[EvidenceFilter] == FilterTrace(originals[i], SourceId(i + 1)))
    && sourceMap == Renumbering(originals)
  }

  ghost predicate Filed(results: seq<SearchResult>, sourceMap: map<Text, Text>, rejected: seq<Text>) {
    exists originals :: FiledAs(originals, results, sourceMap, rejected)
  }

  // ----- counting -----

  lemma {:induction false} ValuesAtMost(m: map<Text, Text>)
    ensures |m.Values| <= |m|
    decreases |m|
  {
    if m != map[] {
      var k :| k in m;
      var rest := m - {k};
      ValuesAtMost(rest);
      forall v | v in m.Values ensures v in rest.Values + {m[k]} {
        var c :| c in m && m[c] == v;
        assert c != k ==> c in rest && rest[c] == v;
      }
      assert m.Values == rest.Values + {m[k]};
      assert m.Keys == rest.Keys + {k};
    }
  }

  lemma ValueTwice(m: map<Text, Text>, a: Text, b: Text)
    requires a in m && b in m && a != b && m[a] == m[b]
    ensures |m.Values| < |m|
  {
    var rest := m - {a};
    ValuesAtMost(rest);
    forall v | v in m.Values ensures v in rest.Values {
      var k :| k in m && m[k] == v;
      assert (if k == a then b else k) in rest && rest[if k == a then b else k] == v;
    }
    assert m.Values == rest.Values;
    assert m.Keys == rest.Keys + {a};
  }

  /** As many values as keys: no value is used twice. */
  lemma NoValueTwice(m: map<Text, Text>, a: Text, b: Text)
    requires |m.Values| == |m| && a in m && b in m && m[a] == m[b]
    ensures a == b
  {
    if a != b {
      ValueTwice(m, a, b);
    }
  }

  lemma {:induction false} DistinctCount(ids: seq<Text>)
    requires DistinctTexts(ids)
    ensures |set i | 0 <= i < |ids| :: ids[i]| == |ids|
    decreases |ids|
  {
    if ids != [] {
      var n := |ids| - 1;
      DistinctCount(ids[..n]);
      assert forall i | 0 <= i < n :: ids[..n][i] == ids[i];
      assert (set i | 0 <= i < |ids| :: ids[i]) == (set i | 0 <= i < |ids[..n]| :: ids[..n][i]) + {ids[n]};
    }
  }

  lemma {:induction false} NumberedIdsCount(n: nat)
    ensures |NumberedIds(n)| == n
  {
    if n > 0 {
      NumberedIdsCount(n - 1);
      assert NumberedIds(n) == NumberedIds(n - 1) + {SourceId(n)};
      forall k | 1 <= k <= n - 1 ensures SourceId(k) != SourceId(n) {
        if SourceId(k) == SourceId(n) { SourceIdInjective(k, n); }
      }
    }
  }

  lemma FiledMap(originals: seq<Text>, sourceMap: map<Text, Text>)
    requires DistinctTexts(originals)
    requires sourceMap == Renumbering(originals)
    ensures sourceMap.Values == NumberedIds(|originals|) && |sourceMap.Values| == |sourceMap|
  {
    hide SourceId;
    DistinctCount(originals);
    NumberedIdsCount(|originals|);
    assert sourceMap.Keys == set i | 0 <= i < |originals| :: originals[i];
    forall id | id in NumberedIds(|originals|) ensures id in sourceMap.Values {
      var k :| 1 <= k <= |originals| && SourceId(k) == id;
      assert sourceMap[originals[k - 1]] == id;
    }
  }

  function TraceOriginal(r: SearchResult): Text {
    if EvidenceFilter in r.trace && r.trace[EvidenceFilter].JObject? && OriginalSourceId in r.trace[EvidenceFilter].fields
       && r.trace[EvidenceFilter].fields[OriginalSourceId].JString?
    then r.trace[EvidenceFilter].fields[OriginalSourceId].text else []
  }

  function TraceOriginals(results: seq<SearchResult>): (ids: seq<Text>)
    ensures |ids| == |results| && forall i | 0 <= i < |ids| :: ids[i] == TraceOriginal(results[i])
  {
    seq(|results|, i requires 0 <= i < |results| => TraceOriginal(results[i]))
  }

  lemma FilteredTraceIs(r: SearchResult, index: nat, sourceMap: map<Text, Text>)
    ensures FilteredTrace(r, index, sourceMap) <==>
            && EvidenceFilter in r.trace && r.trace[EvidenceFilter] == FilterTrace(TraceOriginal(r), SourceId(index))
            && !Blank(TraceOriginal(r)) && r.rank == index
            && TraceOriginal(r) in sourceMap && sourceMap[TraceOriginal(r)] == SourceId(index)
  {
    hide SourceId, Blank;
    if FilteredTrace(r, index, sourceMap) {
      var f := r.trace[EvidenceFilter].fields;
      assert f == FilterTrace(TraceOriginal(r), SourceId(index)).fields;
    }
  }

  /** A map whose values are the numbers of its keys in a list, and no other, is that renumbering. */
  lemma RenumberingIs(ids: seq<Text>, sourceMap: map<Text, Text>)
    requires sourceMap.Values == NumberedIds(|ids|) && |sourceMap.Values| == |sourceMap|
    requires forall i | 0 <= i < |ids| :: ids[i] in sourceMap && sourceMap[ids[i]] == SourceId(i + 1)
    ensures DistinctTexts(ids)
    ensures sourceMap == Renumbering(ids)
  {
    hide SourceId, Renumbering;
    forall i, j | 0 <= i < j < |ids| ensures ids[i] != ids[j] {
      if ids[i] == ids[j] { SourceIdInjective(i + 1, j + 1); }
    }
    forall id | id in sourceMap ensures id in ids {
      assert sourceMap[id] in sourceMap.Values;
      var k :| 1 <= k <= |ids| && SourceId(k) == sourceMap[id];
      NoValueTwice(sourceMap, id, ids[k - 1]);
    }
    hide NumberedIds, DistinctTexts;
    var m := Renumbering(ids);
    forall id | id in m ensures id in sourceMap && sourceMap[id] == m[id] {
      var i :| 0 <= i < |ids| && ids[i] == id;
    }
    assert m == sourceMap;
  }

  predicate Traced(ids: seq<Text>, results: seq<SearchResult>) {
    |ids| == |results| && forall i | 0 <= i < |results| ::
      results[i].rank == i + 1 && EvidenceFilter in results[i].trace &&
      results[i].trace[EvidenceFilter] == FilterTrace(ids[i], SourceId(i + 1))
  }

  predicate MappedInTurn(ids: seq<Text>, sourceMap: map<Text, Text>) {
    forall i | 0 <= i < |ids| :: !Blank(ids[i]) && ids[i] in sourceMap && sourceMap[ids[i]] == SourceId(i + 1)
  }

  lemma TracesAre(results: seq<SearchResult>, sourceMap: map<Text, Text>)
    ensures (forall i | 0 <= i < |results| :: FilteredTrace(results[i], i + 1, sourceMap)) <==>
            Traced(TraceOriginals(results), results) && MappedInTurn(TraceOriginals(results), sourceMap)
  {
    var ids := TraceOriginals(results);
    hide SourceId, Blank, TraceOriginal, FilteredTrace, FilterTrace;
    forall i | 0 <= i < |results|
      ensures FilteredTrace(results[i], i + 1, sourceMap) <==>
              && EvidenceFilter in results[i].trace && results[i].trace[EvidenceFilter] == FilterTrace(ids[i], SourceId(i + 1))
              && !Blank(ids[i]) && results[i].rank == i + 1
              && ids[i] in sourceMap && sourceMap[ids[i]] == SourceId(i + 1)
    {
      FilteredTraceIs(results[i], i + 1, sourceMap);
    }
  }

  lemma TracedOriginals(ids: seq<Text>, results: seq<SearchResult>)
    requires Traced(ids, results)
    ensures TraceOriginals(results) == ids
  {
    hide SourceId;
    forall i | 0 <= i < |results| ensures TraceOriginal(results[i]) == ids[i] {
      assert results[i].trace[EvidenceFilter] == FilterTrace(ids[i], SourceId(i + 1));
    }
  }

  lemma ScopeFilteredNeeds(adaptive: Adaptive, results: seq<SearchResult>, sourceMap: map<Text, Text>, rejected: seq<Text>)
    requires ScopeFilteredAccepted(adaptive, results, sourceMap, rejected)
    ensures FiledAs(TraceOriginals(results), results, sourceMap, rejected)
  {
    var ids := TraceOriginals(results);
    hide SourceId, Blank, TraceOriginal, MergeTraceMatches, FilteredTrace, FilterTrace, NumberedIds, DistinctTexts, Renumbering;
    TracesAre(results, sourceMap);
    RenumberingIs(ids, sourceMap);
    forall i | 0 <= i < |ids| ensures ids[i] !in rejected && !Blank(ids[i]) {
    }
    hide MappedInTurn, ScopeFilteredAccepted;
  }

  lemma FiledParts(originals: seq<Text>, results: seq<SearchResult>, sourceMap: map<Text, Text>, rejected: seq<Text>)
    requires FiledAs(originals, results, sourceMap, rejected)
    ensures Traced(originals, results) && MappedInTurn(originals, sourceMap)
    ensures forall id | id in rejected :: id !in sourceMap
  {
    hide SourceId, Blank, FilterTrace;
  }

  lemma ScopeFilteredSuffices(adaptive: Adaptive, originals: seq<Text>, results: seq<SearchResult>, sourceMap: map<Text, Text>, rejected: seq<Text>)
    requires FiledAs(originals, results, sourceMap, rejected)
    requires adaptive.results == results && MergeTraceMatches(adaptive.mergeTrace, sourceMap, rejected, |results|)
    ensures ScopeFilteredAccepted(adaptive, results, sourceMap, rejected)
  {
    hide SourceId, Blank, TraceOriginal, MergeTraceMatches, FilteredTrace, FilterTrace, NumberedIds, Renumbering;
    FiledMap(originals, sourceMap);
    FiledParts(originals, results, sourceMap, rejected);
    TracedOriginals(originals, results);
    TracesAre(results, sourceMap);
    hide Traced, MappedInTurn, FiledAs, DistinctTexts;
  }

  /** Main theorem: with rejected evidence, the checks accept exactly the results, source map and merge trace
      of one renumbering of distinct, unrejected original IDs. */
  lemma ScopeFilteredMeans(adaptive: Adaptive, results: seq<SearchResult>, sourceMap: map<Text, Text>, rejected: seq<Text>)
    ensures ScopeFilteredAccepted(adaptive, results, sourceMap, rejected) <==>
            adaptive.results == results && Filed(results, sourceMap, rejected) &&
            MergeTraceMatches(adaptive.mergeTrace, sourceMap, rejected, |results|)
  {
    hide FiledAs, MergeTraceMatches;
    if ScopeFilteredAccepted(adaptive, results, sourceMap, rejected) {
      ScopeFilteredNeeds(adaptive, results, sourceMap, rejected);
    }
    if adaptive.results == results && Filed(results, sourceMap, rejected) &&
       MergeTraceMatches(adaptive.mergeTrace, sourceMap, rejected, |results|)
    {
      var originals :| FiledAs(originals, results, sourceMap, rejected);
      ScopeFilteredSuffices(adaptive, originals, results, sourceMap, rejected);
    }
  }
}
