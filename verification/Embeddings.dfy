/** Embedding responses and the encoder that collects them batch by batch (legal_rag/embeddings.py). */
module Embeddings {
  import opened Common

  datatype Number = Finite(r: real) | NotFinite | NotANumber

  /** index is None when it is not an integer, values when it is not a list. */
  datatype Item = Item(index: Option<int>, values: Option<seq<Number>>)

  type Vector = seq<real>

  predicate ValidVector(item: Item) {
    item.values.Some? && item.values.value != [] && forall i | 0 <= i < |item.values.value| :: item.values.value[i].Finite?
  }

  function VectorOf(item: Item): (v: Vector)
    requires ValidVector(item)
    ensures |v| == |item.values.value|
  {
    seq(|item.values.value|, i requires 0 <= i < |item.values.value| => item.values.value[i].r)
  }

  predicate InRange(item: Item, n: nat) {
    item.index.Some? && 0 <= item.index.value < n
  }

  predicate HasIndex(items: seq<Item>, k: int) {
    exists i | 0 <= i < |items| :: items[i].index == Some(k)
  }

  /** Every index from 0 to n - 1 belongs to exactly one item. */
  predicate PermutesIndexes(items: seq<Item>, n: nat) {
    && |items| == n && (forall i | 0 <= i < n :: InRange(items[i], n))
    && (forall i, j | 0 <= i < j < n :: items[i].index != items[j].index)
    && (forall k | 0 <= k < n :: HasIndex(items, k))
  }

  predicate OneDimension(items: seq<Item>, expected: Option<int>) {
    && (forall i | 0 <= i < |items| :: ValidVector(items[i]))
    && (forall i, j | 0 <= i < j < |items| :: |items[i].values.value| == |items[j].values.value|)
    && (expected.Some? ==> forall i | 0 <= i < |items| :: |items[i].values.value| == expected.value)
  }

  // ----- n different indexes below n are all of them -----

  function Below(n: nat): (s: set<int>)
    ensures forall k :: k in s <==> 0 <= k < n
  {
    if n == 0 then {} else Below(n - 1) + {n - 1}
  }

  lemma {:induction false} BelowCount(n: nat)
    ensures |Below(n)| == n
  {
    if n > 0 {
      BelowCount(n - 1);
    }
  }

  function Indexes(items: seq<Item>): (s: set<int>)
    requires forall i | 0 <= i < |items| :: items[i].index.Some?
    ensures forall k :: k in s <==> HasIndex(items, k)
  {
    set i | 0 <= i < |items| :: items[i].index.value
  }

  lemma HasIndexSnoc(items: seq<Item>, item: Item, k: int)
    ensures HasIndex(items + [item], k) <==> HasIndex(items, k) || item.index == Some(k)
  {
    var all := items + [item];
    if i :| 0 <= i < |items| && items[i].index == Some(k) { assert all[i].index == Some(k); }
    if item.index == Some(k) { assert all[|items|].index == Some(k); }
  }

  lemma {:induction false} IndexCount(items: seq<Item>)
    requires forall i | 0 <= i < |items| :: items[i].index.Some?
    requires forall i, j | 0 <= i < j < |items| :: items[i].index != items[j].index
    ensures |Indexes(items)| == |items|
  {
    if items != [] {
      var n := |items| - 1;
      var init, last := items[..n], items[n];
      assert items == init + [last];
      assert forall i | 0 <= i < n :: init[i] == items[i];
      IndexCount(init);
      forall k ensures HasIndex(items, k) <==> HasIndex(init, k) || last.index == Some(k) {
        HasIndexSnoc(init, last, k);
      }
      assert last.index.value !in Indexes(init);
      hide HasIndex;
      assert Indexes(items) == Indexes(init) + {last.index.value};
    }
  }

  lemma SameCountSame(a: set<int>, b: set<int>)
    requires a <= b && |a| == |b|
    ensures a == b
  {
    assert b == a + (b - a);
  }

  /** Why the check for a missing index can never fire. */
  lemma NoIndexMissing(items: seq<Item>, n: nat)
    requires |items| == n && forall i | 0 <= i < n :: InRange(items[i], n)
    requires forall i, j | 0 <= i < j < n :: items[i].index != items[j].index
    ensures PermutesIndexes(items, n)
  {
    BelowCount(n);
    IndexCount(items);
    SameCountSame(Indexes(items), Below(n));
  }

  // ----- _decode_embedding_response -----

  predicate Decodes(response: Option<seq<Item>>, n: nat, expected: Option<int>) {
    response.Some? && PermutesIndexes(response.value, n) && OneDimension(response.value, expected)
  }

  predicate Placed(items: seq<Item>, vectors: seq<Vector>) {
    forall i | 0 <= i < |items| ::
      InRange(items[i], |vectors|) && ValidVector(items[i]) && vectors[items[i].index.value] == VectorOf(items[i])
  }

  /** The checks on item k, given that those on the items before it passed. */
  predicate ItemAccepted(items: seq<Item>, n: nat, expected: Option<int>, k: nat)
    requires k < |items|
  {
    && InRange(items[k], n) && (forall j | 0 <= j < k :: items[j].index != items[k].index) && ValidVector(items[k])
    && (k > 0 ==> items[0].values.Some? && |items[k].values.value| == |items[0].values.value|)
    && (expected.Some? ==> |items[k].values.value| == expected.value)
  }

  lemma DecodesIffAccepted(items: seq<Item>, n: nat, expected: Option<int>)
    requires |items| == n
    ensures Decodes(Some(items), n, expected) <==> forall k: nat | k < n :: ItemAccepted(items, n, expected, k)
  {
    hide HasIndex;
    if forall k: nat | k < n :: ItemAccepted(items, n, expected, k) {
      forall i, j | 0 <= i < j < n ensures items[i].index != items[j].index {
        assert ItemAccepted(items, n, expected, j);
      }
      forall i | 0 <= i < n
        ensures InRange(items[i], n) && ValidVector(items[i]) && items[0].values.Some?
        ensures |items[i].values.value| == |items[0].values.value| && (expected.Some? ==> |items[i].values.value| == expected.value)
      {
        assert ItemAccepted(items, n, expected, i) && ItemAccepted(items, n, expected, 0);
      }
      NoIndexMissing(items, n);
    }
    if Decodes(Some(items), n, expected) {
      forall k: nat | k < n ensures ItemAccepted(items, n, expected, k) {
      }
    }
  }

  /** What slot s holds after the first i items. */
  function Slot(items: seq<Item>, i: nat, s: int): Option<Vector>
    requires i <= |items|
  {
    if i == 0 then None
    else if items[i - 1].index == Some(s) && ValidVector(items[i - 1]) then Some(VectorOf(items[i - 1]))
    else Slot(items, i - 1, s)
  }

  lemma {:induction false} SlotFilled(items: seq<Item>, n: nat, expected: Option<int>, i: nat, s: int)
    requires i <= |items| && forall k: nat | k < i :: ItemAccepted(items, n, expected, k)
    ensures Slot(items, i, s).Some? <==> exists j | 0 <= j < i :: items[j].index == Some(s)
    ensures forall j | 0 <= j < i && items[j].index == Some(s) ::
              ValidVector(items[j]) && Slot(items, i, s) == Some(VectorOf(items[j]))
  {
    if i > 0 {
      SlotFilled(items, n, expected, i - 1, s);
      assert ItemAccepted(items, n, expected, i - 1);
    }
  }

  /** Decoding succeeds exactly when the indexes are a permutation and all vectors are valid, of one dimension
      and of the expected one; slot k then holds the vector sent with index k. */
  method DecodeEmbeddingResponse(response: Option<seq<Item>>, n: nat, expected: Option<int>) returns (r: Option<seq<Vector>>)
    ensures r.Some? <==> Decodes(response, n, expected)
    ensures r.Some? ==> |r.value| == n && Placed(response.value, r.value)
  {
    if response.None? || |response.value| != n {
      return None;
    }
    var items := response.value;
    DecodesIffAccepted(items, n, expected);
    hide Decodes;
    var slots := new Option<Vector>[n](_ => None);
    var dimension: Option<int> := None;
    var i := 0;
    while i < n
      invariant i <= n
      invariant forall k: nat | k < i :: ItemAccepted(items, n, expected, k)
      invariant forall s | 0 <= s < n :: slots[s] == Slot(items, i, s)
      invariant if i == 0 then dimension == None else items[0].values.Some? && dimension == Some(|items[0].values.value|)
    {
      var item := items[i];
      if !InRange(item, n) {
        assert !ItemAccepted(items, n, expected, i);
        return None;
      }
      SlotFilled(items, n, expected, i, item.index.value);
      if slots[item.index.value].Some? || !ValidVector(item) {
        assert !ItemAccepted(items, n, expected, i);
        return None;
      }
      var vector := VectorOf(item);
      if (dimension.Some? && |vector| != dimension.value) || (expected.Some? && |vector| != expected.value) {
        assert !ItemAccepted(items, n, expected, i);
        return None;
      }
      dimension := Some(|vector|);
      slots[item.index.value] := Some(vector);
      i := i + 1;
    }
    forall s | 0 <= s < n
      ensures slots[s].Some?
      ensures forall j | 0 <= j < n && items[j].index == Some(s) :: ValidVector(items[j]) && slots[s] == Some(VectorOf(items[j]))
    {
      SlotFilled(items, n, expected, n, s);
      AllIndexed(items, n, expected, s);
    }
    hide Slot;
    r := Some(seq(n, s requires 0 <= s < n && slots[s].Some? reads slots => slots[s].value));
    forall j | 0 <= j < n
      ensures InRange(items[j], n) && ValidVector(items[j]) && r.value[items[j].index.value] == VectorOf(items[j])
    {
      assert ItemAccepted(items, n, expected, j);
    }
  }

  lemma AllIndexed(items: seq<Item>, n: nat, expected: Option<int>, s: int)
    requires |items| == n && 0 <= s < n && forall k: nat | k < n :: ItemAccepted(items, n, expected, k)
    ensures exists j | 0 <= j < n :: items[j].index == Some(s)
  {
    DecodesIffAccepted(items, n, expected);
    hide ItemAccepted;
    assert HasIndex(items, s);
  }

  // ----- the encoder -----

  datatype EncodeError = Configuration | CallFailed | InvalidResponse | BadBatchSize

  /** What the provider answers to its k-th call; None when the call fails. */
  type Provider = (nat, seq<string>) -> Result<Option<seq<Item>>, EncodeError>

  class Encoder {
    const provider: Provider
    const prefix: string
    var observed: Option<int>
    var calls: nat
    /** Every vector this encoder ever returned. */
    ghost var returned: seq<Vector>

    ghost predicate Valid()
      reads this
    {
      forall v | v in returned :: observed == Some(|v|)
    }

    constructor (provider: Provider, prefix: string, dimension: Option<int>)
      ensures Valid() && this.provider == provider && this.prefix == prefix && observed == dimension && returned == [] && calls == 0
    {
      this.provider, this.prefix, observed, returned, calls := provider, prefix, dimension, [], 0;
    }

    /** _create_embeddings: a dimension, once known, is kept, and every vector has it. */
    method CreateEmbeddings(texts: seq<string>) returns (r: Result<seq<Vector>, EncodeError>)
      requires Valid()
      modifies this
      ensures Valid() && calls == old(calls) + 1
      ensures old(observed).Some? ==> observed == old(observed)
      ensures r.Ok? <==> provider(old(calls), texts).Ok? && Decodes(provider(old(calls), texts).value, |texts|, old(observed))
      ensures r.Ok? ==> |r.value| == |texts| && Placed(provider(old(calls), texts).value.value, r.value)
      ensures r.Ok? ==> returned == old(returned) + r.value && forall v | v in r.value :: observed == Some(|v|)
      ensures r.Err? ==> returned == old(returned) && observed == old(observed)
    {
      var response := provider(calls, texts);
      calls := calls + 1;
      if response.Err? {
        return Err(response.error);
      }
      var vectors := DecodeEmbeddingResponse(response.value, |texts|, observed);
      if vectors.None? {
        return Err(InvalidResponse);
      }
      SameDimension(response.value.value, vectors.value, observed);
      if vectors.value != [] && observed.None? {
        observed := Some(|vectors.value[0]|);
      }
      returned := returned + vectors.value;
      r := Ok(vectors.value);
    }

    /** encode_documents.  A batch size of zero is refused by range(); a negative one asks for nothing. */
    method EncodeDocuments(texts: seq<string>, batchSize: int) returns (r: Result<seq<Vector>, EncodeError>)
      requires Valid()
      modifies this
      ensures Valid()
      ensures old(observed).Some? ==> observed == old(observed)
      ensures batchSize == 0 ==> r == Err(BadBatchSize)
      ensures batchSize < 0 ==> r == Ok([])
      ensures batchSize > 0 && r.Ok? ==>
                && Encoded(provider, prefix, texts, batchSize, old(calls), r.value)
                && forall v | v in r.value :: observed == Some(|v|)
      ensures batchSize > 0 ==> (r.Ok? <==> AllDecode(provider, prefix, texts, batchSize, old(calls), old(observed)))
    {
      hide Encoded, FromCall, Completes, AllDecode, BatchDecodes, DimensionAfter, FirstBatch, Prefixed, PermutesIndexes, Placed;
      if batchSize == 0 {
        return Err(BadBatchSize);
      }
      if batchSize < 0 {
        return Ok([]);
      }
      var vectors: seq<Vector> := [];
      var start := 0;
      assert texts[0..] == texts;
      CompletesStart(provider, prefix, texts, batchSize, calls);
      while start < |texts|
        invariant start <= |texts| && Valid()
        invariant old(observed).Some? ==> observed == old(observed)
        invariant forall v | v in vectors :: observed == Some(|v|)
        invariant Completes(provider, prefix, texts, batchSize, old(calls), vectors, start, calls)
        invariant AllDecode(provider, prefix, texts, batchSize, old(calls), old(observed)) ==
                  AllDecode(provider, prefix, texts[start..], batchSize, calls, observed)
        decreases |texts| - start
      {
        ghost var call, known := calls, observed;
        var count, answer := EncodeBatch(texts[start..], batchSize);
        DecodeBatch(provider, prefix, texts[start..], batchSize, call, known);
        assert texts[start..][count..] == texts[start + count..];
        if answer.Err? {
          return answer;
        }
        CompletesStep(provider, prefix, texts, batchSize, old(calls), vectors, start, call, answer.value);
        vectors := vectors + answer.value;
        start := start + count;
      }
      CompletesEnd(provider, prefix, texts, batchSize, old(calls), vectors, calls);
      NothingToDecode(provider, prefix, texts[start..], batchSize, calls, observed);
      r := Ok(vectors);
    }

    /** One batch: as many texts as fit, from the front. */
    method EncodeBatch(texts: seq<string>, batchSize: nat) returns (count: nat, r: Result<seq<Vector>, EncodeError>)
      requires Valid() && batchSize > 0 && texts != []
      modifies this
      ensures Valid() && count == FirstBatch(texts, batchSize) && calls == old(calls) + 1
      ensures r.Ok? <==> BatchDecodes(provider, prefix, texts, batchSize, old(calls), old(observed))
      ensures r.Ok? ==> observed == DimensionAfter(provider, prefix, texts, batchSize, old(calls), old(observed))
      ensures old(observed).Some? ==> observed == old(observed)
      ensures r.Ok? ==> |r.value| == count && FromCall(provider, prefix, texts, batchSize, old(calls), r.value)
      ensures r.Ok? ==> forall v | v in r.value :: observed == Some(|v|)
    {
      hide PermutesIndexes, OneDimension, Placed;
      count := FirstBatch(texts, batchSize);
      r := CreateEmbeddings(Prefixed(prefix, texts[..count]));
      if r.Ok? {
        DecodesCount(provider(old(calls), Prefixed(prefix, texts[..count])).value, count, old(observed));
        PlacedFirst(provider(old(calls), Prefixed(prefix, texts[..count])).value.value, r.value);
      }
    }
  }

  lemma DecodesCount(response: Option<seq<Item>>, n: nat, expected: Option<int>)
    requires Decodes(response, n, expected)
    ensures |response.value| == n
  {
  }

  lemma PlacedFirst(items: seq<Item>, vectors: seq<Vector>)
    requires Placed(items, vectors) && items != []
    ensures ValidVector(items[0]) && exists v | v in vectors :: |v| == |items[0].values.value|
  {
    assert vectors[items[0].index.value] in vectors;
  }

  /** The next call answers, and its vectors are as they should be. */
  predicate BatchDecodes(provider: Provider, prefix: string, texts: seq<string>, batchSize: nat, call: nat, dimension: Option<int>)
    requires batchSize > 0
  {
    var batch := Prefixed(prefix, texts[..FirstBatch(texts, batchSize)]);
    provider(call, batch).Ok? && Decodes(provider(call, batch).value, |batch|, dimension)
  }

  /** The dimension that is known after that call. */
  function DimensionAfter(provider: Provider, prefix: string, texts: seq<string>, batchSize: nat, call: nat, dimension: Option<int>): Option<int>
    requires batchSize > 0 && texts != [] && BatchDecodes(provider, prefix, texts, batchSize, call, dimension)
  {
    var batch := Prefixed(prefix, texts[..FirstBatch(texts, batchSize)]);
    if dimension.Some? then dimension else Some(|provider(call, batch).value.value[0].values.value|)
  }

  /** Batch by batch, every call answers with vectors of the dimension known by then. */
  predicate AllDecode(provider: Provider, prefix: string, texts: seq<string>, batchSize: nat, call: nat, dimension: Option<int>)
    requires batchSize > 0
    decreases |texts|
  {
    texts == [] ||
    (BatchDecodes(provider, prefix, texts, batchSize, call, dimension) &&
     AllDecode(provider, prefix, texts[FirstBatch(texts, batchSize)..], batchSize, call + 1,
               DimensionAfter(provider, prefix, texts, batchSize, call, dimension)))
  }

  lemma DecodeBatch(provider: Provider, prefix: string, texts: seq<string>, batchSize: nat, call: nat, dimension: Option<int>)
    requires batchSize > 0 && texts != []
    ensures AllDecode(provider, prefix, texts, batchSize, call, dimension) <==>
            BatchDecodes(provider, prefix, texts, batchSize, call, dimension) &&
            AllDecode(provider, prefix, texts[FirstBatch(texts, batchSize)..], batchSize, call + 1,
                      DimensionAfter(provider, prefix, texts, batchSize, call, dimension))
  {
    hide BatchDecodes, DimensionAfter;
  }

  lemma NothingToDecode(provider: Provider, prefix: string, texts: seq<string>, batchSize: nat, call: nat, dimension: Option<int>)
    requires batchSize > 0 && texts == []
    ensures AllDecode(provider, prefix, texts, batchSize, call, dimension)
  {
  }

  /** Vectors for the texts before start, which any encoding of the others completes. */
  ghost predicate Completes(provider: Provider, prefix: string, texts: seq<string>, batchSize: nat, call0: nat,
                            done: seq<Vector>, start: nat, call: nat)
    requires batchSize > 0 && start <= |texts|
  {
    forall rest: seq<Vector> | Encoded(provider, prefix, texts[start..], batchSize, call, rest) ::
      Encoded(provider, prefix, texts, batchSize, call0, done + rest)
  }

  lemma CompletesStart(provider: Provider, prefix: string, texts: seq<string>, batchSize: nat, call: nat)
    requires batchSize > 0
    ensures Completes(provider, prefix, texts, batchSize, call, [], 0, call)
  {
    hide Encoded;
    assert texts[0..] == texts;
    forall rest: seq<Vector> | Encoded(provider, prefix, texts[0..], batchSize, call, rest)
      ensures Encoded(provider, prefix, texts, batchSize, call, [] + rest)
    {
      assert [] + rest == rest;
    }
  }

  lemma CompletesStep(provider: Provider, prefix: string, texts: seq<string>, batchSize: nat, call0: nat,
                      done: seq<Vector>, start: nat, call: nat, more: seq<Vector>)
    requires batchSize > 0 && start < |texts| && Completes(provider, prefix, texts, batchSize, call0, done, start, call)
    requires FromCall(provider, prefix, texts[start..], batchSize, call, more)
    ensures start + |more| <= |texts|
    ensures Completes(provider, prefix, texts, batchSize, call0, done + more, start + |more|, call + 1)
  {
    hide Encoded, PermutesIndexes, Placed;
    assert texts[start..][|more|..] == texts[start + |more|..];
    forall rest: seq<Vector> | Encoded(provider, prefix, texts[start + |more|..], batchSize, call + 1, rest)
      ensures Encoded(provider, prefix, texts, batchSize, call0, done + more + rest)
    {
      BatchEncoded(provider, prefix, texts[start..], batchSize, call, more, rest);
      assert done + more + rest == done + (more + rest);
    }
  }

  lemma CompletesEnd(provider: Provider, prefix: string, texts: seq<string>, batchSize: nat, call0: nat, done: seq<Vector>, call: nat)
    requires batchSize > 0 && Completes(provider, prefix, texts, batchSize, call0, done, |texts|, call)
    ensures Encoded(provider, prefix, texts, batchSize, call0, done)
  {
    NothingEncoded(provider, prefix, batchSize, call);
    hide Encoded;
    assert texts[|texts|..] == [] && done + [] == done;
  }

  /** The vectors of a whole call for the first batch. */
  ghost predicate FromCall(provider: Provider, prefix: string, texts: seq<string>, batchSize: nat, call: nat, first: seq<Vector>)
    requires batchSize > 0
  {
    && |first| == FirstBatch(texts, batchSize)
    && var batch := Prefixed(prefix, texts[..|first|]);
       provider(call, batch).Ok? && provider(call, batch).value.Some? &&
       PermutesIndexes(provider(call, batch).value.value, |batch|) && Placed(provider(call, batch).value.value, first)
  }

  /** How many texts the next call gets. */
  function FirstBatch(texts: seq<string>, batchSize: nat): (m: nat)
    requires batchSize > 0
    ensures m <= |texts| && (texts != [] ==> m > 0)
  {
    if batchSize < |texts| then batchSize else |texts|
  }

  /** Vectors in the order of the texts: the k-th call embeds the k-th batch, and the vector of a text is the
      one sent with its index in its batch. */
  ghost predicate Encoded(provider: Provider, prefix: string, texts: seq<string>, batchSize: nat, call: nat, vectors: seq<Vector>)
    requires batchSize > 0
    decreases |texts|
  {
    |vectors| == |texts| &&
    (texts != [] ==>
       var m := FirstBatch(texts, batchSize);
       && (forall j: nat | j < m :: EmbeddedBy(provider, Prefixed(prefix, texts[..m]), call, j, vectors[j]))
       && Encoded(provider, prefix, texts[m..], batchSize, call + 1, vectors[m..]))
  }

  lemma NothingEncoded(provider: Provider, prefix: string, batchSize: nat, call: nat)
    requires batchSize > 0
    ensures Encoded(provider, prefix, [], batchSize, call, [])
  {
  }

  lemma BatchEncoded(provider: Provider, prefix: string, texts: seq<string>, batchSize: nat, call: nat, first: seq<Vector>, rest: seq<Vector>)
    requires batchSize > 0 && texts != [] && FromCall(provider, prefix, texts, batchSize, call, first)
    requires Encoded(provider, prefix, texts[|first|..], batchSize, call + 1, rest)
    ensures Encoded(provider, prefix, texts, batchSize, call, first + rest)
  {
    var m := |first|;
    forall j: nat | j < m ensures EmbeddedBy(provider, Prefixed(prefix, texts[..m]), call, j, (first + rest)[j]) {
      PlacedEmbeds(provider, Prefixed(prefix, texts[..m]), call, j, first);
    }
    hide EmbeddedBy, PermutesIndexes, Placed;
    assert (first + rest)[m..] == rest;
  }

  function Prefixed(prefix: string, texts: seq<string>): (prefixed: seq<string>)
    ensures |prefixed| == |texts| && forall i | 0 <= i < |texts| :: prefixed[i] == prefix + texts[i]
  {
    seq(|texts|, i requires 0 <= i < |texts| => prefix + texts[i])
  }

  /** v is the vector the provider sent, in its given call for these texts, with the given index. */
  ghost predicate EmbeddedBy(provider: Provider, texts: seq<string>, call: nat, index: nat, v: Vector) {
    var response := provider(call, texts);
    response.Ok? && response.value.Some? && index < |texts| &&
    exists j | 0 <= j < |response.value.value| ::
      var item := response.value.value[j];
      item.index == Some(index) && ValidVector(item) && VectorOf(item) == v
  }

  lemma PlacedEmbeds(provider: Provider, texts: seq<string>, call: nat, index: nat, vectors: seq<Vector>)
    requires provider(call, texts).Ok? && provider(call, texts).value.Some? && index < |texts| == |vectors|
    requires PermutesIndexes(provider(call, texts).value.value, |texts|) && Placed(provider(call, texts).value.value, vectors)
    ensures EmbeddedBy(provider, texts, call, index, vectors[index])
  {
    var items := provider(call, texts).value.value;
    assert HasIndex(items, index);
    var j :| 0 <= j < |items| && items[j].index == Some(index);
    assert VectorOf(items[j]) == vectors[index];
  }

  lemma SameDimension(items: seq<Item>, vectors: seq<Vector>, expected: Option<int>)
    requires PermutesIndexes(items, |vectors|) && Placed(items, vectors) && OneDimension(items, expected)
    ensures forall v, w | v in vectors && w in vectors :: |v| == |w|
    ensures expected.Some? ==> forall v | v in vectors :: |v| == expected.value
  {
    forall s | 0 <= s < |vectors| ensures |vectors[s]| == |items[0].values.value| {
      assert HasIndex(items, s);
      var i :| 0 <= i < |items| && items[i].index == Some(s);
      assert vectors[s] == VectorOf(items[i]);
      assert i > 0 ==> |items[0].values.value| == |items[i].values.value|;
    }
  }

  // ----- the constructor's checks -----

  /** The dimension an encoder starts with; None as a result when the configuration is refused. */
  function StartDimension(expected: Option<int>, configured: Option<int>): (r: Option<Option<int>>)
    ensures r.None? <==> expected.Some? && (expected.value <= 0 || (configured.Some? && configured != expected))
    ensures r.Some? && expected.Some? ==> r.value == expected
    ensures r.Some? && expected.None? ==> r.value == configured
  {
    if expected.Some? && expected.value <= 0 then None
    else if expected.Some? && configured.Some? && expected.value != configured.value then None
    else Some(if expected.Some? then expected else configured)
  }

  // ----- what was sent -----

  function Numbers(v: Vector): (numbers: seq<Number>)
    ensures |numbers| == |v| && forall i | 0 <= i < |v| :: numbers[i] == Finite(v[i])
  {
    seq(|v|, i requires 0 <= i < |v| => Finite(v[i]))
  }

  /** The item sends one of the vectors, under its place. */
  predicate SendsOne(item: Item, vectors: seq<Vector>) {
    exists k | 0 <= k < |vectors| :: item == Item(Some(k), Some(Numbers(vectors[k])))
  }

  /** Each item sends one of the vectors, and no two items send the same one. */
  predicate Sends(items: seq<Item>, vectors: seq<Vector>) {
    && |items| == |vectors|
    && (forall j | 0 <= j < |items| :: SendsOne(items[j], vectors))
    && (forall i, j | 0 <= i < j < |items| :: items[i].index != items[j].index)
  }

  /** Main theorem: a response is decoded, to these vectors, exactly when it sends them, one for each text, and they have
      one dimension, not zero and the expected one. */
  lemma DecodesMeans(items: seq<Item>, n: nat, expected: Option<int>, vectors: seq<Vector>)
    ensures Decodes(Some(items), n, expected) && |vectors| == n && Placed(items, vectors) <==>
            && Sends(items, vectors) && |vectors| == n
            && (forall v | v in vectors :: v != [] && (expected.Some? ==> |v| == expected.value))
            && (forall v, w | v in vectors && w in vectors :: |v| == |w|)
  {
    if Decodes(Some(items), n, expected) && |vectors| == n && Placed(items, vectors) {
      SentVectors(items, vectors);
      SameDimension(items, vectors, expected);
    }
    if Sends(items, vectors) && |vectors| == n && (forall v | v in vectors :: v != [] && (expected.Some? ==> |v| == expected.value)) {
      forall j | 0 <= j < n
        ensures InRange(items[j], n) && ValidVector(items[j]) && VectorOf(items[j]) == vectors[items[j].index.value]
        ensures vectors[items[j].index.value] in vectors
      {
        assert SendsOne(items[j], vectors);
        var k :| 0 <= k < n && items[j] == Item(Some(k), Some(Numbers(vectors[k])));
        assert vectors[k] in vectors;
      }
      NoIndexMissing(items, n);
    }
  }

  lemma SentVectors(items: seq<Item>, vectors: seq<Vector>)
    requires PermutesIndexes(items, |vectors|) && Placed(items, vectors)
    ensures Sends(items, vectors) && forall v | v in vectors :: v != []
  {
    forall i, j | 0 <= i < j < |items| ensures items[i].index != items[j].index {
    }
    forall j | 0 <= j < |items| ensures SendsOne(items[j], vectors) {
      var k := items[j].index.value;
      assert InRange(items[j], |vectors|) && vectors[k] == VectorOf(items[j]);
      assert items[j].values.value == Numbers(vectors[k]);
      assert items[j] == Item(Some(k), Some(Numbers(vectors[k])));
    }
    forall v | v in vectors ensures v != [] {
      var k :| 0 <= k < |vectors| && vectors[k] == v;
      assert HasIndex(items, k);
    }
  }

  // ----- which call embeds which text -----

  /** The texts of the k-th call. */
  function BatchOf(texts: seq<string>, size: nat, k: nat): seq<string>
    requires k * size <= |texts|
  {
    texts[k * size..if (k + 1) * size < |texts| then (k + 1) * size else |texts|]
  }

  lemma FirstBatchIs(texts: seq<string>, size: nat)
    requires size > 0
    ensures texts[..FirstBatch(texts, size)] == BatchOf(texts, size, 0)
  {
  }

  lemma LaterBatch(texts: seq<string>, size: nat, k: nat)
    requires size > 0 && k > 0 && k * size < |texts|
    ensures var m := FirstBatch(texts, size);
            m == size && (k - 1) * size < |texts[m..]| && BatchOf(texts[m..], size, k - 1) == BatchOf(texts, size, k)
  {
    assert k * size == (k - 1) * size + size && (k + 1) * size == k * size + size;
    assert 0 <= (k - 1) * size;
  }

  lemma PlaceOf(i: nat, size: nat)
    requires size > 0
    ensures i < size ==> i / size == 0 && i % size == i
    ensures i >= size ==> i / size == (i - size) / size + 1 && i % size == (i - size) % size
    ensures i / size * size <= i
  {
    if i >= size {
      var q, r := (i - size) / size, (i - size) % size;
      assert i == (q + 1) * size + r;
      Divided(i, size, q + 1, r);
    }
  }

  lemma Divided(i: nat, size: nat, q: nat, r: nat)
    requires size > 0 && i == q * size + r && r < size
    ensures i / size == q && i % size == r
  {
    var a, b := i / size, i % size;
    assert i == a * size + b;
    SmallMultiple(a - q, size, r - b);
  }

  lemma SmallMultiple(d: int, size: nat, x: int)
    requires d * size == x && 0 < x + size < 2 * size
    ensures d == 0
  {
    if d >= 1 { Multiple(d, size); }
    if d <= -1 { Multiple(0 - d, size); }
  }

  lemma Multiple(d: int, size: nat)
    requires d >= 1
    ensures d * size >= size
  {
    assert (d - 1) * size >= 0;
  }

  /** Main theorem: the vector of the i-th text is the one sent with index i % size by call number i / size, which asks
      for the texts of that batch. */
  lemma {:induction false} EncodedMeans(provider: Provider, prefix: string, texts: seq<string>, size: nat, call: nat, vectors: seq<Vector>, i: nat)
    requires size > 0 && Encoded(provider, prefix, texts, size, call, vectors) && i < |texts|
    ensures |vectors| == |texts| && i / size * size <= i
    ensures EmbeddedBy(provider, Prefixed(prefix, BatchOf(texts, size, i / size)), call + i / size, i % size, vectors[i])
    decreases i
  {
    hide EmbeddedBy, BatchOf;
    PlaceOf(i, size);
    var m := FirstBatch(texts, size);
    if i < size {
      FirstBatchIs(texts, size);
    } else {
      EncodedMeans(provider, prefix, texts[m..], size, call + 1, vectors[m..], i - m);
      LaterBatch(texts, size, i / size);
    }
  }

  /** The dimension demanded of the k-th call: the one given, or else the one the first call had. */
  function Demanded(provider: Provider, prefix: string, texts: seq<string>, size: nat, call: nat, dimension: Option<int>, k: nat): Option<int> {
    if dimension.Some? || k == 0 then dimension
    else match provider(call, Prefixed(prefix, BatchOf(texts, size, 0)))
      case Ok(Some(items)) => if items != [] && items[0].values.Some? then Some(|items[0].values.value|) else None
      case _ => None
  }

  predicate CallDecodes(provider: Provider, prefix: string, texts: seq<string>, size: nat, call: nat, dimension: Option<int>, k: nat)
    requires k * size <= |texts|
  {
    var batch := Prefixed(prefix, BatchOf(texts, size, k));
    && provider(call + k, batch).Ok?
    && Decodes(provider(call + k, batch).value, |batch|, Demanded(provider, prefix, texts, size, call, dimension, k))
  }

  lemma FirstCall(provider: Provider, prefix: string, texts: seq<string>, size: nat, call: nat, dimension: Option<int>)
    requires size > 0 && texts != []
    ensures BatchDecodes(provider, prefix, texts, size, call, dimension) <==> CallDecodes(provider, prefix, texts, size, call, dimension, 0)
    ensures BatchDecodes(provider, prefix, texts, size, call, dimension) ==>
              DimensionAfter(provider, prefix, texts, size, call, dimension).Some?
    ensures BatchDecodes(provider, prefix, texts, size, call, dimension) && size < |texts| ==>
              DimensionAfter(provider, prefix, texts, size, call, dimension) == Demanded(provider, prefix, texts, size, call, dimension, 1)
  {
    FirstBatchIs(texts, size);
    hide PermutesIndexes;
    if BatchDecodes(provider, prefix, texts, size, call, dimension) {
      var batch := Prefixed(prefix, texts[..FirstBatch(texts, size)]);
      DecodesCount(provider(call, batch).value, |batch|, dimension);
    }
  }

  /** Main theorem: encoding succeeds exactly when every call answers for its batch, in one dimension. */
  lemma {:induction false} AllDecodeMeans(provider: Provider, prefix: string, texts: seq<string>, size: nat, call: nat, dimension: Option<int>)
    requires size > 0
    ensures AllDecode(provider, prefix, texts, size, call, dimension) <==>
            forall k: nat | k * size < |texts| :: CallDecodes(provider, prefix, texts, size, call, dimension, k)
    decreases |texts|
  {
    hide CallDecodes, BatchDecodes, DimensionAfter, Demanded, BatchOf;
    if texts != [] {
      FirstCall(provider, prefix, texts, size, call, dimension);
      if BatchDecodes(provider, prefix, texts, size, call, dimension) {
        var m, known := FirstBatch(texts, size), DimensionAfter(provider, prefix, texts, size, call, dimension);
        AllDecodeMeans(provider, prefix, texts[m..], size, call + 1, known);
        forall k: nat | 0 < k && k * size < |texts|
          ensures CallDecodes(provider, prefix, texts, size, call, dimension, k) <==>
                  (k - 1) * size < |texts[m..]| && CallDecodes(provider, prefix, texts[m..], size, call + 1, known, k - 1)
        {
          LaterBatch(texts, size, k);
          LaterCall(provider, prefix, texts, size, call, dimension, k);
        }
        if forall k: nat | k * size < |texts| :: CallDecodes(provider, prefix, texts, size, call, dimension, k) {
          forall k: nat | k * size < |texts[m..]| ensures CallDecodes(provider, prefix, texts[m..], size, call + 1, known, k) {
            assert m == size && (k + 1) * size == k * size + size;
            assert CallDecodes(provider, prefix, texts, size, call, dimension, k + 1);
          }
        }
      } else {
        assert 0 * size < |texts|;
      }
    } else {
      forall k: nat ensures k * size >= 0 {
      }
    }
  }

  lemma LaterCall(provider: Provider, prefix: string, texts: seq<string>, size: nat, call: nat, dimension: Option<int>, k: nat)
    requires size > 0 && k > 0 && k * size < |texts| && BatchDecodes(provider, prefix, texts, size, call, dimension)
    ensures var m, known := FirstBatch(texts, size), DimensionAfter(provider, prefix, texts, size, call, dimension);
            && (k - 1) * size < |texts[m..]|
            && (CallDecodes(provider, prefix, texts, size, call, dimension, k) <==> CallDecodes(provider, prefix, texts[m..], size, call + 1, known, k - 1))
  {
    LaterBatch(texts, size, k);
    FirstCall(provider, prefix, texts, size, call, dimension);
    hide BatchDecodes, DimensionAfter, BatchOf, Decodes;
    assert size < |texts| by { assert k * size >= size; }
    assert Demanded(provider, prefix, texts, size, call, dimension, k) == Demanded(provider, prefix, texts, size, call, dimension, 1);
  }
}
