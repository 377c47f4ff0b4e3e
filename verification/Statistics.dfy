/** Percentiles and bootstrap intervals over real numbers (legal_rag/evaluation.py). */
module Statistics {
  import opened Common

  // ----- sorting -----

  predicate Ascending(s: seq<real>) {
    forall i, j | 0 <= i < j < |s| :: s[i] <= s[j]
  }

  function Insert(x: real, s: seq<real>): seq<real> {
    if s == [] then [x] else if x <= s[0] then [x] + s else [s[0]] + Insert(x, s[1..])
  }

  /** sorted() */
  function Sorted(s: seq<real>): seq<real> {
    if s == [] then [] else Insert(s[0], Sorted(s[1..]))
  }

  lemma ConsAscends(x: real, s: seq<real>)
    requires Ascending(s) && forall y | y in s :: x <= y
    ensures Ascending([x] + s)
  {
    var all := [x] + s;
    forall i, j | 0 <= i < j < |all| ensures all[i] <= all[j] {
      assert all[j] == s[j - 1] && s[j - 1] in s;
    }
  }

  lemma TailAscends(s: seq<real>)
    requires s != [] && Ascending(s)
    ensures Ascending(s[1..]) && forall y | y in s :: s[0] <= y
  {
  }

  lemma {:induction false} InsertSorts(x: real, s: seq<real>)
    requires Ascending(s)
    ensures Ascending(Insert(x, s)) && |Insert(x, s)| == |s| + 1
    ensures forall y :: y in Insert(x, s) <==> y == x || y in s
  {
    if s == [] {
      assert Insert(x, s) == [x];
    } else {
      TailAscends(s);
      assert s == [s[0]] + s[1..];
      assert forall y :: y in s <==> y == s[0] || y in s[1..];
      if x > s[0] {
        InsertSorts(x, s[1..]);
        hide Ascending;
        ConsAscends(s[0], Insert(x, s[1..]));
      } else {
        hide Ascending;
        ConsAscends(x, s);
      }
    }
  }

  lemma {:induction false} InsertKeeps(x: real, s: seq<real>)
    ensures multiset(Insert(x, s)) == multiset{x} + multiset(s)
  {
    if s != [] {
      assert s == [s[0]] + s[1..];
      InsertKeeps(x, s[1..]);
    }
  }

  lemma {:induction false} SortedSorts(s: seq<real>)
    ensures Ascending(Sorted(s)) && multiset(Sorted(s)) == multiset(s) && |Sorted(s)| == |s|
  {
    hide Insert, Ascending;
    if s != [] {
      SortedSorts(s[1..]);
      InsertSorts(s[0], Sorted(s[1..]));
      InsertKeeps(s[0], Sorted(s[1..]));
      assert s == [s[0]] + s[1..];
    } else {
      NothingAscends();
    }
  }

  lemma NothingAscends()
    ensures Ascending([])
  {
  }

  lemma {:induction false} AscendingUnique(a: seq<real>, b: seq<real>)
    requires Ascending(a) && Ascending(b) && multiset(a) == multiset(b)
    ensures a == b
    decreases |a|
  {
    hide Ascending;
    SameLength(a, b);
    if a != [] {
      TailAscends(a);
      TailAscends(b);
      SameFirst(a, b);
      RestMultiset(a);
      RestMultiset(b);
      AscendingUnique(a[1..], b[1..]);
      assert a == [a[0]] + a[1..] && b == [b[0]] + b[1..];
    }
  }

  lemma SameLength(a: seq<real>, b: seq<real>)
    requires multiset(a) == multiset(b)
    ensures |a| == |b|
  {
    assert |a| == |multiset(a)| == |multiset(b)| == |b|;
  }

  lemma RestMultiset(a: seq<real>)
    requires a != []
    ensures multiset(a[1..]) == multiset(a) - multiset{a[0]}
  {
    assert a == [a[0]] + a[1..];
  }

  lemma SameFirst(a: seq<real>, b: seq<real>)
    requires a != [] && b != [] && multiset(a) == multiset(b)
    requires (forall y | y in a :: a[0] <= y) && forall y | y in b :: b[0] <= y
    ensures a[0] == b[0]
  {
    assert a[0] in multiset(a) && b[0] in multiset(b);
    assert a[0] in b && b[0] in a;
  }

  // ----- arithmetic, kept apart -----

  function Times(x: real, y: real): real { x * y }

  lemma ShareOf(m: real, q: real)
    requires m >= 0.0 && 0.0 <= q <= 1.0
    ensures 0.0 <= Times(m, q) <= m
  {
    assert m * (1.0 - q) >= 0.0;
  }

  lemma TimesGrows(d: real, f: real, g: real)
    requires d >= 0.0 && f <= g
    ensures Times(d, f) <= Times(d, g)
  {
    assert d * (g - f) >= 0.0;
  }

  // ----- percentile -----

  /** The value at a position between 0 and |s| - 1, interpolated between its two neighbours. */
  function Interpolated(s: seq<real>, position: real): real
    requires s != [] && 0.0 <= position <= (|s| - 1) as real
  {
    var lower := position.Floor;
    var upper := if lower + 1 <= |s| - 1 then lower + 1 else |s| - 1;
    s[lower] + Times(s[upper] - s[lower], position - lower as real)
  }

  function Position(n: nat, quantile: real): (p: real)
    requires n > 0 && 0.0 <= quantile <= 1.0
    ensures 0.0 <= p <= (n - 1) as real
  {
    ShareOf((n - 1) as real, quantile);
    Times((n - 1) as real, quantile)
  }

  /** None stands for the refused quantile; an empty list is never refused. */
  function Percentile(values: seq<real>, quantile: real): Option<real> {
    if values == [] then Some(0.0)
    else if !(0.0 <= quantile <= 1.0) then None
    else
      SortedSorts(values);
      Some(Interpolated(Sorted(values), Position(|values|, quantile)))
  }

  lemma PercentileIs(values: seq<real>, quantile: real)
    requires values != [] && 0.0 <= quantile <= 1.0
    ensures Ascending(Sorted(values)) && multiset(Sorted(values)) == multiset(values) && |Sorted(values)| == |values|
    ensures Percentile(values, quantile) == Some(Interpolated(Sorted(values), Position(|values|, quantile)))
  {
    hide Sorted, Interpolated, Position, Ascending;
    SortedSorts(values);
  }

  lemma FractionOf(position: real)
    ensures 0.0 <= position - position.Floor as real <= 1.0
  {
  }

  lemma InterpolatedBetween(s: seq<real>, position: real)
    requires s != [] && Ascending(s) && 0.0 <= position <= (|s| - 1) as real
    ensures 0 <= position.Floor < |s|
    ensures s[position.Floor] <= Interpolated(s, position)
    ensures position.Floor + 1 < |s| ==> Interpolated(s, position) <= s[position.Floor + 1]
    ensures s[0] <= Interpolated(s, position) <= s[|s| - 1]
  {
    hide Times;
    var lower := position.Floor;
    var upper := if lower + 1 <= |s| - 1 then lower + 1 else |s| - 1;
    assert s[lower] <= s[upper];
    FractionOf(position);
    ShareOf(s[upper] - s[lower], position - lower as real);
    assert s[0] <= s[lower] && s[upper] <= s[|s| - 1];
  }

  lemma InterpolatedMonotone(s: seq<real>, p: real, q: real)
    requires s != [] && Ascending(s) && 0.0 <= p <= q <= (|s| - 1) as real
    ensures Interpolated(s, p) <= Interpolated(s, q)
  {
    hide Times;
    InterpolatedBetween(s, p);
    InterpolatedBetween(s, q);
    var i, j := p.Floor, q.Floor;
    if i == j {
      var upper := if i + 1 <= |s| - 1 then i + 1 else |s| - 1;
      TimesGrows(s[upper] - s[i], p - i as real, q - i as real);
    } else {
      hide Interpolated;
      assert i + 1 <= j;
      assert s[i + 1] <= s[j];
    }
  }

  /** Smallest and largest are ends of the sorted list. */
  lemma EndsBound(values: seq<real>, s: seq<real>)
    requires values != [] && Ascending(s) && multiset(s) == multiset(values) && |s| == |values|
    ensures s[0] in values && s[|s| - 1] in values && forall v | v in values :: s[0] <= v <= s[|s| - 1]
  {
    var x, y := s[0], s[|s| - 1];
    assert x in multiset(s) && y in multiset(s);
    forall v | v in values ensures x <= v <= y {
      assert v in multiset(s);
      var k :| 0 <= k < |s| && s[k] == v;
    }
  }

  /** Main theorem: a percentile lies between the smallest and the largest value. */
  lemma PercentileInRange(values: seq<real>, quantile: real) returns (x: real, y: real)
    requires values != [] && 0.0 <= quantile <= 1.0
    ensures x in values && y in values && (forall v | v in values :: x <= v <= y)
    ensures x <= Percentile(values, quantile).value <= y
    ensures quantile == 0.0 ==> Percentile(values, quantile).value == x
    ensures quantile == 1.0 ==> Percentile(values, quantile).value == y
  {
    hide Sorted, Interpolated, Ascending, Percentile;
    PercentileIs(values, quantile);
    var s := Sorted(values);
    EndsBound(values, s);
    InterpolatedBetween(s, Position(|values|, quantile));
    InterpolatedEnds(s);
    x, y := s[0], s[|s| - 1];
  }

  lemma InterpolatedEnds(s: seq<real>)
    requires s != []
    ensures Position(|s|, 0.0) == 0.0 && Interpolated(s, 0.0) == s[0]
    ensures Position(|s|, 1.0) == (|s| - 1) as real && Interpolated(s, (|s| - 1) as real) == s[|s| - 1]
  {
    TimesEnds((|s| - 1) as real);
    var upper := if 1 <= |s| - 1 then 1 else |s| - 1;
    TimesEnds(s[upper] - s[0]);
    TimesEnds(s[|s| - 1] - s[|s| - 1]);
    assert ((|s| - 1) as real).Floor == |s| - 1 && (0.0).Floor == 0;
    hide Times;
    var last := (|s| - 1) as real;
    assert last - last.Floor as real == 0.0;
  }

  lemma TimesEnds(x: real)
    ensures Times(x, 0.0) == 0.0 && Times(x, 1.0) == x
  {
  }

  /** Main theorem: a larger quantile never gives a smaller percentile. */
  lemma PercentileMonotone(values: seq<real>, p: real, q: real)
    requires values != [] && 0.0 <= p <= q <= 1.0
    ensures Percentile(values, p).Some? && Percentile(values, q).Some?
    ensures Percentile(values, p).value <= Percentile(values, q).value
  {
    hide Sorted, Interpolated, Ascending, Percentile, Times;
    PercentileIs(values, p);
    PercentileIs(values, q);
    TimesGrows((|values| - 1) as real, p, q);
    InterpolatedMonotone(Sorted(values), Position(|values|, p), Position(|values|, q));
  }

  /** Main theorem: the order of the values plays no part. */
  lemma PercentileIgnoresOrder(values: seq<real>, others: seq<real>, quantile: real)
    requires multiset(values) == multiset(others)
    ensures Percentile(values, quantile) == Percentile(others, quantile)
  {
    hide Sorted, Interpolated, Ascending, Position;
    assert |values| == |multiset(values)| == |multiset(others)| == |others|;
    if values != [] && 0.0 <= quantile <= 1.0 {
      PercentileIs(values, quantile);
      PercentileIs(others, quantile);
      AscendingUnique(Sorted(values), Sorted(others));
    }
  }

  // ----- bootstrap -----

  datatype BootstrapError = NoResamples | BadConfidence

  predicate ValidDraws(draws: seq<seq<nat>>, n: nat) {
    forall i | 0 <= i < |draws| :: |draws[i]| == n && forall j | 0 <= j < n :: draws[i][j] < n
  }

  function DrawnSum(values: seq<real>, draw: seq<nat>): real
    requires forall j | 0 <= j < |draw| :: draw[j] < |values|
  {
    if draw == [] then 0.0 else values[draw[0]] + DrawnSum(values, draw[1..])
  }

  function Mean(values: seq<real>, draw: seq<nat>): real
    requires values != [] && forall j | 0 <= j < |draw| :: draw[j] < |values|
  {
    DrawnSum(values, draw) / |values| as real
  }

  /** The mean of each resample. */
  function Means(values: seq<real>, draws: seq<seq<nat>>): (means: seq<real>)
    requires values != [] && ValidDraws(draws, |values|)
    ensures |means| == |draws| && forall i | 0 <= i < |draws| :: means[i] == Mean(values, draws[i])
  {
    seq(|draws|, i requires 0 <= i < |draws| => Mean(values, draws[i]))
  }

  function Alpha(confidence: real): real { (1.0 - confidence) / 2.0 }

  function LowerIndex(n: nat, confidence: real): int { Times(n as real, Alpha(confidence)).Floor }

  function UpperIndex(n: nat, confidence: real): int {
    var upper := Times(n as real, 1.0 - Alpha(confidence)).Floor;
    if upper <= n - 1 then upper else n - 1
  }

  lemma BootstrapIndexes(n: nat, confidence: real)
    requires n >= 1 && 0.0 < confidence < 1.0
    ensures 0 <= LowerIndex(n, confidence) <= UpperIndex(n, confidence) <= n - 1
  {
    var alpha, m := Alpha(confidence), n as real;
    assert 0.0 < alpha < 0.5;
    hide Times, Alpha;
    ShareOf(m, alpha);
    TimesGrows(m, alpha, 1.0 - alpha);
    HalfBelow(m, alpha);
  }

  lemma HalfBelow(m: real, alpha: real)
    requires m >= 1.0 && 0.0 < alpha < 0.5
    ensures Times(m, alpha) < m
  {
    assert (1.0 - alpha) * m > 0.0;
  }

  /** bootstrap_ci before rounding, with the random draws as a parameter. */
  function BootstrapInterval(values: seq<real>, draws: seq<seq<nat>>, resamples: int, confidence: real): Result<(real, real), BootstrapError>
    requires |draws| == resamples || resamples < 1 || |values| <= 1
    requires ValidDraws(draws, |values|)
  {
    if resamples < 1 then Err(NoResamples)
    else if !(0.0 < confidence < 1.0) then Err(BadConfidence)
    else if values == [] then Ok((0.0, 0.0))
    else if |values| == 1 then Ok((values[0], values[0]))
    else
      var means := Sorted(Means(values, draws));
      SortedSorts(Means(values, draws));
      BootstrapIndexes(resamples, confidence);
      Ok((means[LowerIndex(resamples, confidence)], means[UpperIndex(resamples, confidence)]))
  }

  lemma {:induction false} SumBetween(values: seq<real>, draw: seq<nat>, lo: real, hi: real)
    requires forall j | 0 <= j < |draw| :: draw[j] < |values|
    requires forall v | v in values :: lo <= v <= hi
    ensures Times(|draw| as real, lo) <= DrawnSum(values, draw) <= Times(|draw| as real, hi)
  {
    if draw != [] {
      hide Times;
      SumBetween(values, draw[1..], lo, hi);
      assert |draw| as real == |draw[1..]| as real + 1.0;
      OneMore(|draw[1..]| as real, lo);
      OneMore(|draw[1..]| as real, hi);
      assert values[draw[0]] in values;
    }
  }

  lemma OneMore(n: real, x: real)
    ensures Times(n + 1.0, x) == Times(n, x) + x
  {
  }

  lemma TimesStrict(n: real, a: real, b: real)
    requires n > 0.0 && a > b
    ensures Times(n, a) > Times(n, b)
  {
    assert n * (a - b) > 0.0;
  }

  lemma Cancel(n: real, a: real, b: real)
    requires n > 0.0 && Times(n, a) <= Times(n, b)
    ensures a <= b
  {
    hide Times;
    if a > b {
      TimesStrict(n, a, b);
    }
  }

  lemma MeanTimes(values: seq<real>, draw: seq<nat>)
    requires values != [] && forall j | 0 <= j < |draw| :: draw[j] < |values|
    ensures Times(|values| as real, Mean(values, draw)) == DrawnSum(values, draw)
  {
    hide DrawnSum;
  }

  lemma MeanBetween(values: seq<real>, draw: seq<nat>, lo: real, hi: real)
    requires values != [] && |draw| == |values| && forall j | 0 <= j < |draw| :: draw[j] < |values|
    requires forall v | v in values :: lo <= v <= hi
    ensures lo <= Mean(values, draw) <= hi
  {
    hide Times, DrawnSum, Mean;
    SumBetween(values, draw, lo, hi);
    MeanTimes(values, draw);
    Cancel(|values| as real, lo, Mean(values, draw));
    Cancel(|values| as real, Mean(values, draw), hi);
  }

  lemma MeansBetween(values: seq<real>, draws: seq<seq<nat>>, lo: real, hi: real)
    requires values != [] && ValidDraws(draws, |values|) && forall v | v in values :: lo <= v <= hi
    ensures forall m | m in Means(values, draws) :: lo <= m <= hi
  {
    hide DrawnSum, Mean;
    forall i | 0 <= i < |draws| ensures lo <= Means(values, draws)[i] <= hi {
      MeanBetween(values, draws[i], lo, hi);
    }
  }

  /** Main theorem: the bounds are ordered and lie within the range of the data. */
  lemma BootstrapWithinData(values: seq<real>, draws: seq<seq<nat>>, resamples: int, confidence: real, lo: real, hi: real)
    requires |draws| == resamples || resamples < 1 || |values| <= 1
    requires ValidDraws(draws, |values|)
    requires values != [] && forall v | v in values :: lo <= v <= hi
    ensures var r := BootstrapInterval(values, draws, resamples, confidence);
            (r.Ok? <==> resamples >= 1 && 0.0 < confidence < 1.0) &&
            (r.Ok? ==> lo <= r.value.0 <= r.value.1 <= hi)
  {
    hide Sorted, Means, LowerIndex, UpperIndex;
    if resamples >= 1 && 0.0 < confidence < 1.0 && |values| > 1 {
      var raw := Means(values, draws);
      var means := Sorted(raw);
      SortedSorts(raw);
      BootstrapIndexes(resamples, confidence);
      MeansBetween(values, draws, lo, hi);
      forall i | 0 <= i < |means| ensures lo <= means[i] <= hi {
        assert means[i] in multiset(means);
        assert means[i] in raw;
      }
    }
    assert values[0] in values;
  }

  // ----- what exactly is returned -----

  /** Main theorem: the percentile at quantile q of n values is the straight line between the two sorted values
      around position (n - 1) q: the share w of the way from the i-th to the next one. */
  lemma PercentileIsLinear(values: seq<real>, quantile: real, s: seq<real>, i: nat, w: real)
    requires values != [] && 0.0 <= quantile <= 1.0 && Ascending(s) && multiset(s) == multiset(values) && |s| == |values|
    requires 0.0 <= w < 1.0 && (|values| - 1) as real * quantile == i as real + w && i < |s|
    ensures i + 1 < |s| ==> Percentile(values, quantile) == Some((1.0 - w) * s[i] + w * s[i + 1])
    ensures w == 0.0 ==> Percentile(values, quantile) == Some(s[i])
  {
    hide Sorted, Percentile, Ascending, Interpolated;
    PercentileIs(values, quantile);
    AscendingUnique(Sorted(values), s);
    assert Position(|values|, quantile) == i as real + w;
    InterpolatedLinear(s, i, w);
  }

  lemma InterpolatedLinear(s: seq<real>, i: nat, w: real)
    requires i < |s| && 0.0 <= w < 1.0 && i as real + w <= (|s| - 1) as real
    ensures i + 1 < |s| ==> Interpolated(s, i as real + w) == (1.0 - w) * s[i] + w * s[i + 1]
    ensures w == 0.0 ==> Interpolated(s, i as real + w) == s[i]
  {
    FloorOf(i, w);
    var upper := if i + 1 <= |s| - 1 then i + 1 else |s| - 1;
    OnTheLine(s[i], s[upper], w);
    hide Times;
  }

  lemma FloorOf(i: nat, w: real)
    requires 0.0 <= w < 1.0
    ensures (i as real + w).Floor == i
  {
  }

  lemma OnTheLine(x: real, y: real, w: real)
    ensures x + Times(y - x, w) == (1.0 - w) * x + w * y
    ensures w == 0.0 ==> x + Times(y - x, w) == x
  {
  }

  /** A mean is what its draws add up to, shared by their number. */
  function Drawn(values: seq<real>, draw: seq<nat>): seq<real>
    requires forall j | 0 <= j < |draw| :: draw[j] < |values|
  {
    seq(|draw|, j requires 0 <= j < |draw| => values[draw[j]])
  }

  function Total(s: seq<real>): real {
    if s == [] then 0.0 else s[0] + Total(s[1..])
  }

  lemma {:induction false} DrawnSumMeans(values: seq<real>, draw: seq<nat>)
    requires forall j | 0 <= j < |draw| :: draw[j] < |values|
    ensures DrawnSum(values, draw) == Total(Drawn(values, draw))
  {
    if draw != [] {
      DrawnSumMeans(values, draw[1..]);
      assert Drawn(values, draw)[1..] == Drawn(values, draw[1..]);
    }
  }

  /** Main theorem: of the sorted means of the resamples, the bounds are the ones at a share of (1 - confidence) / 2
      from either end. */
  lemma BootstrapBounds(values: seq<real>, draws: seq<seq<nat>>, resamples: int, confidence: real, means: seq<real>, k: nat, m: nat)
    requires resamples >= 1 && 0.0 < confidence < 1.0 && |draws| == resamples && |values| > 1 && ValidDraws(draws, |values|)
    requires Ascending(means) && multiset(means) == multiset(Means(values, draws)) && k < |means| && m < |means|
    requires k as real <= resamples as real * ((1.0 - confidence) / 2.0) < k as real + 1.0
    requires m as real <= resamples as real * (1.0 - (1.0 - confidence) / 2.0) < m as real + 1.0
    ensures BootstrapInterval(values, draws, resamples, confidence) == Ok((means[k], means[m]))
    ensures forall i | 0 <= i < |draws| :: |values| as real * Means(values, draws)[i] == Total(Drawn(values, draws[i]))
  {
    hide Sorted, Ascending, DrawnSum, Drawn, Total;
    SortedSorts(Means(values, draws));
    AscendingUnique(Sorted(Means(values, draws)), means);
    assert |means| == resamples by { SameLength(means, Means(values, draws)); }
    BootstrapIndexes(resamples, confidence);
    forall i | 0 <= i < |draws| ensures |values| as real * Means(values, draws)[i] == Total(Drawn(values, draws[i])) {
      MeanTimes(values, draws[i]);
      DrawnSumMeans(values, draws[i]);
    }
    hide Means;
    BoundIndexes(resamples, confidence, k, m);
  }

  lemma BoundIndexes(n: nat, confidence: real, k: nat, m: nat)
    requires n >= 1 && 0.0 < confidence < 1.0
    requires k as real <= n as real * ((1.0 - confidence) / 2.0) < k as real + 1.0
    requires m as real <= n as real * (1.0 - (1.0 - confidence) / 2.0) < m as real + 1.0
    ensures LowerIndex(n, confidence) == k && UpperIndex(n, confidence) == m
  {
    var alpha := (1.0 - confidence) / 2.0;
    assert n as real * alpha > 0.0;
    assert n as real * (1.0 - alpha) == n as real - n as real * alpha;
  }
}
