/** Cutting statute text into chunks (legal_rag/chunking.py). */
module Chunking {
  import opened Common
  import opened Strings

  // ----- sentences -----

  predicate IsTerminator(c: char) { c == '\U{3002}' || c == '\U{FF1B}' || c == ';' }

  /** The end of the first sentence: behind its terminator, or the end of the text. */
  function FirstEnd(text: string): (n: nat)
    requires text != ""
    ensures 0 < n <= |text|
    ensures forall i | 0 <= i < n - 1 :: !IsTerminator(text[i])
    ensures n < |text| ==> IsTerminator(text[n - 1])
  {
    if IsTerminator(text[0]) || |text| == 1 then 1 else 1 + FirstEnd(text[1..])
  }

  /** The non-empty pieces between positions behind a terminator. */
  function Sentences(text: string): (parts: seq<string>)
    ensures forall i | 0 <= i < |parts| :: parts[i] != ""
    decreases |text|
  {
    if text == "" then [] else [text[..FirstEnd(text)]] + Sentences(text[FirstEnd(text)..])
  }

  function Joined(parts: seq<string>): string {
    if parts == [] then "" else parts[0] + Joined(parts[1..])
  }

  lemma {:induction false} SentencesTile(text: string)
    ensures Joined(Sentences(text)) == text
    decreases |text|
  {
    if text != "" {
      SentencesTile(text[FirstEnd(text)..]);
      assert Sentences(text)[1..] == Sentences(text[FirstEnd(text)..]);
    }
  }

  // ----- split_long_text -----

  /** text[start..end] */
  datatype Span = Span(start: nat, end: nat)

  /** The pieces cut so far, and the bounds of what is still being collected. */
  datatype Cutting = Cutting(done: seq<Span>, start: nat, end: nat)

  /** Where the rest begins after a full piece is cut off a text of n characters. */
  function NextStart(n: nat, limit: int, overlap: int): (s: nat)
    ensures s <= n
    ensures n > limit >= 0 ==> (s > 0 <==> overlap < limit)
  {
    var start := if limit - overlap > 0 then limit - overlap else 0;
    if start < n then start else n
  }

  /** The inner loop shortens what it works on exactly when the overlap is smaller than the limit. */
  lemma ProgressIff(current: string, limit: nat, overlap: int)
    requires |current| > limit
    ensures |current[NextStart(|current|, limit, overlap)..]| < |current| <==> overlap < limit
    ensures overlap >= limit ==> current[NextStart(|current|, limit, overlap)..] == current
  {
  }

  /** What the inner loop works on after n rounds, were it to go on. */
  function AfterRounds(current: string, n: nat, limit: int, overlap: int): string
    decreases n
  {
    if n == 0 then current else AfterRounds(current[NextStart(|current|, limit, overlap)..], n - 1, limit, overlap)
  }

  ghost predicate CuttingEnds(current: string, limit: int, overlap: int) {
    exists n: nat :: |AfterRounds(current, n, limit, overlap)| <= limit
  }

  lemma {:induction false} RoundsShorten(current: string, limit: int, overlap: int) returns (n: nat)
    requires limit >= 0 && overlap < limit
    ensures |AfterRounds(current, n, limit, overlap)| <= limit
    decreases |current|
  {
    n := 0;
    if |current| > limit {
      ProgressIff(current, limit, overlap);
      n := RoundsShorten(current[NextStart(|current|, limit, overlap)..], limit, overlap);
      n := n + 1;
    }
  }

  lemma {:induction false} RoundsStandStill(current: string, n: nat, limit: int, overlap: int)
    requires overlap >= limit
    ensures AfterRounds(current, n, limit, overlap) == current
    decreases n
  {
    if n > 0 {
      assert current[NextStart(|current|, limit, overlap)..] == current;
      RoundsStandStill(current, n - 1, limit, overlap);
    }
  }

  /** Main theorem: the inner loop ends, for any limit and overlap, exactly when there is nothing to cut, or the
      limit is not negative and the overlap smaller; a negative limit makes every split go on for ever. */
  lemma CuttingEndsIff(current: string, limit: int, overlap: int)
    ensures CuttingEnds(current, limit, overlap) <==> |current| <= limit || (limit >= 0 && overlap < limit)
  {
    if |current| <= limit {
      assert |AfterRounds(current, 0, limit, overlap)| <= limit;
    } else if limit >= 0 && overlap < limit {
      var n := RoundsShorten(current, limit, overlap);
    } else if limit >= 0 && CuttingEnds(current, limit, overlap) {
      var n: nat :| |AfterRounds(current, n, limit, overlap)| <= limit;
      RoundsStandStill(current, n, limit, overlap);
    }
  }

  function CutLong(c: Cutting, limit: nat, overlap: int): (r: Cutting)
    requires c.start <= c.end && (overlap < limit || c.end - c.start <= limit)
    ensures r.start <= r.end == c.end && r.end - r.start <= limit
    decreases c.end - c.start
  {
    if c.end - c.start <= limit then c
    else
      CutLong(Cutting(c.done + [Span(c.start, c.start + limit)],
                      c.start + NextStart(c.end - c.start, limit, overlap), c.end), limit, overlap)
  }

  function Flushed(c: Cutting): seq<Span> {
    if c.start < c.end then c.done + [Span(c.start, c.end)] else c.done
  }

  /** One sentence of n characters. */
  function Take(c: Cutting, n: nat, limit: nat, overlap: int): (r: Cutting)
    requires c.start <= c.end && (overlap < limit || n <= limit)
    ensures r.start <= r.end == c.end + n
  {
    if c.end - c.start + n <= limit then Cutting(c.done, c.start, c.end + n)
    else CutLong(Cutting(Flushed(c), c.end, c.end + n), limit, overlap)
  }

  predicate NoneLonger(sentences: seq<string>, limit: nat) {
    forall i | 0 <= i < |sentences| :: |sentences[i]| <= limit
  }

  function TakeAll(sentences: seq<string>, limit: nat, overlap: int): (r: Cutting)
    requires overlap < limit || NoneLonger(sentences, limit)
    ensures r.start <= r.end
  {
    if sentences == [] then Cutting([], 0, 0)
    else Take(TakeAll(sentences[..|sentences| - 1], limit, overlap), |sentences[|sentences| - 1]|, limit, overlap)
  }

  function Pieces(text: string, limit: nat, overlap: int): seq<Span>
    requires overlap < limit || NoneLonger(Sentences(text), limit)
  {
    Flushed(TakeAll(Sentences(text), limit, overlap))
  }

  predicate Within(spans: seq<Span>, n: nat) {
    forall i | 0 <= i < |spans| :: spans[i].start <= spans[i].end <= n
  }

  function Texts(text: string, spans: seq<Span>): (parts: seq<string>)
    requires Within(spans, |text|)
    ensures |parts| == |spans| && forall i | 0 <= i < |parts| :: parts[i] == Strip(text[spans[i].start..spans[i].end])
  {
    seq(|spans|, i requires 0 <= i < |spans| => Strip(text[spans[i].start..spans[i].end]))
  }

  lemma TextsSnoc(text: string, spans: seq<Span>, s: Span)
    requires Within(spans, |text|) && s.start <= s.end <= |text|
    ensures Within(spans + [s], |text|)
    ensures Texts(text, spans + [s]) == Texts(text, spans) + [Strip(text[s.start..s.end])]
  {
    hide Strip;
  }

  /** How much text the first n sentences hold. */
  function Length(sentences: seq<string>, n: nat): nat
    requires n <= |sentences|
  {
    if n == 0 then 0 else Length(sentences, n - 1) + |sentences[n - 1]|
  }

  lemma {:induction false} JoinedAppend(a: seq<string>, b: seq<string>)
    ensures Joined(a + b) == Joined(a) + Joined(b)
  {
    if a == [] {
      assert a + b == b;
    } else {
      assert (a + b)[1..] == a[1..] + b;
      JoinedAppend(a[1..], b);
    }
  }

  lemma {:induction false} LengthIsJoined(sentences: seq<string>, n: nat)
    requires n <= |sentences|
    ensures Length(sentences, n) == |Joined(sentences[..n])| <= |Joined(sentences)|
    ensures Joined(sentences)[..Length(sentences, n)] == Joined(sentences[..n])
    ensures n < |sentences| ==>
              (|Joined(sentences)| >= Length(sentences, n) + |sentences[n]| &&
               Joined(sentences)[Length(sentences, n)..Length(sentences, n) + |sentences[n]|] == sentences[n])
  {
    assert sentences == sentences[..n] + sentences[n..];
    JoinedAppend(sentences[..n], sentences[n..]);
    if n > 0 {
      LengthIsJoined(sentences, n - 1);
      assert sentences[..n] == sentences[..n - 1] + [sentences[n - 1]];
      JoinedAppend(sentences[..n - 1], [sentences[n - 1]]);
      assert Joined([sentences[n - 1]]) == sentences[n - 1];
    }
  }

  lemma TakeAllStep(sentences: seq<string>, n: nat, limit: nat, overlap: int)
    requires n < |sentences| && (overlap < limit || NoneLonger(sentences, limit))
    ensures TakeAll(sentences[..n + 1], limit, overlap) == Take(TakeAll(sentences[..n], limit, overlap), |sentences[n]|, limit, overlap)
  {
    assert sentences[..n + 1][..n] == sentences[..n];
  }

  /** The inner loop never ends under a negative limit, nor when a sentence is longer than the limit and the
      overlap is not smaller than it (CuttingEndsIff), so exactly that is excluded. */
  method SplitLongText(text: string, limit: nat, overlap: int) returns (parts: seq<string>)
    requires overlap < limit || NoneLonger(Sentences(text), limit)
    ensures Within(Pieces(text, limit, overlap), |text|)
    ensures parts == Texts(text, Pieces(text, limit, overlap))
  {
    hide Sentences, Strip, Take, TakeAll, Length, Texts, Within, Pieces, Flushed;
    var sentences := Sentences(text);
    parts := [];
    var current := "";
    ghost var cut := Cutting([], 0, 0);
    NothingCut(text, sentences, limit, overlap);
    var i := 0;
    while i < |sentences|
      invariant i <= |sentences|
      invariant cut == TakeAll(sentences[..i], limit, overlap)
      invariant cut.start <= cut.end == Length(sentences, i) <= |text| && Within(cut.done, |text|)
      invariant current == text[cut.start..cut.end]
      invariant parts == Texts(text, cut.done)
    {
      var sentence := sentences[i];
      SentenceAt(text, i);
      TakeAllStep(sentences, i, limit, overlap);
      current, parts, cut := TakeSentence(text, sentence, current, parts, cut, limit, overlap);
      i := i + 1;
    }
    assert sentences[..i] == sentences;
    LastPiece(text, limit, overlap, cut);
    if current != "" {
      parts := parts + [Strip(current)];
    }
  }

  /** The pieces are those cut so far and what is still being collected. */
  lemma LastPiece(text: string, limit: nat, overlap: int, c: Cutting)
    requires overlap < limit || NoneLonger(Sentences(text), limit)
    requires c == TakeAll(Sentences(text), limit, overlap) && c.start <= c.end <= |text| && Within(c.done, |text|)
    ensures Within(Pieces(text, limit, overlap), |text|)
    ensures Texts(text, Pieces(text, limit, overlap)) ==
            Texts(text, c.done) + if text[c.start..c.end] != "" then [Strip(text[c.start..c.end])] else []
  {
    hide Sentences, Strip, TakeAll, Texts;
    if c.start < c.end {
      TextsSnoc(text, c.done, Span(c.start, c.end));
    }
  }

  lemma NothingCut(text: string, sentences: seq<string>, limit: nat, overlap: int)
    requires overlap < limit || NoneLonger(sentences, limit)
    ensures TakeAll(sentences[..0], limit, overlap) == Cutting([], 0, 0) && Length(sentences, 0) == 0
    ensures Within([], |text|) && Texts(text, []) == [] && text[0..0] == ""
  {
  }

  lemma SentenceAt(text: string, n: nat)
    requires n < |Sentences(text)|
    ensures var sentences := Sentences(text);
            && Length(sentences, n + 1) == Length(sentences, n) + |sentences[n]| <= |text|
            && text[Length(sentences, n)..Length(sentences, n) + |sentences[n]|] == sentences[n]
  {
    SentencesTile(text);
    LengthIsJoined(Sentences(text), n);
    hide Sentences;
  }

  /** The body of the sentence loop. */
  method TakeSentence(text: string, sentence: string, current0: string, parts0: seq<string>, ghost cut0: Cutting, limit: nat, overlap: int)
    returns (current: string, parts: seq<string>, ghost cut: Cutting)
    requires overlap < limit || |sentence| <= limit
    requires cut0.start <= cut0.end && cut0.end + |sentence| <= |text| && Within(cut0.done, |text|)
    requires sentence == text[cut0.end..cut0.end + |sentence|] && current0 == text[cut0.start..cut0.end]
    requires parts0 == Texts(text, cut0.done)
    ensures cut == Take(cut0, |sentence|, limit, overlap)
    ensures Within(cut.done, |text|) && current == text[cut.start..cut.end] && parts == Texts(text, cut.done)
  {
    hide Strip;
    current, parts := current0, parts0;
    if |current| + |sentence| <= limit {
      current := current + sentence;
      cut := Cutting(cut0.done, cut0.start, cut0.end + |sentence|);
      return;
    }
    if current != "" {
      TextsSnoc(text, cut0.done, Span(cut0.start, cut0.end));
      parts := parts + [Strip(current)];
    }
    ghost var flushed := Flushed(cut0);
    hide Flushed, CutLong, Texts, Within;
    current, parts, cut := CutSentence(text, sentence, parts, Cutting(flushed, cut0.end, cut0.end + |sentence|), limit, overlap);
  }

  /** The inner loop. */
  method CutSentence(text: string, sentence: string, parts0: seq<string>, ghost cut0: Cutting, limit: nat, overlap: int)
    returns (current: string, parts: seq<string>, ghost cut: Cutting)
    requires overlap < limit || |sentence| <= limit
    requires cut0.start <= cut0.end <= |text| && Within(cut0.done, |text|)
    requires sentence == text[cut0.start..cut0.end] && parts0 == Texts(text, cut0.done)
    ensures cut == CutLong(cut0, limit, overlap)
    ensures Within(cut.done, |text|) && current == text[cut.start..cut.end] && parts == Texts(text, cut.done)
  {
    hide Texts, Within, CutLong, Strip;
    current, parts, cut := sentence, parts0, cut0;
    while |current| > limit
      invariant cut.start <= cut.end == cut0.end && (overlap < limit || cut.end - cut.start <= limit)
      invariant CutLong(cut, limit, overlap) == CutLong(cut0, limit, overlap)
      invariant Within(cut.done, |text|) && current == text[cut.start..cut.end] && parts == Texts(text, cut.done)
      decreases |current|
    {
      var start := NextStart(|current|, limit, overlap);
      TextsSnoc(text, cut.done, Span(cut.start, cut.start + limit));
      CutLongStep(cut, limit, overlap);
      assert current[..limit] == text[cut.start..cut.start + limit];
      assert current[start..] == text[cut.start + start..cut.end];
      parts := parts + [Strip(current[..limit])];
      current := current[start..];
      cut := Cutting(cut.done + [Span(cut.start, cut.start + limit)], cut.start + start, cut.end);
    }
    CutLongStep(cut, limit, overlap);
  }

  lemma CutLongStep(c: Cutting, limit: nat, overlap: int)
    requires c.start <= c.end && (overlap < limit || c.end - c.start <= limit)
    ensures CutLong(c, limit, overlap) ==
            if c.end - c.start <= limit then c
            else CutLong(Cutting(c.done + [Span(c.start, c.start + limit)],
                                 c.start + NextStart(c.end - c.start, limit, overlap), c.end), limit, overlap)
  {
  }

  // ----- what the pieces are -----

  /** How a piece continues the one before it: inside a sentence that is too long, after a full piece, going
      back by the overlap; or at a sentence that would not have fitted any more. */
  ghost predicate Joint(sentences: seq<string>, p: Span, q: Span, limit: nat, overlap: int) {
    || (p.end == p.start + limit && q.start == p.end - overlap && p.end < q.end)
    || (exists k: nat | k < |sentences| ::
          Length(sentences, k) == p.end == q.start && p.end - p.start + |sentences[k]| > limit && p.end < q.end)
  }

  ghost predicate WellCut(sentences: seq<string>, spans: seq<Span>, limit: nat, overlap: int) {
    && (spans != [] ==> spans[0].start == 0)
    && (forall i | 0 <= i < |spans| :: spans[i].start < spans[i].end <= spans[i].start + limit)
    && (forall i | 0 <= i < |spans| - 1 :: Joint(sentences, spans[i], spans[i + 1], limit, overlap))
  }

  lemma WellCutSnoc(sentences: seq<string>, spans: seq<Span>, s: Span, limit: nat, overlap: int)
    requires WellCut(sentences, spans, limit, overlap) && s.start < s.end <= s.start + limit
    requires if spans == [] then s.start == 0 else Joint(sentences, spans[|spans| - 1], s, limit, overlap)
    ensures WellCut(sentences, spans + [s], limit, overlap)
  {
    hide Joint;
    var all := spans + [s];
    forall i | 0 <= i < |all| - 1 ensures Joint(sentences, all[i], all[i + 1], limit, overlap) {
      if i < |spans| - 1 {
        assert Joint(sentences, spans[i], spans[i + 1], limit, overlap);
      }
    }
  }

  lemma WellCutInit(sentences: seq<string>, spans: seq<Span>, limit: nat, overlap: int)
    requires spans != [] && WellCut(sentences, spans, limit, overlap)
    ensures WellCut(sentences, spans[..|spans| - 1], limit, overlap)
  {
    hide Joint;
    var init := spans[..|spans| - 1];
    forall i | 0 <= i < |init| - 1 ensures Joint(sentences, init[i], init[i + 1], limit, overlap) {
      assert Joint(sentences, spans[i], spans[i + 1], limit, overlap);
    }
  }

  /** Growing the piece still being collected keeps its joint. */
  lemma JointGrows(sentences: seq<string>, p: Span, q: Span, end: nat, limit: nat, overlap: int)
    requires Joint(sentences, p, q, limit, overlap) && end >= q.end
    ensures Joint(sentences, p, Span(q.start, end), limit, overlap)
  {
    if k: nat :| k < |sentences| && Length(sentences, k) == p.end == q.start && p.end - p.start + |sentences[k]| > limit && p.end < q.end {
      assert Length(sentences, k) == p.end == q.start && p.end - p.start + |sentences[k]| > limit && p.end < end;
    }
  }

  lemma {:induction false} CutLongWell(sentences: seq<string>, c: Cutting, limit: nat, overlap: int)
    requires 0 <= overlap < limit && c.start < c.end && WellCut(sentences, c.done, limit, overlap)
    requires if c.done == [] then c.start == 0 else
             forall end | c.done[|c.done| - 1].end < end :: Joint(sentences, c.done[|c.done| - 1], Span(c.start, end), limit, overlap)
    requires c.done != [] ==> c.done[|c.done| - 1].end < c.start + limit && c.done[|c.done| - 1].end < c.end
    ensures WellCut(sentences, Flushed(CutLong(c, limit, overlap)), limit, overlap)
    ensures CutLong(c, limit, overlap).start < c.end
    decreases c.end - c.start
  {
    hide Joint;
    if c.end - c.start <= limit {
      WellCutSnoc(sentences, c.done, Span(c.start, c.end), limit, overlap);
    } else {
      var full := Span(c.start, c.start + limit);
      WellCutSnoc(sentences, c.done, full, limit, overlap);
      var next := Cutting(c.done + [full], c.start + NextStart(c.end - c.start, limit, overlap), c.end);
      forall end | full.end < end ensures Joint(sentences, full, Span(next.start, end), limit, overlap) {
        LongJoint(sentences, full, Span(next.start, end), limit, overlap);
      }
      CutLongWell(sentences, next, limit, overlap);
    }
  }

  lemma LongJoint(sentences: seq<string>, p: Span, q: Span, limit: nat, overlap: int)
    requires p.end == p.start + limit && q.start == p.end - overlap && p.end < q.end
    ensures Joint(sentences, p, q, limit, overlap)
  {
  }

  lemma SentenceJoint(sentences: seq<string>, k: nat, p: Span, q: Span, limit: nat, overlap: int)
    requires k < |sentences| && Length(sentences, k) == p.end == q.start && p.end - p.start + |sentences[k]| > limit && p.end < q.end
    ensures Joint(sentences, p, q, limit, overlap)
  {
  }

  /** The state between two sentences. */
  ghost predicate Between(sentences: seq<string>, n: nat, c: Cutting, limit: nat, overlap: int)
    requires n <= |sentences|
  {
    && c.end == Length(sentences, n) && WellCut(sentences, Flushed(c), limit, overlap)
    && (if n == 0 then c.done == [] && c.start == 0 else c.start < c.end)
  }

  lemma TakeExtends(sentences: seq<string>, n: nat, c: Cutting, m: nat, limit: nat, overlap: int)
    requires n <= |sentences| && c.start <= c.end && 0 < c.end + m <= c.start + limit && m > 0
    requires Between(sentences, n, c, limit, overlap)
    ensures WellCut(sentences, c.done + [Span(c.start, c.end + m)], limit, overlap)
  {
    var flushed := Flushed(c);
    hide Joint, Length;
    if n > 0 {
      assert flushed == c.done + [Span(c.start, c.end)];
      assert flushed[..|flushed| - 1] == c.done;
      WellCutInit(sentences, flushed, limit, overlap);
      if c.done != [] {
        var p := c.done[|c.done| - 1];
        assert flushed[|flushed| - 2] == p;
        assert Joint(sentences, flushed[|flushed| - 2], flushed[|flushed| - 2 + 1], limit, overlap);
        JointGrows(sentences, p, Span(c.start, c.end), c.end + m, limit, overlap);
      }
    }
    hide Flushed;
    WellCutSnoc(sentences, c.done, Span(c.start, c.end + m), limit, overlap);
  }

  lemma TakeCuts(sentences: seq<string>, n: nat, c: Cutting, limit: nat, overlap: int)
    requires 0 <= overlap < limit && n < |sentences| && sentences[n] != "" && c.start <= c.end
    requires Between(sentences, n, c, limit, overlap) && c.end - c.start + |sentences[n]| > limit
    ensures var cut := CutLong(Cutting(Flushed(c), c.end, c.end + |sentences[n]|), limit, overlap);
            WellCut(sentences, Flushed(cut), limit, overlap) && cut.start < cut.end
  {
    hide Joint, WellCut;
    if n > 0 {
      var p := Span(c.start, c.end);
      forall end | p.end < end ensures Joint(sentences, p, Span(c.end, end), limit, overlap) {
        SentenceJoint(sentences, n, p, Span(c.end, end), limit, overlap);
      }
    }
    CutLongWell(sentences, Cutting(Flushed(c), c.end, c.end + |sentences[n]|), limit, overlap);
    hide CutLong;
  }

  lemma TakeWell(sentences: seq<string>, n: nat, c: Cutting, limit: nat, overlap: int)
    requires 0 <= overlap < limit && n < |sentences| && sentences[n] != "" && c.start <= c.end
    requires Between(sentences, n, c, limit, overlap)
    ensures Between(sentences, n + 1, Take(c, |sentences[n]|, limit, overlap), limit, overlap)
  {
    hide WellCut, CutLong, Joint;
    if c.end - c.start + |sentences[n]| <= limit {
      TakeExtends(sentences, n, c, |sentences[n]|, limit, overlap);
    } else {
      TakeCuts(sentences, n, c, limit, overlap);
    }
  }

  lemma {:induction false} TakeAllWell(sentences: seq<string>, n: nat, limit: nat, overlap: int)
    requires 0 <= overlap < limit && n <= |sentences| && forall i | 0 <= i < |sentences| :: sentences[i] != ""
    ensures Between(sentences, n, TakeAll(sentences[..n], limit, overlap), limit, overlap)
  {
    if n > 0 {
      TakeAllWell(sentences, n - 1, limit, overlap);
      TakeAllStep(sentences, n - 1, limit, overlap);
      TakeWell(sentences, n - 1, TakeAll(sentences[..n - 1], limit, overlap), limit, overlap);
      hide Between, TakeAll;
    }
  }

  /** Main theorem: with an overlap smaller than the limit, the pieces start at the beginning, end at the end,
      have between one and limit characters, and each continues the one before it in one of the two ways of
      Joint: nothing is skipped, at most overlap characters repeat, and every piece brings new text. */
  lemma SplitIsWellCut(text: string, limit: nat, overlap: int)
    requires 0 <= overlap < limit
    ensures var pieces := Pieces(text, limit, overlap);
            && WellCut(Sentences(text), pieces, limit, overlap)
            && (if text == "" then pieces == [] else pieces != [] && pieces[|pieces| - 1].end == |text|)
            && forall i | 0 <= i < |pieces| - 1 ::
                 pieces[i].end - overlap <= pieces[i + 1].start <= pieces[i].end < pieces[i + 1].end
  {
    var sentences := Sentences(text);
    var n := |sentences|;
    SentencesTile(text);
    TakeAllWell(sentences, n, limit, overlap);
    assert sentences[..n] == sentences;
    LengthIsJoined(sentences, n);
    var pieces := Pieces(text, limit, overlap);
    hide TakeAll, Sentences, Joined, Length;
    forall i | 0 <= i < |pieces| - 1
      ensures pieces[i].end - overlap <= pieces[i + 1].start <= pieces[i].end < pieces[i + 1].end
    {
      assert Joint(sentences, pieces[i], pieces[i + 1], limit, overlap);
    }
  }

  /** What each piece adds to those before it. */
  function Reassembled(text: string, spans: seq<Span>): string
    requires Within(spans, |text|)
    requires forall i | 0 <= i < |spans| - 1 :: spans[i].end <= spans[i + 1].end
  {
    if spans == [] then ""
    else
      var last := |spans| - 1;
      Reassembled(text, spans[..last]) + text[(if last == 0 then 0 else spans[last - 1].end)..spans[last].end]
  }

  lemma {:induction false} ReassembledIsPrefix(text: string, spans: seq<Span>)
    requires Within(spans, |text|) && forall i | 0 <= i < |spans| - 1 :: spans[i].end <= spans[i + 1].end
    ensures Reassembled(text, spans) == text[..if spans == [] then 0 else spans[|spans| - 1].end]
  {
    if spans != [] {
      var last := |spans| - 1;
      ReassembledIsPrefix(text, spans[..last]);
      var from0 := if last == 0 then 0 else spans[last - 1].end;
      assert last > 0 ==> spans[last - 1].end <= spans[last - 1 + 1].end;
      assert from0 <= spans[last].end <= |text|;
      assert text[..from0] + text[from0..spans[last].end] == text[..spans[last].end];
      assert Reassembled(text, spans[..last]) == text[..from0];
      hide Reassembled;
      ReassembledSnoc(text, spans);
    }
  }

  lemma ReassembledSnoc(text: string, spans: seq<Span>)
    requires spans != [] && Within(spans, |text|) && forall i | 0 <= i < |spans| - 1 :: spans[i].end <= spans[i + 1].end
    ensures var last := |spans| - 1;
            Reassembled(text, spans) == Reassembled(text, spans[..last]) + text[(if last == 0 then 0 else spans[last - 1].end)..spans[last].end]
  {
  }

  /** Dropping what a piece repeats and joining the rest gives back the text. */
  lemma SplitLosesNothing(text: string, limit: nat, overlap: int)
    requires 0 <= overlap < limit
    ensures var pieces := Pieces(text, limit, overlap);
            && Within(pieces, |text|) && (forall i | 0 <= i < |pieces| - 1 :: pieces[i].end <= pieces[i + 1].end)
            && Reassembled(text, pieces) == text
  {
    hide Pieces, Joint, Sentences, Reassembled;
    SplitIsWellCut(text, limit, overlap);
    var pieces := Pieces(text, limit, overlap);
    EndsGrow(pieces);
    hide WellCut;
    ReassembledIsPrefix(text, pieces);
  }

  lemma {:induction false} EndsGrow(spans: seq<Span>)
    requires forall i | 0 <= i < |spans| - 1 :: spans[i].end < spans[i + 1].end
    ensures forall i | 0 <= i < |spans| :: spans[i].end <= spans[|spans| - 1].end
    decreases |spans|
  {
    if |spans| > 1 {
      EndsGrow(spans[..|spans| - 1]);
      var n := |spans| - 2;
      assert spans[n].end < spans[n + 1].end;
    }
  }

  // ----- when text is lost -----

  predicate HasGap(spans: seq<Span>) {
    exists i | 0 <= i < |spans| - 1 :: spans[i].end < spans[i + 1].start
  }

  /** From the first character to the last without a gap. */
  predicate Covers(spans: seq<Span>, n: nat) {
    if n == 0 then spans == []
    else spans != [] && spans[0].start == 0 && spans[|spans| - 1].end == n && !HasGap(spans)
  }

  predicate Broken(c: Cutting) {
    HasGap(c.done) || (c.done != [] && c.done[|c.done| - 1].end < c.start)
  }

  lemma GapStays(spans: seq<Span>, s: Span)
    ensures HasGap(spans) || (spans != [] && spans[|spans| - 1].end < s.start) ==> HasGap(spans + [s])
  {
    var all := spans + [s];
    if i :| 0 <= i < |spans| - 1 && spans[i].end < spans[i + 1].start {
      assert all[i].end < all[i + 1].start;
    }
    if spans != [] && spans[|spans| - 1].end < s.start {
      assert all[|spans| - 1].end < all[|spans| - 1 + 1].start;
    }
  }

  lemma {:induction false} CutLongStaysBroken(c: Cutting, limit: nat, overlap: int)
    requires c.start <= c.end && overlap < limit && Broken(c)
    ensures Broken(CutLong(c, limit, overlap))
    decreases c.end - c.start
  {
    if c.end - c.start > limit {
      GapStays(c.done, Span(c.start, c.start + limit));
      CutLongStaysBroken(Cutting(c.done + [Span(c.start, c.start + limit)], c.start + NextStart(c.end - c.start, limit, overlap), c.end),
                         limit, overlap);
    }
  }

  lemma TakeBreaks(c: Cutting, n: nat, limit: nat, overlap: int)
    requires c.start <= c.end && overlap < limit && (Broken(c) || (n > limit && overlap < 0))
    ensures Broken(Take(c, n, limit, overlap))
  {
    if c.end - c.start + n > limit {
      GapStays(c.done, Span(c.start, c.end));
      if n > limit && overlap < 0 {
        var full := Span(c.end, c.end + limit);
        CutLongStaysBroken(Cutting(Flushed(c) + [full], c.end + NextStart(n, limit, overlap), c.end + n), limit, overlap);
      } else {
        CutLongStaysBroken(Cutting(Flushed(c), c.end, c.end + n), limit, overlap);
      }
    }
  }

  lemma {:induction false} TakeAllBreaks(sentences: seq<string>, limit: nat, overlap: int)
    requires overlap < 0 && !NoneLonger(sentences, limit)
    ensures Broken(TakeAll(sentences, limit, overlap))
  {
    var n := |sentences| - 1;
    if !NoneLonger(sentences[..n], limit) {
      TakeAllBreaks(sentences[..n], limit, overlap);
    } else {
      assert |sentences[n]| > limit by {
        var i :| 0 <= i < |sentences| && |sentences[i]| > limit;
        if i < n { assert |sentences[..n][i]| <= limit; }
      }
    }
    TakeBreaks(TakeAll(sentences[..n], limit, overlap), |sentences[n]|, limit, overlap);
  }

  /** Without long sentences the overlap plays no part. */
  lemma {:induction false} OverlapUnused(sentences: seq<string>, limit: nat, overlap: int, other: int)
    requires NoneLonger(sentences, limit)
    ensures TakeAll(sentences, limit, overlap) == TakeAll(sentences, limit, other)
  {
    if sentences != [] {
      OverlapUnused(sentences[..|sentences| - 1], limit, overlap, other);
    }
  }

  lemma {:induction false} EndOfAll(sentences: seq<string>, limit: nat, overlap: int)
    requires overlap < limit || NoneLonger(sentences, limit)
    ensures TakeAll(sentences, limit, overlap).end == |Joined(sentences)|
  {
    if sentences != [] {
      var n := |sentences| - 1;
      EndOfAll(sentences[..n], limit, overlap);
      LengthIsJoined(sentences, n);
      LengthIsJoined(sentences, n + 1);
      assert sentences[..n + 1] == sentences;
    }
  }

  /** Main theorem: where splitting terminates, no text is skipped exactly when the overlap is not negative or
      no sentence is longer than the limit. */
  lemma CoversIff(text: string, limit: nat, overlap: int)
    requires overlap < limit || NoneLonger(Sentences(text), limit)
    ensures Covers(Pieces(text, limit, overlap), |text|) <==> overlap >= 0 || NoneLonger(Sentences(text), limit)
  {
    hide Sentences, Covers, Pieces, NoneLonger;
    if overlap < 0 && !NoneLonger(Sentences(text), limit) {
      NegativeOverlapSkips(text, limit, overlap);
    } else if limit == 0 {
      NoSentences(text);
      NothingCovers(overlap);
    } else {
      var lap := if 0 <= overlap < limit then overlap else 0;
      if lap != overlap { PiecesAlike(text, limit, overlap, lap); }
      SplitCovers(text, limit, lap);
    }
  }

  lemma PiecesAlike(text: string, limit: nat, overlap: int, other: int)
    requires NoneLonger(Sentences(text), limit)
    ensures Pieces(text, limit, overlap) == Pieces(text, limit, other)
  {
    OverlapUnused(Sentences(text), limit, overlap, other);
  }

  lemma NegativeOverlapSkips(text: string, limit: nat, overlap: int)
    requires overlap < 0 && !NoneLonger(Sentences(text), limit)
    ensures !Covers(Pieces(text, limit, overlap), |text|)
  {
    hide Sentences, TakeAll, Joined, NoneLonger;
    var c := TakeAll(Sentences(text), limit, overlap);
    TakeAllBreaks(Sentences(text), limit, overlap);
    EndOfAll(Sentences(text), limit, overlap);
    SentencesTile(text);
    GapStays(c.done, Span(c.start, c.end));
  }

  lemma SplitCovers(text: string, limit: nat, overlap: int)
    requires 0 <= overlap < limit
    ensures Covers(Pieces(text, limit, overlap), |text|)
  {
    SplitIsWellCut(text, limit, overlap);
    hide Pieces, Joint, Sentences;
  }

  lemma NoSentences(text: string)
    ensures NoneLonger(Sentences(text), 0) ==> text == ""
  {
    if text != "" {
      assert |Sentences(text)[0]| > 0;
    }
  }

  lemma NothingCovers(overlap: int)
    requires overlap < 0 || NoneLonger(Sentences(""), 0)
    ensures Covers(Pieces("", 0, overlap), 0)
  {
  }

  // ----- windows: fixed-size parts of a joined file, and neighbouring articles -----

  datatype WindowError = BadSize | BadStep

  function WindowAt(start: nat, size: nat, n: nat): Span {
    Span(start, if start + size < n then start + size else n)
  }

  function WindowsFrom(n: nat, size: nat, step: nat, lo: nat): (ws: seq<Span>)
    requires step > 0
    ensures forall w | w in ws :: lo <= w.start < n && w.start <= w.end && w == WindowAt(w.start, size, n)
    decreases if lo < n then n - lo else 0
  {
    if lo >= n then [] else [WindowAt(lo, size, n)] + WindowsFrom(n, size, step, lo + step)
  }

  /** neighbor_chunks on the n articles of one file, in line order: which articles each chunk joins. */
  method NeighborWindows(n: nat, window: int, stride: Option<int>) returns (r: Result<seq<Span>, WindowError>)
    ensures r.Err? <==> window <= 0 || (stride.Some? && stride.value <= 0)
    ensures r.Ok? ==> r.value == WindowsFrom(n, window, if stride.Some? then stride.value else window, 0)
  {
    if window <= 0 {
      return Err(BadSize);
    }
    var step := if stride.Some? then stride.value else window;
    if step <= 0 {
      return Err(BadStep);
    }
    hide WindowsFrom, WindowAt;
    var windows: seq<Span> := [];
    assert windows + WindowsFrom(n, window, step, 0) == WindowsFrom(n, window, step, 0);
    var start := 0;
    while start < n
      invariant start >= 0
      invariant WindowsFrom(n, window, step, 0) == windows + WindowsFrom(n, window, step, start)
      decreases n - start
    {
      NextWindow(windows, n, window, step, start);
      windows := windows + [WindowAt(start, window, n)];
      start := start + step;
    }
    NextWindow(windows, n, window, step, start);
    r := Ok(windows);
  }

  lemma NextWindow(windows: seq<Span>, n: nat, size: nat, step: nat, lo: nat)
    requires step > 0
    ensures windows + WindowsFrom(n, size, step, lo) ==
            if lo >= n then windows else (windows + [WindowAt(lo, size, n)]) + WindowsFrom(n, size, step, lo + step)
  {
    hide WindowAt;
    if lo >= n {
      assert windows + [] == windows;
    } else {
      assert windows + ([WindowAt(lo, size, n)] + WindowsFrom(n, size, step, lo + step))
             == (windows + [WindowAt(lo, size, n)]) + WindowsFrom(n, size, step, lo + step);
    }
  }

  datatype Part = Part(index: nat, text: string)

  function PartsFrom(text: string, size: nat, step: nat, lo: nat, index: nat): seq<Part>
    requires step > 0
    decreases if lo < |text| then |text| - lo else 0
  {
    if lo >= |text| then []
    else
      var w := WindowAt(lo, size, |text|);
      var part := Strip(text[w.start..w.end]);
      (if part != "" then [Part(index, part)] else []) + PartsFrom(text, size, step, lo + step, index + 1)
  }

  /** fixed_char_chunks on the joined text of one file. */
  method FixedParts(text: string, size: int, overlap: int) returns (r: Result<seq<Part>, WindowError>)
    ensures r.Err? <==> size <= 0 || overlap >= size
    ensures r.Ok? ==> r.value == PartsFrom(text, size, size - overlap, 0, 1)
  {
    hide Strip;
    if size <= 0 {
      return Err(BadSize);
    }
    if overlap >= size {
      return Err(BadStep);
    }
    var parts := [];
    var cursor, index := 0, 1;
    while cursor < |text|
      invariant cursor >= 0 && index >= 1
      invariant PartsFrom(text, size, size - overlap, 0, 1) == parts + PartsFrom(text, size, size - overlap, cursor, index)
      decreases |text| - cursor
    {
      var w := WindowAt(cursor, size, |text|);
      var part := Strip(text[w.start..w.end]);
      if part != "" {
        parts := parts + [Part(index, part)];
      }
      cursor := cursor + (size - overlap);
      index := index + 1;
    }
    r := Ok(parts);
  }

  predicate Holds(ws: seq<Span>, k: nat) {
    exists i | 0 <= i < |ws| :: ws[i].start <= k < ws[i].end
  }

  predicate HoldsAll(ws: seq<Span>, n: nat) {
    forall k: nat | k < n :: Holds(ws, k)
  }

  lemma {:induction false} StepWithinSizeHolds(n: nat, size: nat, step: nat, lo: nat, k: nat)
    requires 0 < step <= size && lo <= k < n
    ensures Holds(WindowsFrom(n, size, step, lo), k)
    decreases n - lo
  {
    var ws := WindowsFrom(n, size, step, lo);
    if k < lo + size {
      assert ws[0].start <= k < ws[0].end;
    } else {
      StepWithinSizeHolds(n, size, step, lo + step, k);
      var i :| 0 <= i < |ws[1..]| && ws[1..][i].start <= k < ws[1..][i].end;
      assert ws[i + 1].start <= k < ws[i + 1].end;
    }
  }

  /** Main theorem: the windows hold every position exactly when the step is not larger than the size, or one
      window is enough: a stride beyond the window, or a negative overlap, loses text. */
  lemma WindowsHoldAllIff(n: nat, size: nat, step: nat)
    requires size > 0 && step > 0
    ensures HoldsAll(WindowsFrom(n, size, step, 0), n) <==> step <= size || n <= size
  {
    var ws := WindowsFrom(n, size, step, 0);
    if step <= size {
      forall k: nat | k < n ensures Holds(ws, k) {
        StepWithinSizeHolds(n, size, step, 0, k);
      }
    } else if n <= size {
      forall k: nat | k < n ensures Holds(ws, k) {
        assert ws[0].start <= k < ws[0].end;
      }
    } else {
      assert ws == [WindowAt(0, size, n)] + WindowsFrom(n, size, step, step);
      forall i | 0 <= i < |ws| ensures !(ws[i].start <= size < ws[i].end) {
        if i > 0 {
          assert ws[i] in WindowsFrom(n, size, step, step);
        }
      }
      assert !Holds(ws, size);
    }
  }

  // ----- which windows and parts there are -----

  lemma {:induction false} WindowsAre(n: nat, size: nat, step: nat, lo: nat, i: nat)
    requires step > 0 && lo + i * step < n
    ensures i < |WindowsFrom(n, size, step, lo)|
    ensures WindowsFrom(n, size, step, lo)[i] == WindowAt(lo + i * step, size, n)
    decreases i
  {
    if i > 0 {
      assert lo + i * step == lo + step + (i - 1) * step;
      assert (i - 1) * step >= 0;
      WindowsAre(n, size, step, lo + step, i - 1);
    }
  }

  lemma {:induction false} WindowsEnd(n: nat, size: nat, step: nat, lo: nat, i: nat)
    requires step > 0 && i < |WindowsFrom(n, size, step, lo)|
    ensures lo + i * step < n
    decreases i
  {
    if i > 0 {
      WindowsEnd(n, size, step, lo + step, i - 1);
      assert lo + i * step == lo + step + (i - 1) * step;
    }
  }

  /** Main theorem: there is one window for each multiple of the step below n, starting there and as long as the
      size or as what is left. */
  lemma WindowsMean(n: nat, size: nat, step: nat, i: nat)
    requires step > 0
    ensures i < |WindowsFrom(n, size, step, 0)| <==> i * step < n
    ensures i * step < n ==>
              WindowsFrom(n, size, step, 0)[i] == Span(i * step, if i * step + size <= n then i * step + size else n)
  {
    hide WindowsFrom;
    if i * step < n { WindowsAre(n, size, step, 0, i); }
    if i < |WindowsFrom(n, size, step, 0)| { WindowsEnd(n, size, step, 0, i); }
  }

  /** What the i-th cut of the text is, without the white space around it. */
  function CutText(text: string, size: nat, at: nat): string
    requires at < |text|
  {
    Strip(text[at..if at + size <= |text| then at + size else |text|])
  }

  /** part is the cut at its number, counted from lo on. */
  predicate IsPart(text: string, size: nat, step: nat, lo: nat, index: nat, part: Part) {
    && part.index >= index && lo + (part.index - index) * step < |text|
    && part.text == CutText(text, size, lo + (part.index - index) * step) && part.text != ""
  }

  lemma {:induction false} PartsAre(text: string, size: nat, step: nat, lo: nat, index: nat, part: Part)
    requires step > 0
    ensures part in PartsFrom(text, size, step, lo, index) <==> IsPart(text, size, step, lo, index, part)
    decreases if lo < |text| then |text| - lo else 0
  {
    hide CutText, PartsFrom, IsPart;
    if lo < |text| {
      FirstPart(text, size, step, lo, index);
      PartsAre(text, size, step, lo + step, index + 1, part);
      NextPart(text, size, step, lo, index, part);
    } else {
      NoPart(text, size, step, lo, index, part);
    }
  }

  lemma NextPart(text: string, size: nat, step: nat, lo: nat, index: nat, part: Part)
    requires step > 0 && lo < |text|
    ensures IsPart(text, size, step, lo, index, part) <==>
            || (part == Part(index, CutText(text, size, lo)) && part.text != "")
            || IsPart(text, size, step, lo + step, index + 1, part)
  {
    hide CutText;
    if part.index > index {
      assert (part.index - index) * step == step + (part.index - (index + 1)) * step;
    } else if part.index == index {
      assert (part.index - index) * step == 0;
    }
  }

  lemma NoPart(text: string, size: nat, step: nat, lo: nat, index: nat, part: Part)
    requires step > 0 && lo >= |text|
    ensures PartsFrom(text, size, step, lo, index) == [] && !IsPart(text, size, step, lo, index, part)
  {
    hide CutText;
    if part.index >= index {
      assert (part.index - index) * step >= 0;
    }
  }

  lemma FirstPart(text: string, size: nat, step: nat, lo: nat, index: nat)
    requires step > 0 && lo < |text|
    ensures PartsFrom(text, size, step, lo, index) ==
            (if CutText(text, size, lo) != "" then [Part(index, CutText(text, size, lo))] else [])
            + PartsFrom(text, size, step, lo + step, index + 1)
  {
    hide Strip;
  }

  predicate Numbered(parts: seq<Part>, index: nat) {
    && (forall i | 0 <= i < |parts| :: parts[i].index >= index)
    && (forall i, j | 0 <= i < j < |parts| :: parts[i].index < parts[j].index)
  }

  lemma {:induction false} PartsAscend(text: string, size: nat, step: nat, lo: nat, index: nat)
    requires step > 0
    ensures Numbered(PartsFrom(text, size, step, lo, index), index)
    decreases if lo < |text| then |text| - lo else 0
  {
    hide CutText, PartsFrom, Numbered;
    if lo < |text| {
      FirstPart(text, size, step, lo, index);
      PartsAscend(text, size, step, lo + step, index + 1);
      NumberedCons(CutText(text, size, lo), index, PartsFrom(text, size, step, lo + step, index + 1));
    } else {
      NoPart(text, size, step, lo, index, Part(0, ""));
      NothingNumbered(index);
    }
  }

  lemma NothingNumbered(index: nat)
    ensures Numbered([], index)
  {
  }

  lemma NumberedCons(text: string, index: nat, rest: seq<Part>)
    requires Numbered(rest, index + 1)
    ensures Numbered((if text != "" then [Part(index, text)] else []) + rest, index)
  {
  }

  /** Main theorem: the parts are, under ascending numbers from 1 on, the cuts at the multiples of the step that hold
      more than white space. */
  lemma PartsMean(text: string, size: nat, step: nat, part: Part)
    requires step > 0
    ensures part in PartsFrom(text, size, step, 0, 1) <==>
            && part.index >= 1 && (part.index - 1) * step < |text|
            && part.text == CutText(text, size, (part.index - 1) * step) && part.text != ""
    ensures var parts := PartsFrom(text, size, step, 0, 1);
            forall i, j | 0 <= i < j < |parts| :: parts[i].index < parts[j].index
  {
    hide PartsFrom, CutText;
    PartsAre(text, size, step, 0, 1, part);
    PartsAscend(text, size, step, 0, 1);
  }
}
