/** Statute files into articles (legal_rag/data.py).  The regular expressions are parameters; all that is
    used of them is that matches lie inside the line, in order and without overlap. */
module LawParsing {
  import opened Common
  import opened Strings

  /** A match of the form 《law》article规定， */
  datatype LawMatch = LawMatch(start: nat, end: nat, law: string, article: string)

  /** Where an article number starts and where the header ends. */
  datatype Header = Header(start: nat, end: nat, article: string)

  datatype Patterns = Patterns(
    withLaw: string -> seq<LawMatch>,
    atLineStart: string -> Option<Header>,
    afterSentence: string -> seq<Header>,
    structureHeading: string -> bool,
    trailingHeading: string -> Option<nat>,
    normalizeNumber: string -> string)

  predicate InLine(start: nat, end: nat, line: string) {
    start < end <= |line|
  }

  /** Matches come in order and do not overlap; a trailing heading follows some other text. */
  ghost predicate Regular(re: Patterns) {
    forall line: string ::
      && (forall i | 0 <= i < |re.withLaw(line)| :: InLine(re.withLaw(line)[i].start, re.withLaw(line)[i].end, line))
      && (forall i, j | 0 <= i < j < |re.withLaw(line)| :: re.withLaw(line)[i].end <= re.withLaw(line)[j].start)
      && (re.atLineStart(line).Some? ==> InLine(re.atLineStart(line).value.start, re.atLineStart(line).value.end, line))
      && (forall i | 0 <= i < |re.afterSentence(line)| :: InLine(re.afterSentence(line)[i].start, re.afterSentence(line)[i].end, line))
      && (forall i, j | 0 <= i < j < |re.afterSentence(line)| :: re.afterSentence(line)[i].end <= re.afterSentence(line)[j].start)
      && (re.trailingHeading(line).Some? ==> 0 < re.trailingHeading(line).value <= |line|)
  }

  // ----- headers -----

  /** Headers inside the line, in order and without overlap. */
  predicate Ordered(hs: seq<Header>, line: string) {
    && (forall i | 0 <= i < |hs| :: InLine(hs[i].start, hs[i].end, line))
    && (forall i, j | 0 <= i < j < |hs| :: hs[i].end <= hs[j].start)
  }

  /** Matches behind a sentence end are added unless they start inside the header before. */
  function Kept(found: seq<Header>, matches: seq<Header>): seq<Header> {
    if matches == [] then found
    else
      var before := Kept(found, matches[..|matches| - 1]);
      var m := matches[|matches| - 1];
      if before != [] && m.start < before[|before| - 1].end then before else before + [m]
  }

  function HeadersOf(re: Patterns, line: string): seq<Header> {
    Kept(if re.atLineStart(line).Some? then [re.atLineStart(line).value] else [], re.afterSentence(line))
  }

  /** find_article_headers */
  method FindArticleHeaders(re: Patterns, line: string) returns (headers: seq<Header>)
    ensures headers == HeadersOf(re, line)
  {
    headers := [];
    var first := re.atLineStart(line);
    if first.Some? {
      headers := [first.value];
    }
    ghost var found := headers;
    var matches := re.afterSentence(line);
    var i := 0;
    while i < |matches|
      invariant i <= |matches|
      invariant headers == Kept(found, matches[..i])
    {
      assert matches[..i + 1][..i] == matches[..i];
      if headers == [] || matches[i].start >= headers[|headers| - 1].end {
        headers := headers + [matches[i]];
      }
      i := i + 1;
    }
    assert matches[..i] == matches;
  }

  lemma {:induction false} KeptOrdered(found: seq<Header>, matches: seq<Header>, line: string)
    requires Ordered(found, line) && Ordered(matches, line)
    ensures Ordered(Kept(found, matches), line)
  {
    if matches != [] {
      var init, m := matches[..|matches| - 1], matches[|matches| - 1];
      assert Ordered(init, line) by {
        assert forall i | 0 <= i < |init| :: init[i] == matches[i];
      }
      KeptOrdered(found, init, line);
      var before := Kept(found, init);
      if before == [] || m.start >= before[|before| - 1].end {
        forall i | 0 <= i < |before| ensures before[i].end <= m.start {
          if i < |before| - 1 {
            assert before[i].end <= before[|before| - 1].start;
          }
        }
      }
    }
  }

  /** Header spans are increasing and do not overlap, whichever of the two patterns found them. */
  lemma HeadersOrdered(re: Patterns, line: string)
    requires Regular(re)
    ensures Ordered(HeadersOf(re, line), line)
  {
    var found := if re.atLineStart(line).Some? then [re.atLineStart(line).value] else [];
    assert Ordered(found, line) && Ordered(re.afterSentence(line), line);
    KeptOrdered(found, re.afterSentence(line), line);
  }

  // ----- segments -----

  datatype Status = WithLaw | FromFilename | Unmatched

  datatype Segment = Segment(law: string, number: string, body: string, text: string, status: Status)

  /** Where a segment ends: where the next one starts. */
  function NextStart(starts: seq<nat>, i: nat, n: nat): nat
    requires i < |starts|
  {
    if i + 1 < |starts| then starts[i + 1] else n
  }

  function LawStarts(ms: seq<LawMatch>): (starts: seq<nat>)
    ensures |starts| == |ms| && forall i | 0 <= i < |ms| :: starts[i] == ms[i].start
  {
    seq(|ms|, i requires 0 <= i < |ms| => ms[i].start)
  }

  function HeaderStarts(hs: seq<Header>): (starts: seq<nat>)
    ensures |starts| == |hs| && forall i | 0 <= i < |hs| :: starts[i] == hs[i].start
  {
    seq(|hs|, i requires 0 <= i < |hs| => hs[i].start)
  }

  predicate LawOrdered(ms: seq<LawMatch>, line: string) {
    && (forall i | 0 <= i < |ms| :: InLine(ms[i].start, ms[i].end, line))
    && (forall i, j | 0 <= i < j < |ms| :: ms[i].end <= ms[j].start)
  }

  function LawSegment(re: Patterns, line: string, ms: seq<LawMatch>, i: nat): Segment
    requires LawOrdered(ms, line) && i < |ms|
  {
    var end := NextStart(LawStarts(ms), i, |line|);
    Segment(Strip(ms[i].law), re.normalizeNumber(ms[i].article), Strip(line[ms[i].end..end]), Strip(line[ms[i].start..end]), WithLaw)
  }

  function HeaderSegment(re: Patterns, line: string, hs: seq<Header>, i: nat, fileLaw: string): Segment
    requires Ordered(hs, line) && i < |hs|
  {
    var end := NextStart(HeaderStarts(hs), i, |line|);
    Segment(fileLaw, re.normalizeNumber(hs[i].article), Strip(line[hs[i].end..end]), Strip(line[hs[i].start..end]), FromFilename)
  }

  /** _build_with_law_segments */
  method BuildWithLawSegments(re: Patterns, line: string, ms: seq<LawMatch>) returns (segments: seq<Segment>)
    requires LawOrdered(ms, line)
    ensures |segments| == |ms| && forall i | 0 <= i < |ms| :: segments[i] == LawSegment(re, line, ms, i)
  {
    hide Strip;
    segments := [];
    for i := 0 to |ms|
      invariant |segments| == i && forall k | 0 <= k < i :: segments[k] == LawSegment(re, line, ms, k)
    {
      var end := if i + 1 < |ms| then ms[i + 1].start else |line|;
      var text, body := Strip(line[ms[i].start..end]), Strip(line[ms[i].end..end]);
      segments := segments + [Segment(Strip(ms[i].law), re.normalizeNumber(ms[i].article), body, text, WithLaw)];
    }
  }

  /** _build_without_law_segments */
  method BuildWithoutLawSegments(re: Patterns, line: string, hs: seq<Header>, fileLaw: string) returns (segments: seq<Segment>)
    requires Ordered(hs, line)
    ensures |segments| == |hs| && forall i | 0 <= i < |hs| :: segments[i] == HeaderSegment(re, line, hs, i, fileLaw)
  {
    hide Strip;
    segments := [];
    for i := 0 to |hs|
      invariant |segments| == i && forall k | 0 <= k < i :: segments[k] == HeaderSegment(re, line, hs, k, fileLaw)
    {
      var end := if i + 1 < |hs| then hs[i + 1].start else |line|;
      var text, body := Strip(line[hs[i].start..end]), Strip(line[hs[i].end..end]);
      segments := segments + [Segment(fileLaw, re.normalizeNumber(hs[i].article), body, text, FromFilename)];
    }
  }

  // ----- one line -----

  const HEADING_MAX := 40

  predicate Decoration(c: char) { c == ' ' || c == '\t' || c == '\U{3000}' || c == '#' || c == '*' || c == '>' }

  predicate OnlyDecoration(s: string) {
    forall i | 0 <= i < |s| :: Decoration(s[i])
  }

  predicate EndsSentence(s: string) {
    s != "" && s[|s| - 1] in {'\U{3002}', '\U{FF1B}', '\U{FF0C}', '\U{FF1A}', ';', ',', ':'}
  }

  /** is_structure_heading */
  predicate IsStructureHeading(re: Patterns, line: string) {
    var stripped := Strip(line);
    0 < |stripped| <= HEADING_MAX && !EndsSentence(stripped) && re.structureHeading(stripped)
  }

  /** The text before the first segment, if it counts, and the segments. */
  datatype Split = Split(leading: string, segments: seq<Segment>)

  function LawSegments(re: Patterns, line: string, ms: seq<LawMatch>): (segments: seq<Segment>)
    requires LawOrdered(ms, line)
    ensures |segments| == |ms| && forall i | 0 <= i < |ms| :: segments[i] == LawSegment(re, line, ms, i)
  {
    seq(|ms|, i requires 0 <= i < |ms| => LawSegment(re, line, ms, i))
  }

  function HeaderSegments(re: Patterns, line: string, hs: seq<Header>, fileLaw: string): (segments: seq<Segment>)
    requires Ordered(hs, line)
    ensures |segments| == |hs| && forall i | 0 <= i < |hs| :: segments[i] == HeaderSegment(re, line, hs, i, fileLaw)
  {
    seq(|hs|, i requires 0 <= i < |hs| => HeaderSegment(re, line, hs, i, fileLaw))
  }

  lemma LawMatchesOrdered(re: Patterns, line: string)
    requires Regular(re)
    ensures LawOrdered(re.withLaw(line), line)
  {
  }

  function SplitOf(re: Patterns, line: string, fileLaw: string): Split
    requires Regular(re)
  {
    var ms := re.withLaw(line);
    LawMatchesOrdered(re, line);
    if ms != [] then
      var leading := line[..ms[0].start];
      Split(if Blank(leading) then "" else leading, LawSegments(re, line, ms))
    else
      var hs := HeadersOf(re, line);
      HeadersOrdered(re, line);
      if hs == [] then Split("", [])
      else
        var leading := line[..hs[0].start];
        Split(if OnlyDecoration(leading) then "" else leading, HeaderSegments(re, line, hs, fileLaw))
  }

  /** split_line_into_articles */
  method SplitLineIntoArticles(re: Patterns, line: string, fileLaw: string) returns (split: Split)
    requires Regular(re)
    ensures split == SplitOf(re, line, fileLaw)
  {
    hide LawSegment, HeaderSegment, HeadersOf, Blank, OnlyDecoration;
    LawMatchesOrdered(re, line);
    HeadersOrdered(re, line);
    var ms := re.withLaw(line);
    if ms != [] {
      var segments := BuildWithLawSegments(re, line, ms);
      var leading := line[..ms[0].start];
      assert segments == LawSegments(re, line, ms);
      return Split(if Blank(leading) then "" else leading, segments);
    }
    var hs := FindArticleHeaders(re, line);
    if hs != [] {
      var segments := BuildWithoutLawSegments(re, line, hs, fileLaw);
      var leading := line[..hs[0].start];
      assert segments == HeaderSegments(re, line, hs, fileLaw);
      return Split(if OnlyDecoration(leading) then "" else leading, segments);
    }
    split := Split("", []);
  }

  // ----- a whole file -----

  datatype ArticleId = OfLine(line: nat, text: string) | OfSegment(line: nat, index: nat, text: string)

  datatype Article = Article(id: ArticleId, law: string, number: string, body: string, raw: string, line: nat, status: Status)

  /** Text without a header goes to the last article, or starts an unmatched one. */
  function Continued(articles: seq<Article>, line: nat, text: string, fileLaw: string): seq<Article> {
    if articles == [] then [Article(OfLine(line, text), fileLaw, "", text, text, line, Unmatched)]
    else
      var last := articles[|articles| - 1];
      articles[..|articles| - 1] + [last.(body := last.body + "\n" + text, raw := last.raw + "\n" + text)]
  }

  function ArticleOf(segment: Segment, line: nat, index: nat): Article {
    Article(OfSegment(line, index, segment.text), segment.law, segment.number, segment.body, segment.text, line, segment.status)
  }

  function ArticlesOf(segments: seq<Segment>, line: nat): seq<Article> {
    if segments == [] then []
    else ArticlesOf(segments[..|segments| - 1], line) + [ArticleOf(segments[|segments| - 1], line, |segments| - 1)]
  }

  function WithSplit(articles: seq<Article>, split: Split, number: nat, line: string, fileLaw: string): seq<Article> {
    if split.segments == [] then Continued(articles, number, line, fileLaw)
    else
      (if split.leading != "" then Continued(articles, number, Strip(split.leading), fileLaw) else articles)
      + ArticlesOf(split.segments, number)
  }

  /** What is left of a line: None when it is blank or a structural heading. */
  function Body(re: Patterns, raw: string): Option<string>
    requires Regular(re)
  {
    var line := Strip(raw);
    if line == "" || IsStructureHeading(re, line) then None
    else if re.trailingHeading(line).Some? then Some(line[..re.trailingHeading(line).value])
    else Some(line)
  }

  function ParsedTo(re: Patterns, lines: seq<string>, fileLaw: string): seq<Article>
    requires Regular(re)
  {
    if lines == [] then []
    else
      var n := |lines| - 1;
      var before := ParsedTo(re, lines[..n], fileLaw);
      match Body(re, lines[n])
      case None => before
      case Some(line) => WithSplit(before, SplitOf(re, line, fileLaw), n + 1, line, fileLaw)
  }

  /** parse_law_file, on the lines of the file. */
  method ParseLawFile(re: Patterns, lines: seq<string>, fileLaw: string) returns (articles: seq<Article>)
    requires Regular(re)
    ensures articles == ParsedTo(re, lines, fileLaw)
  {
    hide SplitOf, Strip, Regular, IsStructureHeading, Continued;
    articles := [];
    var n := 0;
    while n < |lines|
      invariant n <= |lines|
      invariant articles == ParsedTo(re, lines[..n], fileLaw)
    {
      assert lines[..n + 1][..n] == lines[..n];
      ghost var before := articles;
      var body := Body(re, lines[n]);
      if body.Some? {
        var line := body.value;
        var split := SplitLineIntoArticles(re, line, fileLaw);
        if split.segments != [] {
          if split.leading != "" {
            articles := Continued(articles, n + 1, Strip(split.leading), fileLaw);
          }
          articles := AppendSegments(articles, split.segments, n + 1);
        } else {
          articles := Continued(articles, n + 1, line, fileLaw);
        }
        assert articles == WithSplit(before, SplitOf(re, line, fileLaw), n + 1, line, fileLaw);
      }
      n := n + 1;
    }
    assert lines[..n] == lines;
  }

  method AppendSegments(before: seq<Article>, segments: seq<Segment>, line: nat) returns (articles: seq<Article>)
    ensures articles == before + ArticlesOf(segments, line)
  {
    articles := before;
    var i := 0;
    while i < |segments|
      invariant i <= |segments|
      invariant articles == before + ArticlesOf(segments[..i], line)
    {
      assert segments[..i + 1][..i] == segments[..i];
      articles := articles + [ArticleOf(segments[i], line, i)];
      i := i + 1;
    }
    assert segments[..i] == segments;
  }

  // ----- nothing of the statute is lost -----

  /** The text without its white space. */
  function Squeeze(s: string): string {
    if s == "" then "" else (if Space(s[0]) then "" else [s[0]]) + Squeeze(s[1..])
  }

  lemma {:induction false} SqueezeAppend(a: string, b: string)
    ensures Squeeze(a + b) == Squeeze(a) + Squeeze(b)
  {
    if a == "" {
      assert a + b == b;
    } else {
      assert (a + b)[1..] == a[1..] + b;
      SqueezeAppend(a[1..], b);
    }
  }

  lemma {:induction false} SqueezeBlank(s: string)
    requires Blank(s)
    ensures Squeeze(s) == ""
  {
    if s != "" {
      SqueezeBlank(s[1..]);
    }
  }

  lemma SqueezeStrip(s: string)
    ensures Squeeze(Strip(s)) == Squeeze(s)
  {
    var i, j := StripSlice(s);
    hide Strip;
    SqueezeBlank(s[..i]);
    SqueezeBlank(s[j..]);
    SqueezeAppend(s[..i], s[i..j]);
    SqueezeAppend(s[..j], s[j..]);
    assert s[..i] + s[i..j] == s[..j] && s[..j] + s[j..] == s;
  }

  function RawText(articles: seq<Article>): string {
    if articles == [] then "" else RawText(articles[..|articles| - 1]) + articles[|articles| - 1].raw
  }

  lemma {:induction false} RawAppend(a: seq<Article>, b: seq<Article>)
    ensures RawText(a + b) == RawText(a) + RawText(b)
  {
    if b == [] {
      assert a + b == a;
    } else {
      assert (a + b)[..|a + b| - 1] == a + b[..|b| - 1];
      RawAppend(a, b[..|b| - 1]);
    }
  }

  lemma SqueezeAround(a: string, b: string)
    ensures Squeeze(a + "\n" + b) == Squeeze(a) + Squeeze(b)
  {
    SqueezeAppend(a + "\n", b);
    SqueezeAppend(a, "\n");
    SqueezeBlank("\n");
    hide Squeeze;
  }

  lemma RawSnoc(init: seq<Article>, last: Article)
    ensures RawText(init + [last]) == RawText(init) + last.raw
  {
    assert (init + [last])[..|init|] == init;
  }

  lemma ContinuedKeeps(articles: seq<Article>, line: nat, text: string, fileLaw: string)
    ensures Squeeze(RawText(Continued(articles, line, text, fileLaw))) == Squeeze(RawText(articles)) + Squeeze(text)
  {
    hide Squeeze, RawText;
    if articles == [] {
      NoText();
      RawSnoc([], Continued(articles, line, text, fileLaw)[0]);
      assert Continued(articles, line, text, fileLaw) == [] + [Continued(articles, line, text, fileLaw)[0]];
      assert "" + text == text && "" + Squeeze(text) == Squeeze(text);
    } else {
      var init, last := articles[..|articles| - 1], articles[|articles| - 1];
      var longer := last.(body := last.body + "\n" + text, raw := last.raw + "\n" + text);
      assert articles == init + [last];
      RawSnoc(init, last);
      RawSnoc(init, longer);
      SqueezeAround(last.raw, text);
      SqueezeAppend(RawText(init), longer.raw);
      SqueezeAppend(RawText(init), last.raw);
    }
  }

  lemma NoText()
    ensures RawText([]) == "" && Squeeze("") == "" && SegmentTexts([]) == ""
  {
  }

  /** Segment texts, before they are trimmed, tile the line from the first start on. */
  function SegmentTexts(segments: seq<Segment>): string {
    if segments == [] then "" else SegmentTexts(segments[..|segments| - 1]) + segments[|segments| - 1].text
  }

  lemma {:induction false} ArticlesHoldTexts(segments: seq<Segment>, line: nat)
    ensures RawText(ArticlesOf(segments, line)) == SegmentTexts(segments)
  {
    if segments != [] {
      ArticlesHoldTexts(segments[..|segments| - 1], line);
      var articles := ArticlesOf(segments, line);
      assert articles[..|articles| - 1] == ArticlesOf(segments[..|segments| - 1], line);
    }
  }

  predicate Rising(starts: seq<nat>, n: nat) {
    (forall i, j | 0 <= i < j < |starts| :: starts[i] < starts[j]) && forall i | 0 <= i < |starts| :: starts[i] < n
  }

  /** What the first k segments of a line hold. */
  lemma {:induction false} TextsTile(line: string, starts: seq<nat>, segments: seq<Segment>, k: nat)
    requires Rising(starts, |line|) && |segments| == |starts| && k <= |starts| && starts != []
    requires forall i | 0 <= i < |starts| :: starts[i] <= NextStart(starts, i, |line|) <= |line|
    requires forall i | 0 <= i < |starts| :: segments[i].text == Strip(line[starts[i]..NextStart(starts, i, |line|)])
    ensures Squeeze(SegmentTexts(segments[..k])) ==
            Squeeze(line[starts[0]..if k == |starts| then |line| else starts[k]])
  {
    hide Strip, Rising, Squeeze, SegmentTexts;
    if k > 0 {
      TextsTile(line, starts, segments, k - 1);
      var lo, hi := starts[k - 1], NextStart(starts, k - 1, |line|);
      TextsSnoc(segments, k - 1);
      SqueezeAppend(SegmentTexts(segments[..k - 1]), segments[k - 1].text);
      SqueezeStrip(line[lo..hi]);
      StartsRise(starts, k - 1, |line|);
      SqueezeAppend(line[starts[0]..lo], line[lo..hi]);
      assert line[starts[0]..lo] + line[lo..hi] == line[starts[0]..hi];
    } else {
      NoText();
      assert segments[..0] == [];
      assert line[starts[0]..starts[0]] == "";
    }
  }

  lemma StartsRise(starts: seq<nat>, k: nat, n: nat)
    requires Rising(starts, n) && k < |starts|
    ensures starts[0] <= starts[k] < n
  {
    assert k > 0 ==> starts[0] < starts[k];
  }

  lemma TextsSnoc(segments: seq<Segment>, k: nat)
    requires k < |segments|
    ensures SegmentTexts(segments[..k + 1]) == SegmentTexts(segments[..k]) + segments[k].text
  {
    assert segments[..k + 1][..k] == segments[..k];
  }

  /** Where the kept text of a line starts: behind dropped Markdown decoration, if there is any. */
  function KeptFrom(re: Patterns, line: string): (start: nat)
    requires Regular(re)
    ensures start <= |line|
  {
    var hs := HeadersOf(re, line);
    HeadersOrdered(re, line);
    if re.withLaw(line) == [] && hs != [] && OnlyDecoration(line[..hs[0].start]) then hs[0].start else 0
  }

  /** Only decoration is dropped from a line. */
  lemma DroppedIsDecoration(re: Patterns, line: string)
    requires Regular(re)
    ensures OnlyDecoration(line[..KeptFrom(re, line)])
  {
    HeadersOrdered(re, line);
  }

  lemma LawTextAt(re: Patterns, line: string, ms: seq<LawMatch>, i: nat)
    requires LawOrdered(ms, line) && i < |ms|
    ensures var starts := LawStarts(ms);
            && starts[i] <= NextStart(starts, i, |line|) <= |line|
            && LawSegments(re, line, ms)[i].text == Strip(line[starts[i]..NextStart(starts, i, |line|)])
  {
    hide Strip;
  }

  lemma HeaderTextAt(re: Patterns, line: string, hs: seq<Header>, i: nat, fileLaw: string)
    requires Ordered(hs, line) && i < |hs|
    ensures var starts := HeaderStarts(hs);
            && starts[i] <= NextStart(starts, i, |line|) <= |line|
            && HeaderSegments(re, line, hs, fileLaw)[i].text == Strip(line[starts[i]..NextStart(starts, i, |line|)])
  {
    hide Strip;
  }

  /** Segments whose texts are the trimmed stretches between starts hold the line from the first start on. */
  lemma AllTextsTile(line: string, starts: seq<nat>, segments: seq<Segment>)
    requires Rising(starts, |line|) && |segments| == |starts| && starts != []
    requires forall i: nat | i < |starts| :: starts[i] <= NextStart(starts, i, |line|) <= |line| &&
               segments[i].text == Strip(line[starts[i]..NextStart(starts, i, |line|)])
    ensures starts[0] <= |line| && Squeeze(SegmentTexts(segments)) == Squeeze(line[starts[0]..])
  {
    hide Strip, Rising, Squeeze, SegmentTexts;
    TextsTile(line, starts, segments, |starts|);
    assert segments[..|starts|] == segments && line[starts[0]..|line|] == line[starts[0]..];
  }

  lemma LawSegmentsTile(re: Patterns, line: string)
    requires Regular(re) && re.withLaw(line) != []
    ensures LawOrdered(re.withLaw(line), line)
    ensures Squeeze(SegmentTexts(LawSegments(re, line, re.withLaw(line)))) == Squeeze(line[re.withLaw(line)[0].start..])
  {
    hide Regular, Strip, Squeeze, SegmentTexts, LawSegment;
    LawMatchesOrdered(re, line);
    var ms := re.withLaw(line);
    var segments, starts := LawSegments(re, line, ms), LawStarts(ms);
    assert Rising(starts, |line|);
    forall i: nat | i < |starts|
      ensures starts[i] <= NextStart(starts, i, |line|) <= |line| && segments[i].text == Strip(line[starts[i]..NextStart(starts, i, |line|)])
    {
      LawTextAt(re, line, ms, i);
    }
    hide LawOrdered, NextStart, Rising;
    AllTextsTile(line, starts, segments);
  }

  lemma HeaderSegmentsTile(re: Patterns, line: string, fileLaw: string)
    requires Regular(re) && HeadersOf(re, line) != []
    ensures Ordered(HeadersOf(re, line), line)
    ensures Squeeze(SegmentTexts(HeaderSegments(re, line, HeadersOf(re, line), fileLaw))) == Squeeze(line[HeadersOf(re, line)[0].start..])
  {
    hide Regular, Strip, Squeeze, SegmentTexts, HeaderSegment, HeadersOf;
    HeadersOrdered(re, line);
    var hs := HeadersOf(re, line);
    var segments, starts := HeaderSegments(re, line, hs, fileLaw), HeaderStarts(hs);
    assert Rising(starts, |line|);
    forall i: nat | i < |starts|
      ensures starts[i] <= NextStart(starts, i, |line|) <= |line| && segments[i].text == Strip(line[starts[i]..NextStart(starts, i, |line|)])
    {
      HeaderTextAt(re, line, hs, i, fileLaw);
    }
    hide Ordered, NextStart, Rising;
    AllTextsTile(line, starts, segments);
  }

  /** A line's leading text and segments hold the line, but for white space and dropped decoration. */
  lemma SplitTiles(re: Patterns, line: string, fileLaw: string)
    requires Regular(re)
    ensures var split := SplitOf(re, line, fileLaw);
            split.segments != [] ==>
              Squeeze(split.leading) + Squeeze(SegmentTexts(split.segments)) == Squeeze(line[KeptFrom(re, line)..])
  {
    hide Regular, Squeeze, SegmentTexts, LawSegment, HeaderSegment, HeadersOf, Blank, OnlyDecoration;
    var ms := re.withLaw(line);
    LawMatchesOrdered(re, line);
    HeadersOrdered(re, line);
    if ms != [] {
      LawSegmentsTile(re, line);
      Halves(line, ms[0].start);
      if Blank(line[..ms[0].start]) { SqueezeBlank(line[..ms[0].start]); }
      assert line[0..] == line;
      SqueezeNothing();
    } else if HeadersOf(re, line) != [] {
      var hs := HeadersOf(re, line);
      HeaderSegmentsTile(re, line, fileLaw);
      Halves(line, hs[0].start);
      assert line[0..] == line;
      SqueezeNothing();
    }
  }

  lemma Halves(line: string, k: nat)
    requires k <= |line|
    ensures Squeeze(line[..k]) + Squeeze(line[k..]) == Squeeze(line)
  {
    hide Squeeze;
    SqueezeAppend(line[..k], line[k..]);
    assert line[..k] + line[k..] == line;
  }

  lemma SqueezeNothing()
    ensures Squeeze("") == ""
  {
  }

  /** The statute text of a line: nothing for blank lines and structural headings, else the line without its
      trailing heading and dropped decoration. */
  function StatuteText(re: Patterns, raw: string): string
    requires Regular(re)
  {
    match Body(re, raw)
    case None => ""
    case Some(line) => line[KeptFrom(re, line)..]
  }

  function StatuteTexts(re: Patterns, lines: seq<string>): string
    requires Regular(re)
  {
    if lines == [] then "" else StatuteTexts(re, lines[..|lines| - 1]) + StatuteText(re, lines[|lines| - 1])
  }

  lemma WithSplitKeeps(re: Patterns, articles: seq<Article>, number: nat, line: string, fileLaw: string)
    requires Regular(re)
    ensures Squeeze(RawText(WithSplit(articles, SplitOf(re, line, fileLaw), number, line, fileLaw))) ==
            Squeeze(RawText(articles)) + Squeeze(line[KeptFrom(re, line)..])
  {
    hide Regular, SplitOf, Squeeze, RawText, SegmentTexts, Continued, KeptFrom, Strip;
    var split := SplitOf(re, line, fileLaw);
    SplitTiles(re, line, fileLaw);
    if split.segments == [] {
      UnsplitKept(re, line, fileLaw);
      ContinuedKeeps(articles, number, line, fileLaw);
      assert line[0..] == line;
    } else {
      SegmentsKeep(articles, split, number, line, fileLaw);
    }
  }

  lemma SegmentsKeep(articles: seq<Article>, split: Split, number: nat, line: string, fileLaw: string)
    requires split.segments != []
    ensures Squeeze(RawText(WithSplit(articles, split, number, line, fileLaw))) ==
            Squeeze(RawText(articles)) + (Squeeze(split.leading) + Squeeze(SegmentTexts(split.segments)))
  {
    hide Squeeze, RawText, SegmentTexts, Continued, Strip;
    SqueezeNothing();
    var before := if split.leading != "" then Continued(articles, number, Strip(split.leading), fileLaw) else articles;
    if split.leading != "" {
      ContinuedKeeps(articles, number, Strip(split.leading), fileLaw);
      SqueezeStrip(split.leading);
    }
    RawAppend(before, ArticlesOf(split.segments, number));
    ArticlesHoldTexts(split.segments, number);
    SqueezeAppend(RawText(before), SegmentTexts(split.segments));
  }

  lemma UnsplitKept(re: Patterns, line: string, fileLaw: string)
    requires Regular(re)
    ensures SplitOf(re, line, fileLaw).segments == [] ==> KeptFrom(re, line) == 0
  {
    HeadersOrdered(re, line);
    LawMatchesOrdered(re, line);
    hide Regular, HeadersOf;
  }

  /** Main theorem: the raw texts of the articles, in order, are the statute text of the file, in order, up to
      white space. */
  lemma {:induction false} ParsingConservesText(re: Patterns, lines: seq<string>, fileLaw: string)
    requires Regular(re)
    ensures Squeeze(RawText(ParsedTo(re, lines, fileLaw))) == Squeeze(StatuteTexts(re, lines))
  {
    if lines != [] {
      var n := |lines| - 1;
      ParsingConservesText(re, lines[..n], fileLaw);
      var before := ParsedTo(re, lines[..n], fileLaw);
      var body := Body(re, lines[n]);
      hide Regular, Squeeze, RawText, KeptFrom, SplitOf, WithSplit, Body;
      if body.Some? {
        WithSplitKeeps(re, before, n + 1, body.value, fileLaw);
      } else {
        SqueezeNothing();
      }
      SqueezeAppend(StatuteTexts(re, lines[..n]), StatuteText(re, lines[n]));
    }
  }

  predicate RestMatched(articles: seq<Article>) {
    forall i | 0 < i < |articles| :: !articles[i].status.Unmatched?
  }

  lemma ContinuedMatched(articles: seq<Article>, line: nat, text: string, fileLaw: string)
    requires RestMatched(articles)
    ensures RestMatched(Continued(articles, line, text, fileLaw))
  {
  }

  lemma WithSplitMatched(articles: seq<Article>, split: Split, number: nat, line: string, fileLaw: string)
    requires RestMatched(articles) && forall segment | segment in split.segments :: !segment.status.Unmatched?
    ensures RestMatched(WithSplit(articles, split, number, line, fileLaw))
  {
    hide Continued, Strip;
    ContinuedMatched(articles, number, line, fileLaw);
    ContinuedMatched(articles, number, Strip(split.leading), fileLaw);
    MatchedArticles(split.segments, number);
    hide ArticlesOf;
  }

  /** Only the text in front of the first header of a file can be an article without a number of its own. */
  lemma {:induction false} UnmatchedOnlyFirst(re: Patterns, lines: seq<string>, fileLaw: string)
    requires Regular(re)
    ensures RestMatched(ParsedTo(re, lines, fileLaw))
  {
    hide Regular, Body, SplitOf, WithSplit, RestMatched;
    NoneUnmatched();
    if lines != [] {
      var n := |lines| - 1;
      UnmatchedOnlyFirst(re, lines[..n], fileLaw);
      var body := Body(re, lines[n]);
      if body.Some? {
        SegmentsMatched(re, body.value, fileLaw);
        WithSplitMatched(ParsedTo(re, lines[..n], fileLaw), SplitOf(re, body.value, fileLaw), n + 1, body.value, fileLaw);
      }
    }
  }

  lemma NoneUnmatched()
    ensures RestMatched([])
  {
  }

  lemma SegmentsMatched(re: Patterns, line: string, fileLaw: string)
    requires Regular(re)
    ensures forall segment | segment in SplitOf(re, line, fileLaw).segments :: !segment.status.Unmatched?
  {
    HeadersOrdered(re, line);
    LawMatchesOrdered(re, line);
    hide Regular, HeadersOf, Strip;
  }

  lemma {:induction false} MatchedArticles(segments: seq<Segment>, line: nat)
    requires forall segment | segment in segments :: !segment.status.Unmatched?
    ensures forall article | article in ArticlesOf(segments, line) :: !article.status.Unmatched?
  {
    if segments != [] {
      MatchedArticles(segments[..|segments| - 1], line);
    }
  }
}
