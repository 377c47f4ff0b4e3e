/** Which articles a statute file gives, and what each of them says (legal_rag/data.py).  Beside the conservation of
    the raw text: one article for each header, in order, under the law, the number and the line of that header, with
    the text behind it as its body. */
module ParsedArticles {
  import opened Common
  import opened Strings
  import opened LawParsing

  // ----- headers of one line -----

  /** It does not begin inside the header that opens the line. */
  predicate Clear(found: seq<Header>, h: Header) {
    found != [] ==> found[0].end <= h.start
  }

  /** What was kept ends with the header that opens the line, or with a clear one of the others. */
  predicate LastIsClear(found: seq<Header>, init: seq<Header>, kept: seq<Header>) {
    if kept == [] then found == []
    else kept == found || exists i | 0 <= i < |init| :: init[i] == kept[|kept| - 1] && Clear(found, init[i])
  }

  lemma KeptUnfolds(found: seq<Header>, matches: seq<Header>)
    requires matches != []
    ensures var n := |matches| - 1;
            var before, m := Kept(found, matches[..n]), matches[n];
            Kept(found, matches) == if before != [] && m.start < before[|before| - 1].end then before else before + [m]
  {
  }

  lemma NextIsClear(found: seq<Header>, matches: seq<Header>, before: seq<Header>, line: string)
    requires |found| <= 1 && Ordered(found, line) && Ordered(matches, line) && matches != []
    requires LastIsClear(found, matches[..|matches| - 1], before)
    ensures before != [] && matches[|matches| - 1].start < before[|before| - 1].end <==> !Clear(found, matches[|matches| - 1])
  {
    var n := |matches| - 1;
    if before != [] && before != found {
      var i :| 0 <= i < n && matches[..n][i] == before[|before| - 1] && Clear(found, matches[..n][i]);
      assert matches[i].end <= matches[n].start && InLine(matches[i].start, matches[i].end, line);
    }
  }

  lemma StillClear(found: seq<Header>, matches: seq<Header>, before: seq<Header>)
    requires matches != [] && LastIsClear(found, matches[..|matches| - 1], before)
    ensures LastIsClear(found, matches, before)
    ensures Clear(found, matches[|matches| - 1]) ==> LastIsClear(found, matches, before + [matches[|matches| - 1]])
  {
    hide Clear;
    var n := |matches| - 1;
    if before != [] && before != found {
      var i :| 0 <= i < n && matches[..n][i] == before[|before| - 1] && Clear(found, matches[..n][i]);
      assert matches[i] == before[|before| - 1];
    }
    var longer := before + [matches[n]];
    assert longer[|longer| - 1] == matches[n];
  }

  lemma {:induction false} KeptStep(found: seq<Header>, matches: seq<Header>, line: string)
    requires |found| <= 1 && Ordered(found, line) && Ordered(matches, line) && matches != []
    ensures var n := |matches| - 1;
            Kept(found, matches) == Kept(found, matches[..n]) + if Clear(found, matches[n]) then [matches[n]] else []
    ensures LastIsClear(found, matches, Kept(found, matches))
    decreases |matches|
  {
    hide Kept, LastIsClear, Clear, Ordered;
    var n := |matches| - 1;
    OrderedInit(matches, line);
    if n > 0 { KeptStep(found, matches[..n], line); } else { KeptOfNone(found, matches[..n]); }
    KeptUnfolds(found, matches);
    NextIsClear(found, matches, Kept(found, matches[..n]), line);
    StillClear(found, matches, Kept(found, matches[..n]));
  }

  lemma KeptOfNone(found: seq<Header>, none: seq<Header>)
    requires none == []
    ensures LastIsClear(found, none, Kept(found, none))
  {
  }

  lemma OrderedInit(matches: seq<Header>, line: string)
    requires Ordered(matches, line) && matches != []
    ensures Ordered(matches[..|matches| - 1], line)
  {
  }

  lemma {:induction false} KeptMeans(found: seq<Header>, matches: seq<Header>, line: string, h: Header)
    requires |found| <= 1 && Ordered(found, line) && Ordered(matches, line)
    ensures h in Kept(found, matches) <==> h in found || (h in matches && Clear(found, h))
    decreases |matches|
  {
    hide Clear;
    if matches != [] {
      var n := |matches| - 1;
      OrderedInit(matches, line);
      KeptStep(found, matches, line);
      KeptMeans(found, matches[..n], line, h);
      assert h in matches <==> h in matches[..n] || h == matches[n];
      hide Kept, Ordered;
    }
  }

  /** Main theorem: the headers of a line are the one that opens it and those behind a sentence end that do not
      begin inside it. */
  lemma HeadersMean(re: Patterns, line: string, h: Header)
    requires Regular(re)
    ensures h in HeadersOf(re, line) <==>
            || re.atLineStart(line) == Some(h)
            || (h in re.afterSentence(line) && (re.atLineStart(line).Some? ==> re.atLineStart(line).value.end <= h.start))
  {
    var found := if re.atLineStart(line).Some? then [re.atLineStart(line).value] else [];
    assert Ordered(found, line) && Ordered(re.afterSentence(line), line);
    hide Kept, Regular;
    KeptMeans(found, re.afterSentence(line), line, h);
  }

  // ----- one article for each header -----

  /** Under which heading an article stands, and which text is its header. */
  datatype Heading = Heading(law: string, number: string, status: Status, header: string)

  /** Marks with a law before the number count if there are any; otherwise plain headers under the file's law. */
  function HeadingsOf(re: Patterns, line: string, fileLaw: string): (hs: seq<Heading>)
    requires Regular(re)
    ensures |hs| == if re.withLaw(line) != [] then |re.withLaw(line)| else |HeadersOf(re, line)|
  {
    var ms, plain := re.withLaw(line), HeadersOf(re, line);
    HeadersOrdered(re, line);
    if ms != [] then
      seq(|ms|, i requires 0 <= i < |ms| =>
        Heading(Strip(ms[i].law), re.normalizeNumber(ms[i].article), WithLaw, line[ms[i].start..ms[i].end]))
    else
      seq(|plain|, i requires 0 <= i < |plain| =>
        Heading(fileLaw, re.normalizeNumber(plain[i].article), FromFilename, line[plain[i].start..plain[i].end]))
  }

  /** The article stands under the heading, and says nothing but what its raw text says behind the header. */
  predicate Under(a: Article, h: Heading) {
    a.law == h.law && a.number == h.number && a.status == h.status && Squeeze(a.raw) == Squeeze(h.header) + Squeeze(a.body)
  }

  predicate SegmentUnder(s: Segment, h: Heading) {
    s.law == h.law && s.number == h.number && s.status == h.status && Squeeze(s.text) == Squeeze(h.header) + Squeeze(s.body)
  }

  lemma SqueezeCut(line: string, start: nat, mid: nat, end: nat)
    requires start <= mid <= end <= |line|
    ensures Squeeze(Strip(line[start..end])) == Squeeze(line[start..mid]) + Squeeze(Strip(line[mid..end]))
  {
    hide Squeeze, Strip;
    SqueezeStrip(line[start..end]);
    SqueezeStrip(line[mid..end]);
    SqueezeAppend(line[start..mid], line[mid..end]);
    assert line[start..mid] + line[mid..end] == line[start..end];
  }

  lemma SegmentsUnder(re: Patterns, line: string, fileLaw: string)
    requires Regular(re)
    ensures var segments, headings := SplitOf(re, line, fileLaw).segments, HeadingsOf(re, line, fileLaw);
            |segments| == |headings| && forall i | 0 <= i < |segments| :: SegmentUnder(segments[i], headings[i])
  {
    hide Squeeze, Strip, HeadersOf, Blank, OnlyDecoration;
    LawMatchesOrdered(re, line);
    HeadersOrdered(re, line);
    var ms, hs := re.withLaw(line), HeadersOf(re, line);
    if ms != [] {
      forall i | 0 <= i < |ms| ensures SegmentUnder(LawSegment(re, line, ms, i), HeadingsOf(re, line, fileLaw)[i]) {
        var end := if i + 1 < |ms| then ms[i + 1].start else |line|;
        assert InLine(ms[i].start, ms[i].end, line);
        SqueezeCut(line, ms[i].start, ms[i].end, end);
      }
    } else {
      forall i | 0 <= i < |hs| ensures SegmentUnder(HeaderSegment(re, line, hs, i, fileLaw), HeadingsOf(re, line, fileLaw)[i]) {
        var end := if i + 1 < |hs| then hs[i + 1].start else |line|;
        assert InLine(hs[i].start, hs[i].end, line);
        SqueezeCut(line, hs[i].start, hs[i].end, end);
      }
    }
  }

  /** The headings of the first n lines, each with its line and its place there. */
  datatype Place = Place(line: nat, index: nat, heading: Heading)

  function PlacesIn(headings: seq<Heading>, line: nat): (ps: seq<Place>)
    ensures |ps| == |headings| && forall i | 0 <= i < |ps| :: ps[i] == Place(line, i, headings[i])
  {
    seq(|headings|, i requires 0 <= i < |headings| => Place(line, i, headings[i]))
  }

  function Places(re: Patterns, lines: seq<string>, fileLaw: string): seq<Place>
    requires Regular(re)
  {
    if lines == [] then []
    else
      var n := |lines| - 1;
      Places(re, lines[..n], fileLaw) +
      match Body(re, lines[n])
      case None => []
      case Some(line) => PlacesIn(HeadingsOf(re, line, fileLaw), n + 1)
  }

  predicate StandsAt(a: Article, p: Place) {
    a.line == p.line && a.id.OfSegment? && a.id.line == p.line && a.id.index == p.index && Under(a, p.heading)
  }

  /** The articles, without one that opens the file before any header, stand one for one at the places. */
  predicate StandAt(articles: seq<Article>, places: seq<Place>) {
    var skip := if articles != [] && articles[0].status.Unmatched? then 1 else 0;
    && |articles| == |places| + skip
    && (forall i | 0 <= i < |places| :: StandsAt(articles[i + skip], places[i]))
    && (skip == 1 ==> articles[0].raw == articles[0].body && articles[0].number == "")
  }

  lemma ContinuedUnder(a: Article, h: Heading, text: string)
    requires Under(a, h)
    ensures Under(a.(body := a.body + "\n" + text, raw := a.raw + "\n" + text), h)
  {
    hide Squeeze;
    SqueezeAround(a.raw, text);
    SqueezeAround(a.body, text);
  }

  lemma ContinuedStands(articles: seq<Article>, places: seq<Place>, line: nat, text: string, fileLaw: string)
    requires StandAt(articles, places)
    requires forall i | 0 < i < |articles| :: !articles[i].status.Unmatched?
    ensures StandAt(Continued(articles, line, text, fileLaw), places)
    ensures var after := Continued(articles, line, text, fileLaw); forall i | 0 < i < |after| :: !after[i].status.Unmatched?
  {
    hide Under;
    var after := Continued(articles, line, text, fileLaw);
    if articles != [] {
      var last, n := articles[|articles| - 1], |articles| - 1;
      assert after[n] == last.(body := last.body + "\n" + text, raw := last.raw + "\n" + text);
      assert forall i | 0 <= i < n :: after[i] == articles[i];
      if places != [] && !(last.status.Unmatched? && n == 0) {
        var p := places[|places| - 1];
        assert StandsAt(last, p);
        ContinuedUnder(last, p.heading, text);
      }
    }
  }

  lemma {:induction false} ArticlesOfAt(segments: seq<Segment>, line: nat)
    ensures |ArticlesOf(segments, line)| == |segments|
    ensures forall i | 0 <= i < |segments| :: ArticlesOf(segments, line)[i] == ArticleOf(segments[i], line, i)
  {
    if segments != [] {
      ArticlesOfAt(segments[..|segments| - 1], line);
    }
  }

  lemma NewStands(segment: Segment, heading: Heading, line: nat, index: nat)
    requires SegmentUnder(segment, heading)
    ensures StandsAt(ArticleOf(segment, line, index), Place(line, index, heading))
    ensures ArticleOf(segment, line, index).status == heading.status
  {
    hide Squeeze;
  }

  lemma AppendedStand(articles: seq<Article>, places: seq<Place>, segments: seq<Segment>, headings: seq<Heading>, line: nat)
    requires StandAt(articles, places) && |segments| == |headings|
    requires forall i | 0 < i < |articles| :: !articles[i].status.Unmatched?
    requires forall i | 0 <= i < |segments| :: SegmentUnder(segments[i], headings[i]) && !headings[i].status.Unmatched?
    ensures StandAt(articles + ArticlesOf(segments, line), places + PlacesIn(headings, line))
    ensures var after := articles + ArticlesOf(segments, line); forall i | 0 < i < |after| :: !after[i].status.Unmatched?
  {
    hide StandsAt, SegmentUnder, ArticlesOf, ArticleOf;
    ArticlesOfAt(segments, line);
    var added, more := ArticlesOf(segments, line), PlacesIn(headings, line);
    forall i | 0 <= i < |segments| ensures StandsAt(added[i], more[i]) && !added[i].status.Unmatched? {
      NewStands(segments[i], headings[i], line, i);
    }
  }

  lemma HeadingsMatched(re: Patterns, line: string, fileLaw: string)
    requires Regular(re)
    ensures forall i | 0 <= i < |HeadingsOf(re, line, fileLaw)| :: !HeadingsOf(re, line, fileLaw)[i].status.Unmatched?
  {
    hide Strip;
  }

  /** Main theorem: a file gives one article for each header of its kept lines, in order, with the law, the number and
      the line of that header; an article says in its body what its raw text says behind the header; and only text
      before the first header makes one more, without a number. */
  lemma {:induction false} ArticlesMean(re: Patterns, lines: seq<string>, fileLaw: string)
    requires Regular(re)
    ensures StandAt(ParsedTo(re, lines, fileLaw), Places(re, lines, fileLaw))
    ensures var articles := ParsedTo(re, lines, fileLaw); forall i | 0 < i < |articles| :: !articles[i].status.Unmatched?
  {
    hide StandAt, Body, SplitOf, HeadingsOf, Continued, Strip, PlacesIn, ArticlesOf, SegmentUnder;
    if lines == [] {
      NothingStands();
    } else {
      var n := |lines| - 1;
      ArticlesMean(re, lines[..n], fileLaw);
      var before, places := ParsedTo(re, lines[..n], fileLaw), Places(re, lines[..n], fileLaw);
      var body := Body(re, lines[n]);
      if body.None? {
        assert places + [] == places;
      } else {
        LineStands(re, before, places, body.value, n + 1, fileLaw);
      }
    }
  }

  lemma NothingStands()
    ensures StandAt([], [])
  {
  }

  lemma LineStands(re: Patterns, before: seq<Article>, places: seq<Place>, line: string, number: nat, fileLaw: string)
    requires Regular(re) && StandAt(before, places) && forall i | 0 < i < |before| :: !before[i].status.Unmatched?
    ensures var after := WithSplit(before, SplitOf(re, line, fileLaw), number, line, fileLaw);
            && StandAt(after, places + PlacesIn(HeadingsOf(re, line, fileLaw), number))
            && forall i | 0 < i < |after| :: !after[i].status.Unmatched?
  {
    hide StandAt, SplitOf, HeadingsOf, Continued, Strip, PlacesIn, ArticlesOf, SegmentUnder;
    var split, headings := SplitOf(re, line, fileLaw), HeadingsOf(re, line, fileLaw);
    SegmentsUnder(re, line, fileLaw);
    HeadingsMatched(re, line, fileLaw);
    if split.segments == [] {
      ContinuedStands(before, places, number, line, fileLaw);
      NoPlaces(headings, number);
      assert places + [] == places;
    } else if split.leading != "" {
      ContinuedStands(before, places, number, Strip(split.leading), fileLaw);
      AppendedStand(Continued(before, number, Strip(split.leading), fileLaw), places, split.segments, headings, number);
    } else {
      AppendedStand(before, places, split.segments, headings, number);
    }
  }

  lemma NoPlaces(headings: seq<Heading>, line: nat)
    ensures headings == [] ==> PlacesIn(headings, line) == []
  {
  }

  // ----- which lines count -----

  /** Short, without punctuation at its end, and of the form of a chapter or section title. */
  predicate Title(re: Patterns, text: string) {
    && 1 <= |text| <= 40 && text[|text| - 1] !in ['。', '；', '，', '：', ';', ',', ':'] && re.structureHeading(text)
  }

  /** Main theorem: a line counts, without the white space around it and up to a title at its end, exactly when it is
      neither blank nor itself a title. */
  lemma BodyMeans(re: Patterns, raw: string, text: string)
    requires Regular(re)
    ensures Body(re, raw) == Some(text) <==>
            && !Blank(raw) && !Title(re, Strip(raw)) && text <= Strip(raw)
            && |text| == (match re.trailingHeading(Strip(raw)) case None => |Strip(raw)| case Some(at) => at)
  {
    StripBlank(raw);
    StripTwice(raw);
    hide Strip, Blank, Regular, EndsSentence;
    var line := Strip(raw);
    SameMarks(line);
    assert IsStructureHeading(re, line) <==> Title(re, line);
    assert re.trailingHeading(line).Some? ==> 0 < re.trailingHeading(line).value <= |line| by { HeadingInside(re, line); }
    var at := match re.trailingHeading(line) case None => |line| case Some(end) => end;
    assert line[..|line|] == line;
    assert Body(re, raw) == if Blank(raw) || Title(re, line) then None else Some(line[..at]);
    Prefix(text, line, at);
    hide Title;
  }

  lemma Prefix(text: string, line: string, at: nat)
    requires at <= |line|
    ensures text <= line && |text| == at <==> text == line[..at]
  {
  }

  lemma HeadingInside(re: Patterns, line: string)
    requires Regular(re)
    ensures re.trailingHeading(line).Some? ==> 0 < re.trailingHeading(line).value <= |line|
  {
  }

  lemma SameMarks(s: string)
    ensures EndsSentence(s) <==> s != "" && s[|s| - 1] in ['。', '；', '，', '：', ';', ',', ':']
  {
  }

  lemma StripBlank(s: string)
    ensures Strip(s) == "" <==> Blank(s)
  {
  }

  lemma StripTwice(s: string)
    ensures Strip(Strip(s)) == Strip(s)
  {
    StripFixed(s);
  }

  /** The first line that counts opens the first article; without a header, under the law of the file. */
  lemma {:induction false} OpeningMeans(re: Patterns, lines: seq<string>, fileLaw: string, n: nat)
    requires Regular(re) && n < |lines| && Body(re, lines[n]).Some? && forall k | 0 <= k < n :: Body(re, lines[k]).None?
    ensures var articles := ParsedTo(re, lines, fileLaw);
            && articles != [] && articles[0].line == n + 1
            && (articles[0].status.Unmatched? ==>
                  && articles[0].law == fileLaw && articles[0].id.OfLine? && articles[0].id.line == n + 1
                  && articles[0].id.text <= articles[0].raw)
  {
    hide Body, SplitOf, Strip, Regular, WithSplit, HeadingsOf, Squeeze;
    var last := |lines| - 1;
    var before := ParsedTo(re, lines[..last], fileLaw);
    if n == last {
      NothingCounts(re, lines[..last], fileLaw);
    } else {
      OpeningMeans(re, lines[..last], fileLaw, n);
    }
    if Body(re, lines[last]).Some? {
      var line := Body(re, lines[last]).value;
      SegmentsUnder(re, line, fileLaw);
      HeadingsMatched(re, line, fileLaw);
      OpenedBy(before, SplitOf(re, line, fileLaw), last + 1, line, fileLaw);
    }
  }

  lemma {:induction false} NothingCounts(re: Patterns, lines: seq<string>, fileLaw: string)
    requires Regular(re) && forall k | 0 <= k < |lines| :: Body(re, lines[k]).None?
    ensures ParsedTo(re, lines, fileLaw) == []
  {
    hide Body, SplitOf, Regular;
    if lines != [] {
      NothingCounts(re, lines[..|lines| - 1], fileLaw);
    }
  }

  lemma OpenedBy(articles: seq<Article>, split: Split, number: nat, line: string, fileLaw: string)
    ensures var next := WithSplit(articles, split, number, line, fileLaw);
            && next != []
            && (articles != [] ==> next[0] == articles[0].(body := next[0].body, raw := next[0].raw) && articles[0].raw <= next[0].raw)
            && (articles == [] ==> next[0].line == number)
            && (articles == [] && next[0].status.Unmatched? && (forall i | 0 <= i < |split.segments| :: !split.segments[i].status.Unmatched?) ==>
                  next[0].law == fileLaw && next[0].id.OfLine? && next[0].id.line == number && next[0].id.text <= next[0].raw)
  {
    hide Strip;
    if split.segments != [] {
      ArticlesOfAt(split.segments, number);
    }
  }

  // ----- texts, line by line -----

  /** The texts with line breaks in between. */
  function Joined(texts: seq<string>): string {
    if texts == [] then "" else if |texts| == 1 then texts[0] else Joined(texts[..|texts| - 1]) + "\n" + texts[|texts| - 1]
  }

  function RawTexts(articles: seq<Article>): (texts: seq<string>)
    ensures |texts| == |articles| && forall i | 0 <= i < |texts| :: texts[i] == articles[i].raw
  {
    seq(|articles|, i requires 0 <= i < |articles| => articles[i].raw)
  }

  function TextsOf(segments: seq<Segment>): (texts: seq<string>)
    ensures |texts| == |segments| && forall i | 0 <= i < |texts| :: texts[i] == segments[i].text
  {
    seq(|segments|, i requires 0 <= i < |segments| => segments[i].text)
  }

  /** The pieces a line falls into: the text before its first segment and the segments, or the line itself. */
  function PiecesOf(split: Split, line: string): seq<string> {
    if split.segments == [] then [line]
    else (if split.leading != "" then [Strip(split.leading)] else []) + TextsOf(split.segments)
  }

  lemma DecorationMeans(s: string)
    ensures OnlyDecoration(s) <==> forall c | c in s :: c in {' ', '\t', '　', '#', '*', '>'}
  {
    if OnlyDecoration(s) {
      forall c | c in s ensures Decoration(c) {
        var i :| 0 <= i < |s| && s[i] == c;
      }
    }
    if forall c | c in s :: c in {' ', '\t', '　', '#', '*', '>'} {
      forall i | 0 <= i < |s| ensures Decoration(s[i]) {
        assert s[i] in s;
      }
    }
  }

  /** Segments have no white space around them; before the first one only text counts, and before a plain header only
      text that is not mere decoration. */
  lemma PiecesTrimmed(re: Patterns, line: string, fileLaw: string)
    requires Regular(re)
    ensures var split := SplitOf(re, line, fileLaw);
            && (split.leading != "" ==> if re.withLaw(line) != [] then Strip(split.leading) != "" else !OnlyDecoration(split.leading))
            && forall i | 0 <= i < |split.segments| :: Stripped(split.segments[i].text) && Stripped(split.segments[i].body)
    ensures re.withLaw(line) != [] ==> forall i | 0 <= i < |SplitOf(re, line, fileLaw).segments| :: Stripped(SplitOf(re, line, fileLaw).segments[i].law)
  {
    hide Strip, Stripped, HeadersOf, Blank, OnlyDecoration, Regular, InLine, Ordered, LawOrdered;
    LawMatchesOrdered(re, line);
    HeadersOrdered(re, line);
    var split, ms, hs := SplitOf(re, line, fileLaw), re.withLaw(line), HeadersOf(re, line);
    StripBlank(split.leading);
    if ms != [] {
      forall i | 0 <= i < |ms| ensures var s := LawSegment(re, line, ms, i); Stripped(s.text) && Stripped(s.body) && Stripped(s.law) {
        LawTrimmed(re, line, ms, i);
      }
    } else {
      forall i | 0 <= i < |hs| ensures var s := HeaderSegment(re, line, hs, i, fileLaw); Stripped(s.text) && Stripped(s.body) {
        HeaderTrimmed(re, line, hs, i, fileLaw);
      }
    }
    hide LawSegment, HeaderSegment;
  }

  lemma LawTrimmed(re: Patterns, line: string, ms: seq<LawMatch>, i: nat)
    requires LawOrdered(ms, line) && i < |ms|
    ensures var s := LawSegment(re, line, ms, i); Stripped(s.text) && Stripped(s.body) && Stripped(s.law)
  {
    hide Strip, Stripped;
    var end := NextStart(LawStarts(ms), i, |line|);
    StripFixed(ms[i].law);
    StripFixed(line[ms[i].end..end]);
    StripFixed(line[ms[i].start..end]);
  }

  lemma HeaderTrimmed(re: Patterns, line: string, hs: seq<Header>, i: nat, fileLaw: string)
    requires Ordered(hs, line) && i < |hs|
    ensures var s := HeaderSegment(re, line, hs, i, fileLaw); Stripped(s.text) && Stripped(s.body)
  {
    hide Strip, Stripped;
    var end := NextStart(HeaderStarts(hs), i, |line|);
    StripFixed(line[hs[i].end..end]);
    StripFixed(line[hs[i].start..end]);
  }

  function PiecesTo(re: Patterns, lines: seq<string>, fileLaw: string): seq<string>
    requires Regular(re)
  {
    if lines == [] then []
    else
      var n := |lines| - 1;
      PiecesTo(re, lines[..n], fileLaw) +
      match Body(re, lines[n])
      case None => []
      case Some(line) => PiecesOf(SplitOf(re, line, fileLaw), line)
  }

  lemma JoinedSnoc(texts: seq<string>, last: string)
    ensures Joined(texts + [last]) == if texts == [] then last else Joined(texts) + "\n" + last
  {
    assert (texts + [last])[..|texts|] == texts;
  }

  lemma {:induction false} JoinedAppend(a: seq<string>, b: seq<string>, c: seq<string>)
    requires Joined(a) == Joined(b) && (a == [] <==> b == [])
    ensures Joined(a + c) == Joined(b + c)
  {
    hide Joined;
    if c == [] {
      assert a + c == a && b + c == b;
    } else {
      var n := |c| - 1;
      JoinedAppend(a, b, c[..n]);
      assert a + c == (a + c[..n]) + [c[n]] && b + c == (b + c[..n]) + [c[n]];
      JoinedSnoc(a + c[..n], c[n]);
      JoinedSnoc(b + c[..n], c[n]);
    }
  }

  lemma ContinuedJoins(articles: seq<Article>, line: nat, text: string, fileLaw: string)
    ensures Continued(articles, line, text, fileLaw) != []
    ensures Joined(RawTexts(Continued(articles, line, text, fileLaw))) == Joined(RawTexts(articles) + [text])
  {
    hide Joined;
    var next := Continued(articles, line, text, fileLaw);
    if articles == [] {
      assert RawTexts(next) == [] + [text] && RawTexts(articles) == [];
    } else {
      var n := |articles| - 1;
      var init, last := RawTexts(articles[..n]), articles[n].raw;
      assert RawTexts(articles) == init + [last] && RawTexts(next) == init + [last + "\n" + text];
      JoinedSnoc(init, last);
      JoinedSnoc(init, last + "\n" + text);
      JoinedSnoc(init + [last], text);
      assert init != [] ==> Joined(init) + "\n" + (last + "\n" + text) == (Joined(init) + "\n" + last) + "\n" + text;
    }
  }

  lemma SplitJoins(articles: seq<Article>, split: Split, number: nat, line: string, fileLaw: string)
    ensures WithSplit(articles, split, number, line, fileLaw) != []
    ensures Joined(RawTexts(WithSplit(articles, split, number, line, fileLaw))) == Joined(RawTexts(articles) + PiecesOf(split, line))
  {
    hide Joined, Strip, Continued;
    if split.segments == [] {
      ContinuedJoins(articles, number, line, fileLaw);
    } else {
      ArticlesOfAt(split.segments, number);
      var more := ArticlesOf(split.segments, number);
      assert RawTexts(more) == TextsOf(split.segments);
      if split.leading != "" {
        var text := Strip(split.leading);
        ContinuedJoins(articles, number, text, fileLaw);
        var next := Continued(articles, number, text, fileLaw);
        JoinedAppend(RawTexts(next), RawTexts(articles) + [text], TextsOf(split.segments));
        assert RawTexts(next + more) == RawTexts(next) + TextsOf(split.segments);
        assert RawTexts(articles) + PiecesOf(split, line) == (RawTexts(articles) + [text]) + TextsOf(split.segments);
      } else {
        assert RawTexts(articles + more) == RawTexts(articles) + PiecesOf(split, line);
      }
    }
  }

  /** Main theorem: the raw texts of the articles, joined with line breaks, are the pieces of the kept lines, joined
      with line breaks. */
  lemma {:induction false} RawTextsMean(re: Patterns, lines: seq<string>, fileLaw: string)
    requires Regular(re)
    ensures ParsedTo(re, lines, fileLaw) == [] <==> PiecesTo(re, lines, fileLaw) == []
    ensures Joined(RawTexts(ParsedTo(re, lines, fileLaw))) == Joined(PiecesTo(re, lines, fileLaw))
  {
    hide Joined, Body, SplitOf, Regular, WithSplit, PiecesOf;
    if lines == [] {
      assert RawTexts([]) == [];
    } else {
      var n := |lines| - 1;
      RawTextsMean(re, lines[..n], fileLaw);
      var before, pieces := ParsedTo(re, lines[..n], fileLaw), PiecesTo(re, lines[..n], fileLaw);
      if Body(re, lines[n]).Some? {
        var line := Body(re, lines[n]).value;
        var split := SplitOf(re, line, fileLaw);
        SplitJoins(before, split, n + 1, line, fileLaw);
        SomePieces(split, line);
        JoinedAppend(RawTexts(before), pieces, PiecesOf(split, line));
      } else {
        assert pieces + [] == pieces;
      }
    }
  }

  lemma SomePieces(split: Split, line: string)
    ensures PiecesOf(split, line) != []
  {
    hide Strip;
    if split.segments != [] { assert |TextsOf(split.segments)| > 0; }
  }

  /** An article is the segment it began with and, in raw text and body alike, the same continuation. */
  ghost predicate Grown(a: Article, s: Segment, line: nat, index: nat) {
    a.id == OfSegment(line, index, s.text) && exists tail :: a.raw == s.text + tail && a.body == s.body + tail
  }

  datatype Begun = Begun(line: nat, index: nat, segment: Segment)

  function BegunBy(segments: seq<Segment>, line: nat): (all: seq<Begun>)
    ensures |all| == |segments| && forall i | 0 <= i < |all| :: all[i] == Begun(line, i, segments[i])
  {
    seq(|segments|, i requires 0 <= i < |segments| => Begun(line, i, segments[i]))
  }

  function BegunTo(re: Patterns, lines: seq<string>, fileLaw: string): seq<Begun>
    requires Regular(re)
  {
    if lines == [] then []
    else
      var n := |lines| - 1;
      BegunTo(re, lines[..n], fileLaw) +
      match Body(re, lines[n])
      case None => []
      case Some(line) => BegunBy(SplitOf(re, line, fileLaw).segments, n + 1)
  }

  /** The last articles are those that were begun, in order; at most one opens the file before them. */
  ghost predicate AllGrown(articles: seq<Article>, begun: seq<Begun>) {
    && |begun| <= |articles| <= |begun| + 1
    && forall i | 0 <= i < |begun| :: Grown(articles[|articles| - |begun| + i], begun[i].segment, begun[i].line, begun[i].index)
  }

  lemma ContinuedGrows(articles: seq<Article>, begun: seq<Begun>, line: nat, text: string, fileLaw: string)
    requires AllGrown(articles, begun)
    ensures AllGrown(Continued(articles, line, text, fileLaw), begun)
  {
    hide Grown;
    if begun != [] {
      var last, b := articles[|articles| - 1], begun[|begun| - 1];
      assert Grown(last, b.segment, b.line, b.index);
      GrowsOn(last, b.segment, b.line, b.index, text);
    }
  }

  lemma GrowsOn(a: Article, s: Segment, line: nat, index: nat, text: string)
    requires Grown(a, s, line, index)
    ensures Grown(a.(body := a.body + "\n" + text, raw := a.raw + "\n" + text), s, line, index)
  {
    var tail :| a.raw == s.text + tail && a.body == s.body + tail;
    assert a.raw + "\n" + text == s.text + (tail + "\n" + text) && a.body + "\n" + text == s.body + (tail + "\n" + text);
  }

  lemma NewGrown(s: Segment, line: nat, index: nat)
    ensures Grown(ArticleOf(s, line, index), s, line, index)
  {
    assert s.text == s.text + "" && s.body == s.body + "";
  }

  lemma SplitGrows(articles: seq<Article>, begun: seq<Begun>, split: Split, number: nat, line: string, fileLaw: string)
    requires AllGrown(articles, begun)
    ensures AllGrown(WithSplit(articles, split, number, line, fileLaw), begun + BegunBy(split.segments, number))
  {
    hide Grown, Continued, Strip;
    if split.segments == [] {
      ContinuedGrows(articles, begun, number, line, fileLaw);
      assert begun + BegunBy(split.segments, number) == begun;
    } else {
      ContinuedGrows(articles, begun, number, Strip(split.leading), fileLaw);
      ArticlesOfAt(split.segments, number);
      forall i | 0 <= i < |split.segments| ensures Grown(ArticlesOf(split.segments, number)[i], split.segments[i], number, i) {
        NewGrown(split.segments[i], number, i);
      }
    }
  }

  /** Main theorem: whatever follows an article's segment is added to its raw text and to its body alike. */
  lemma {:induction false} ArticlesGrow(re: Patterns, lines: seq<string>, fileLaw: string)
    requires Regular(re)
    ensures AllGrown(ParsedTo(re, lines, fileLaw), BegunTo(re, lines, fileLaw))
  {
    hide Body, SplitOf, Regular, WithSplit, Grown, AllGrown;
    if lines == [] {
      NothingGrown();
    } else {
      var n := |lines| - 1;
      ArticlesGrow(re, lines[..n], fileLaw);
      var before, begun := ParsedTo(re, lines[..n], fileLaw), BegunTo(re, lines[..n], fileLaw);
      if Body(re, lines[n]).Some? {
        var line := Body(re, lines[n]).value;
        SplitGrows(before, begun, SplitOf(re, line, fileLaw), n + 1, line, fileLaw);
      } else {
        assert begun + [] == begun;
      }
    }
  }

  lemma NothingGrown()
    ensures AllGrown([], [])
  {
  }
}
