/** Which texts are numbers and article labels, and what they denote (legal_rag/article_numbers.py). */
module ArticleGrammar {
  import opened Common
  import opened Strings
  import opened ArticleNumbers

  // ----- numbers in ASCII digits -----

  function PowerOfTen(n: nat): nat {
    if n == 0 then 1 else 10 * PowerOfTen(n - 1)
  }

  predicate AllDigits(s: string) {
    forall i | 0 <= i < |s| :: '0' <= s[i] <= '9'
  }

  lemma DecimalLast(a: string, c: char)
    requires AllDigits(a) && '0' <= c <= '9'
    ensures Decimal(a + [c]) == 10 * Decimal(a) + (c as int - '0' as int)
  {
    assert (a + [c])[..|a|] == a;
  }

  lemma Regroup(x: nat, p: nat, y: nat, d: nat)
    ensures 10 * (x * p + y) + d == x * (10 * p) + (10 * y + d)
  {
  }

  /** Main theorem: digits count by their place, and one digit counts itself. */
  lemma {:induction false} DecimalMeans(a: string, b: string)
    requires AllDigits(a) && AllDigits(b)
    ensures Decimal(a + b) == Decimal(a) * PowerOfTen(|b|) + Decimal(b)
    ensures Decimal("") == 0 && forall c | '0' <= c <= '9' :: Decimal([c]) == c as int - '0' as int
    decreases |b|
  {
    hide Decimal, PowerOfTen;
    SingleDigits();
    if b == "" {
      assert a + b == a;
      Powers(0);
    } else {
      var init, c := b[..|b| - 1], b[|b| - 1];
      LastApart(a, b);
      DecimalMeans(a, init);
      DecimalLast(a + init, c);
      DecimalLast(init, c);
      Powers(|init|);
      Regroup(Decimal(a), PowerOfTen(|init|), Decimal(init), c as int - '0' as int);
    }
  }

  lemma Powers(n: nat)
    ensures PowerOfTen(0) == 1 && PowerOfTen(n + 1) == 10 * PowerOfTen(n)
  {
  }

  lemma LastApart(a: string, b: string)
    requires b != ""
    ensures b == b[..|b| - 1] + [b[|b| - 1]] && a + b == (a + b[..|b| - 1]) + [b[|b| - 1]]
  {
  }

  lemma SingleDigits()
    ensures Decimal("") == 0 && forall c | '0' <= c <= '9' :: Decimal([c]) == c as int - '0' as int
  {
    forall c | '0' <= c <= '9' ensures Decimal([c]) == c as int - '0' as int {
      DecimalLast("", c);
      assert "" + [c] == [c];
    }
  }

  // ----- Chinese numerals -----

  const PLAIN_DIGITS := "零一二三四五六七八九"
  const FORMAL_DIGITS := "〇壹贰叁肆伍陆柒捌玖"

  /** The characters for each digit. */
  lemma DigitsMean(c: char, d: nat)
    requires d <= 9
    ensures DigitValue(c) == Some(d) <==> c == PLAIN_DIGITS[d] || c == FORMAL_DIGITS[d] || (d == 2 && c == '两')
  {
  }

  lemma UnitsMean(c: char)
    ensures UnitValue(c) == Some(10) <==> c == '十' || c == '拾'
    ensures UnitValue(c) == Some(100) <==> c == '百' || c == '佰'
    ensures UnitValue(c) == Some(1000) <==> c == '千' || c == '仟'
    ensures UnitValue(c).Some? ==> UnitValue(c).value in {10, 100, 1000}
  {
  }

  /** A zero, which counts nothing, or a digit with its unit. */
  datatype Group = Zero(zero: char) | Counted(digit: char, unit: char)

  predicate ProperGroup(g: Group) {
    match g
    case Zero(zero) => DigitValue(zero) == Some(0)
    case Counted(digit, unit) => DigitValue(digit).Some? && DigitValue(digit).value > 0 && UnitValue(unit).Some?
  }

  function GroupText(g: Group): string {
    match g case Zero(zero) => [zero] case Counted(digit, unit) => [digit, unit]
  }

  function GroupValue(g: Group): nat
    requires ProperGroup(g)
  {
    match g case Zero(_) => 0 case Counted(digit, unit) => DigitValue(digit).value * UnitValue(unit).value
  }

  predicate ProperGroups(groups: seq<Group>) {
    forall i | 0 <= i < |groups| :: ProperGroup(groups[i])
  }

  function GroupsText(groups: seq<Group>): string {
    if groups == [] then "" else GroupText(groups[0]) + GroupsText(groups[1..])
  }

  function GroupsValue(groups: seq<Group>): nat
    requires ProperGroups(groups)
  {
    if groups == [] then 0 else GroupValue(groups[0]) + GroupsValue(groups[1..])
  }

  /** One last digit without a unit, or none. */
  predicate ProperLast(last: string) {
    last == "" || (|last| == 1 && DigitValue(last[0]).Some? && DigitValue(last[0]).value > 0)
  }

  function LastValue(last: string): nat
    requires ProperLast(last)
  {
    if last == "" then 0 else DigitValue(last[0]).value
  }

  lemma ZeroDenotes(zero: char, rest: string)
    requires DigitValue(zero) == Some(0) && (rest != "" ==> UnitValue(rest[0]).None?)
    ensures Numeral([zero] + rest, false) == Numeral(rest, false) && UnitValue(zero).None?
  {
    DigitsAreNotUnits(zero);
    hide DigitValue, UnitValue;
    assert ([zero] + rest)[1..] == rest;
    assert AfterZero(rest) == Numeral(rest, false);
  }

  lemma CountedDenotes(digit: char, unit: char, rest: string, m: nat)
    requires ProperGroup(Counted(digit, unit)) && Numeral(rest, false) == Some(m)
    ensures Numeral([digit, unit] + rest, false) == Some(GroupValue(Counted(digit, unit)) + m) && UnitValue(digit).None?
  {
    DigitsAreNotUnits(digit);
    hide DigitValue, UnitValue;
    var s := [digit, unit] + rest;
    assert s[1..] == [unit] + rest && s[1..][1..] == rest;
    assert AfterDigit(DigitValue(digit).value, s[1..]) == Plus(DigitValue(digit).value * UnitValue(unit).value, Numeral(rest, false));
    PlusSome(DigitValue(digit).value * UnitValue(unit).value, m);
  }

  lemma LastDenotes(last: string)
    requires ProperLast(last)
    ensures Numeral(last, false) == Some(LastValue(last)) && (last != "" ==> UnitValue(last[0]).None?)
  {
    hide DigitValue, UnitValue;
    if last != "" {
      DigitsAreNotUnits(last[0]);
      assert last[1..] == "";
      assert AfterDigit(DigitValue(last[0]).value, "") == DigitValue(last[0]);
    }
  }

  lemma {:induction false} GroupsDenote(groups: seq<Group>, last: string)
    requires ProperGroups(groups) && ProperLast(last)
    ensures Numeral(GroupsText(groups) + last, false) == Some(GroupsValue(groups) + LastValue(last))
    ensures var s := GroupsText(groups) + last; s != "" ==> UnitValue(s[0]).None?
  {
    hide DigitValue, UnitValue, Numeral, LastValue, GroupValue;
    if groups == [] {
      assert GroupsText(groups) + last == last;
      LastDenotes(last);
    } else {
      var rest := GroupsText(groups[1..]) + last;
      assert ProperGroups(groups[1..]);
      GroupsDenote(groups[1..], last);
      assert GroupsText(groups) + last == GroupText(groups[0]) + rest;
      FirstGroup(groups[0], rest, GroupsValue(groups[1..]) + LastValue(last));
    }
  }

  lemma FirstGroup(g: Group, rest: string, m: nat)
    requires ProperGroup(g) && Numeral(rest, false) == Some(m) && (rest != "" ==> UnitValue(rest[0]).None?)
    ensures Numeral(GroupText(g) + rest, false) == Some(GroupValue(g) + m)
    ensures var s := GroupText(g) + rest; s != "" && UnitValue(s[0]).None?
  {
    hide DigitValue, UnitValue, Numeral;
    match g
    case Zero(zero) => ZeroDenotes(zero, rest);
    case Counted(digit, unit) => CountedDenotes(digit, unit, rest, m);
  }

  lemma {:induction false} NumeralGroups(s: string) returns (groups: seq<Group>, last: string)
    requires Numeral(s, false).Some?
    ensures ProperGroups(groups) && ProperLast(last) && s == GroupsText(groups) + last
    decreases |s|
  {
    hide DigitValue, UnitValue, Numeral, GroupsText, ProperGroup;
    groups, last := [], "";
    if s == "" {
      NoGroups();
    } else {
      var first := FirstOf(s);
      if first.None? {
        last := s;
        NoGroups();
        assert "" + s == s;
      } else {
        var rest := s[|GroupText(first.value)|..];
        groups, last := NumeralGroups(rest);
        GroupInFront(first.value, groups);
        assert s == GroupText(first.value) + rest;
        groups := [first.value] + groups;
      }
    }
  }

  lemma NoGroups()
    ensures GroupsText([]) == "" && ProperGroups([])
  {
  }

  lemma GroupInFront(g: Group, groups: seq<Group>)
    ensures GroupsText([g] + groups) == GroupText(g) + GroupsText(groups)
  {
    assert ([g] + groups)[1..] == groups;
  }

  /** What a numeral starts with: a group, unless it is one last digit. */
  lemma FirstOf(s: string) returns (first: Option<Group>)
    requires s != "" && Numeral(s, false).Some?
    ensures first.None? ==> ProperLast(s)
    ensures first.Some? ==>
              var g := first.value;
              0 < |GroupText(g)| <= |s| && ProperGroup(g) && s[..|GroupText(g)|] == GroupText(g) && Numeral(s[|GroupText(g)|..], false).Some?
  {
    hide DigitValue, UnitValue;
    var d := DigitValue(s[0]).value;
    if d == 0 {
      first := Some(Zero(s[0]));
      assert s[..1] == [s[0]];
    } else if s[1..] == "" {
      first := None;
    } else {
      first := Some(Counted(s[0], s[1]));
      assert s[..2] == [s[0], s[1]] && s[1..][1..] == s[2..];
    }
  }

  ghost predicate Reads(s: string, n: nat) {
    exists groups, last :: ProperGroups(groups) && ProperLast(last) && s == GroupsText(groups) + last && n == GroupsValue(groups) + LastValue(last)
  }

  /** Main theorem: a numeral is a row of zeros and digits with units, then possibly one digit, and denotes their sum;
      only at its very start a ten may stand without a digit. */
  lemma NumeralMeans(s: string, n: nat)
    ensures Numeral(s, true) == Some(n) <==>
            Reads(s, n) || (s != "" && UnitValue(s[0]) == Some(10) && n >= 10 && Reads(s[1..], n - 10))
    ensures Numeral(s, false) == Some(n) <==> Reads(s, n)
  {
    hide DigitValue, UnitValue, Numeral;
    RowMeans(s, n);
    OpeningTen(s);
    if s != "" && n >= 10 { RowMeans(s[1..], n - 10); }
    if s != "" && Numeral(s[1..], false).Some? {
      PlusSome(10, Numeral(s[1..], false).value);
    }
  }

  lemma RowMeans(s: string, n: nat)
    ensures Numeral(s, false) == Some(n) <==> Reads(s, n)
    ensures Reads(s, n) && s != "" ==> UnitValue(s[0]).None?
  {
    hide DigitValue, UnitValue, Numeral, GroupsText, GroupsValue, LastValue, ProperGroups, ProperLast;
    if Numeral(s, false) == Some(n) {
      var groups, last := NumeralGroups(s);
      GroupsDenote(groups, last);
    }
    if groups, last :| ProperGroups(groups) && ProperLast(last) && s == GroupsText(groups) + last && n == GroupsValue(groups) + LastValue(last) {
      GroupsDenote(groups, last);
    }
  }

  lemma OpeningTen(s: string)
    ensures s != "" && UnitValue(s[0]) == Some(10) ==> Numeral(s, true) == Plus(10, Numeral(s[1..], false)) && Numeral(s, false).None?
    ensures s == "" || UnitValue(s[0]) != Some(10) ==> Numeral(s, true) == Numeral(s, false)
  {
    if s != "" { DigitsAreNotUnits(s[0]); }
    hide DigitValue, UnitValue;
  }

  // ----- labels -----

  predicate Word(s: string, stop: char) {
    s != "" && forall i | 0 <= i < |s| :: !Space(s[i]) && s[i] != stop
  }

  lemma {:induction false} RunIs(word: string, rest: string, stop: char)
    requires forall i | 0 <= i < |word| :: !Space(word[i]) && word[i] != stop
    requires rest == "" || Space(rest[0]) || rest[0] == stop
    ensures Run(word + rest, stop) == word
  {
    hide Space;
    if word == "" {
      assert word + rest == rest;
    } else {
      RunIs(word[1..], rest, stop);
      assert (word + rest)[1..] == word[1..] + rest;
    }
  }

  lemma {:induction false} SkipIs(spaces: string, rest: string)
    requires Blank(spaces) && (rest == "" || !Space(rest[0]))
    ensures SkipSpaces(spaces + rest) == rest
  {
    hide Space, SkipSpaces, Blank;
    if spaces == "" {
      assert spaces + rest == rest;
      SkipNothing(rest);
    } else {
      BlankRest(spaces);
      SkipIs(spaces[1..], rest);
      SkipFirst(spaces, rest);
    }
  }

  lemma FirstAside(s: string, rest: string)
    requires s != ""
    ensures s + rest == [s[0]] + (s[1..] + rest)
  {
  }

  lemma SkipFirst(s: string, rest: string)
    requires s != "" && Space(s[0])
    ensures SkipSpaces(s + rest) == SkipSpaces(s[1..] + rest)
  {
    hide SkipSpaces, Space;
    FirstAside(s, rest);
    SkipOne(s[0], s[1..] + rest);
  }

  lemma BlankRest(s: string)
    requires Blank(s) && s != ""
    ensures Space(s[0]) && Blank(s[1..])
  {
    hide Space;
  }

  lemma SkipOne(c: char, s: string)
    requires Space(c)
    ensures SkipSpaces([c] + s) == SkipSpaces(s)
  {
    assert ([c] + s)[1..] == s;
  }

  lemma CutBefore(s: string, t: string)
    requires |t| <= |s| && t == s[|s| - |t|..]
    ensures s == s[..|s| - |t|] + t
  {
  }

  /** What is skipped is blank. */
  lemma SkippedSpaces(s: string) returns (spaces: string)
    ensures Blank(spaces) && s == spaces + SkipSpaces(s)
  {
    hide SkipSpaces, Space;
    spaces := s[..|s| - |SkipSpaces(s)|];
    CutBefore(s, SkipSpaces(s));
  }

  /** The text behind 条: nothing, or 之 and a word, with spaces before and after the mark. */
  ghost predicate SuffixReads(end: string, suffix: Option<string>) {
    match suffix
    case None => end == ""
    case Some(word) =>
      exists before, between :: Blank(before) && Blank(between) && Word(word, '之') && end == before + ("之" + (between + word))
  }

  lemma MarksAreNotSpaces()
    ensures !Space('第') && !Space('条') && !Space('之')
  {
  }

  lemma SuffixMeans(end: string, suffix: Option<string>)
    ensures MatchSuffix(end) == Some(suffix) <==> SuffixReads(end, suffix)
  {
    hide Space, SkipSpaces, Run, Word;
    MarksAreNotSpaces();
    if MatchSuffix(end) == Some(suffix) && suffix.Some? {
      SuffixParts(end, suffix.value);
    }
    if SuffixReads(end, suffix) && suffix.Some? {
      var word := suffix.value;
      var before, between :| Blank(before) && Blank(between) && Word(word, '之') && end == before + ("之" + (between + word));
      SuffixMatches(before, between, word);
    }
  }

  lemma SuffixParts(end: string, word: string)
    requires MatchSuffix(end) == Some(Some(word))
    ensures SuffixReads(end, Some(word))
  {
    hide Space, SkipSpaces, Run, Word, Blank, SuffixReads;
    var before := SkippedSpaces(end);
    var mark := SkipSpaces(end);
    FirstApart(mark);
    var between := SkippedSpaces(mark[1..]);
    var tail := SkipSpaces(mark[1..]);
    RunIsWord(tail, '之');
    RunInFront(tail, '之');
    WholeRun(tail, word);
    SuffixReadsAs(end, before, between, word);
  }

  lemma WholeRun(tail: string, word: string)
    requires |word| == |tail| && tail == word + tail[|word|..]
    ensures tail == word
  {
  }

  lemma SuffixReadsAs(end: string, before: string, between: string, word: string)
    requires Blank(before) && Blank(between) && Word(word, '之') && end == before + ("之" + (between + word))
    ensures SuffixReads(end, Some(word))
  {
    hide Blank, Word;
  }

  lemma SuffixMatches(before: string, between: string, word: string)
    requires Blank(before) && Blank(between) && Word(word, '之')
    ensures var end := before + ("之" + (between + word)); end != "" && MatchSuffix(end) == Some(Some(word))
  {
    hide Space, SkipSpaces, Run, Word, Blank;
    MarksAreNotSpaces();
    var mark := "之" + (between + word);
    SkipIs(before, mark);
    assert mark[1..] == between + word;
    WordStarts(word, '之');
    SkipIs(between, word);
    WordRuns(word, "", '之');
    assert word + "" == word;
  }

  lemma RunIsWord(s: string, stop: char)
    ensures Run(s, stop) != "" ==> Word(Run(s, stop), stop)
  {
  }

  lemma WordStarts(word: string, stop: char)
    requires Word(word, stop)
    ensures word != "" && !Space(word[0])
  {
  }

  lemma WordRuns(word: string, rest: string, stop: char)
    requires Word(word, stop) && (rest == "" || Space(rest[0]) || rest[0] == stop)
    ensures Run(word + rest, stop) == word
  {
    RunIs(word, rest, stop);
  }

  ghost predicate LabelReads(text: string, number: string, suffix: Option<string>) {
    exists before, after, end ::
      Blank(before) && Blank(after) && Word(number, '条') && SuffixReads(end, suffix) &&
      text == "第" + (before + (number + (after + ("条" + end))))
  }

  /** Main theorem: a label is 第, a word, 条, and possibly 之 and a second word, with spaces between them. */
  lemma LabelMeans(text: string, number: string, suffix: Option<string>)
    ensures MatchLabel(text) == Some((number, suffix)) <==> LabelReads(text, number, suffix)
  {
    hide Space, SkipSpaces, Run, Word, MatchSuffix, SuffixReads;
    MarksAreNotSpaces();
    if MatchLabel(text) == Some((number, suffix)) {
      LabelParts(text, number, suffix);
    }
    if LabelReads(text, number, suffix) {
      var before, after, end :|
        Blank(before) && Blank(after) && Word(number, '条') && SuffixReads(end, suffix) &&
        text == "第" + (before + (number + (after + ("条" + end))));
      LabelMatches(before, number, after, end, suffix);
    }
  }

  lemma NumberParts(body: string) returns (after: string)
    requires Run(body, '条') != ""
    ensures var number, closed := Run(body, '条'), SkipSpaces(body[|Run(body, '条')|..]);
            Blank(after) && Word(number, '条') && body == number + (after + closed)
  {
    hide Space, SkipSpaces, Run, Word, Blank;
    RunIsWord(body, '条');
    RunInFront(body, '条');
    var rest := body[|Run(body, '条')|..];
    after := SkippedSpaces(rest);
  }

  lemma RunInFront(s: string, stop: char)
    ensures s == Run(s, stop) + s[|Run(s, stop)|..]
  {
    hide Run, Space;
  }

  lemma LabelParts(text: string, number: string, suffix: Option<string>)
    requires MatchLabel(text) == Some((number, suffix))
    ensures LabelReads(text, number, suffix)
  {
    hide Space, SkipSpaces, Run, Word, MatchSuffix, SuffixReads, LabelReads, Blank;
    var before := SkippedSpaces(text[1..]);
    var body := SkipSpaces(text[1..]);
    var after := NumberParts(body);
    var closed := SkipSpaces(body[|number|..]);
    SuffixMeans(closed[1..], suffix);
    FirstApart(text);
    FirstApart(closed);
    LabelReadsAs(text, before, number, after, closed[1..], suffix);
  }

  lemma FirstApart(s: string)
    requires s != ""
    ensures s == [s[0]] + s[1..]
  {
  }

  lemma LabelReadsAs(text: string, before: string, number: string, after: string, end: string, suffix: Option<string>)
    requires Blank(before) && Blank(after) && Word(number, '条') && SuffixReads(end, suffix)
    requires text == "第" + (before + (number + (after + ("条" + end))))
    ensures LabelReads(text, number, suffix)
  {
    hide Blank, Word, SuffixReads;
  }

  lemma LabelMatches(before: string, number: string, after: string, end: string, suffix: Option<string>)
    requires Blank(before) && Blank(after) && Word(number, '条') && SuffixReads(end, suffix)
    ensures MatchLabel("第" + (before + (number + (after + ("条" + end))))) == Some((number, suffix))
  {
    hide Space, SkipSpaces, Run, Word, MatchSuffix, SuffixReads;
    MarksAreNotSpaces();
    var closed := "条" + end;
    var rest := after + closed;
    var body := number + rest;
    assert ("第" + (before + body))[1..] == before + body;
    WordStarts(number, '条');
    SkipIs(before, body);
    BlankStarts(after, closed);
    WordRuns(number, rest, '条');
    assert body[|number|..] == rest;
    SkipIs(after, closed);
    assert closed[1..] == end;
    SuffixMeans(end, suffix);
  }

  lemma BlankStarts(spaces: string, closed: string)
    requires Blank(spaces) && closed != "" && closed[0] == '条'
    ensures var rest := spaces + closed; Space(rest[0]) || rest[0] == '条'
  {
    hide Space;
  }

  // ----- whole numbers and labels -----

  /** What a text with Chinese characters denotes. */
  ghost predicate ReadsAtStart(s: string, n: nat) {
    Reads(s, n) || (s != "" && UnitValue(s[0]) == Some(10) && n >= 10 && Reads(s[1..], n - 10))
  }

  ghost predicate Denotes(nfkc: string -> string, text: string, n: nat) {
    var value := Strip(nfkc(text));
    value != "" && if forall c | c in value :: '0' <= c <= '9' then AllDigits(value) && n == Decimal(value) else ReadsAtStart(value, n)
  }

  /** Main theorem: a text denotes a number when, normalized and without the white space around it, it is a row of ASCII
      digits or a Chinese numeral that does. */
  lemma NumberMeans(nfkc: string -> string, text: string, n: nat)
    ensures NumberValue(nfkc, text) == Some(n) <==> Denotes(nfkc, text, n)
  {
    hide Reads, Numeral, UnitValue, Decimal, Strip;
    var value := Strip(nfkc(text));
    NumeralMeans(value, n);
    assert AsciiDigits(value) <==> value != "" && AllDigits(value);
    assert AllDigits(value) <==> forall c | c in value :: '0' <= c <= '9' by {
      if forall c | c in value :: '0' <= c <= '9' {
        forall i | 0 <= i < |value| ensures '0' <= value[i] <= '9' {
          assert value[i] in value;
        }
      }
    }
  }

  ghost predicate Names(nfkc: string -> string, label_: string, n: nat, m: nat) {
    1 <= n <= 9999 && exists number, suffix ::
      && LabelReads(Strip(label_), number, suffix) && Denotes(nfkc, number, n)
      && if suffix.None? then m == 0 else Denotes(nfkc, suffix.value, m) && 1 <= m <= 9999
  }

  /** Main theorem: a label names article n, insertion m, exactly when it reads as a label whose words denote them,
      and both are in range. */
  lemma ParsesIff(nfkc: string -> string, label_: string, n: nat, m: nat)
    ensures ParseLabel(nfkc, label_) == Some((n, m)) <==> Names(nfkc, label_, n, m)
  {
    hide MatchLabel, NumberValue, LabelReads, Denotes, Strip;
    var text := Strip(label_);
    forall number: string, suffix: Option<string> ensures MatchLabel(text) == Some((number, suffix)) <==> LabelReads(text, number, suffix) {
      LabelMeans(text, number, suffix);
    }
    forall word: string, k: nat ensures NumberValue(nfkc, word) == Some(k) <==> Denotes(nfkc, word, k) {
      NumberMeans(nfkc, word, k);
    }
    if MatchLabel(text).Some? {
      var (number, suffix) := MatchLabel(text).value;
      assert LabelReads(text, number, suffix);
    }
  }

  // ----- spelling -----

  /** The places 0 to 3, thousands first, of the digits that are not zero. */
  predicate NonzeroPlaces(n: nat, k: nat, places: seq<nat>) {
    && (forall i | 0 <= i < |places| :: k <= places[i] < 4 && DigitAt(n, places[i]) != 0)
    && (forall i, j | 0 <= i < j < |places| :: places[i] < places[j])
    && (forall p: nat | k <= p < 4 && DigitAt(n, p) != 0 :: p in places)
  }

  /** Their digits with their units, and one zero wherever places are skipped after the place before. */
  function WithZeros(n: nat, places: seq<nat>, before: Option<nat>): string
    requires forall i | 0 <= i < |places| :: places[i] < 4
  {
    if places == [] then ""
    else
      (if before.Some? && places[0] > before.value + 1 then "零" else "")
      + [DigitChar(DigitAt(n, places[0]))] + UnitText(places[0]) + WithZeros(n, places[1..], Some(places[0]))
  }

  lemma {:induction false} SpelledFrom(n: nat, k: nat, places: seq<nat>, before: Option<nat>)
    requires k <= 4 && NonzeroPlaces(n, k, places) && (before.Some? ==> before.value < k)
    ensures SpellFrom(n, k, before.Some?, before.Some? && k > before.value + 1) == WithZeros(n, places, before)
    decreases 4 - k
  {
    hide DigitAt, DigitChar, UnitText;
    if k == 4 {
      NoPlaceBeyond(n, places);
    } else if DigitAt(n, k) == 0 {
      forall i | 0 <= i < |places| ensures k + 1 <= places[i] {
        assert DigitAt(n, places[i]) != 0;
      }
      SpelledFrom(n, k + 1, places, before);
    } else {
      FirstPlaceIs(n, k, places);
      SpelledFrom(n, k + 1, places[1..], Some(k));
    }
  }

  lemma NoPlaceBeyond(n: nat, places: seq<nat>)
    requires NonzeroPlaces(n, 4, places)
    ensures places == []
  {
    hide DigitAt;
    if places != [] {
      PlacesEnd(n, 4, places);
    }
  }

  lemma PlacesEnd(n: nat, k: nat, places: seq<nat>)
    requires NonzeroPlaces(n, k, places) && places != []
    ensures k < 4
  {
    hide DigitAt;
    assert k <= places[0] < 4;
  }

  lemma FirstPlaceIs(n: nat, k: nat, places: seq<nat>)
    requires k < 4 && NonzeroPlaces(n, k, places) && DigitAt(n, k) != 0
    ensures places != [] && places[0] == k && NonzeroPlaces(n, k + 1, places[1..])
  {
    hide DigitAt;
    var i :| 0 <= i < |places| && places[i] == k;
    assert k <= places[0] && i == 0;
    forall p: nat | k + 1 <= p < 4 && DigitAt(n, p) != 0 ensures p in places[1..] {
      var j :| 0 <= j < |places| && places[j] == p;
      assert places[1..][j - 1] == p;
    }
  }

  /** Main theorem: a number is spelled digit by digit with its units, zeros left out at the end and one standing for a
      row of them in between; from ten to nineteen without the first digit. */
  lemma SpellMeans(n: nat, places: seq<nat>)
    requires 1 <= n <= 9999 && NonzeroPlaces(n, 0, places)
    ensures var whole := WithZeros(n, places, None);
            |whole| >= 1 && Spell(n) == if 10 <= n < 20 then whole[1..] else whole
    ensures forall k | 0 <= k < 4 :: DigitAt(n, k) == n / [1000, 100, 10, 1][k] % 10
  {
    SpelledFrom(n, 0, places, None);
    hide SpellFrom, WithZeros, DigitChar;
    if n < 10 {
      OnePlace(n, 3, places);
    } else if n < 20 {
      TeenPlaces(n, places);
    } else {
      SomePlace(n, places);
    }
  }

  lemma OnePlace(n: nat, k: nat, places: seq<nat>)
    requires n < 10 && n > 0 && k == 3 && NonzeroPlaces(n, 0, places)
    ensures WithZeros(n, places, None) == [DigitChar(n)]
  {
    hide DigitChar;
    assert DigitAt(n, 0) == DigitAt(n, 1) == DigitAt(n, 2) == 0 && DigitAt(n, 3) == n;
    assert places == [3] by {
      assert 3 in places;
      assert forall i | 0 <= i < |places| :: places[i] == 3;
    }
  }

  lemma TeenDigits(n: nat)
    requires 10 <= n < 20
    ensures DigitAt(n, 0) == DigitAt(n, 1) == 0 && DigitAt(n, 2) == 1 && DigitAt(n, 3) == n - 10
  {
  }

  lemma OneTerm(n: nat, places: seq<nat>, before: Option<nat>)
    requires places != [] && forall i | 0 <= i < |places| :: places[i] < 4
    requires before.Some? ==> places[0] == before.value + 1
    ensures WithZeros(n, places, before)
            == [DigitChar(DigitAt(n, places[0]))] + UnitText(places[0]) + WithZeros(n, places[1..], Some(places[0]))
  {
    hide DigitAt, DigitChar, UnitText;
  }

  lemma NoTerms(n: nat, before: Option<nat>)
    ensures WithZeros(n, [], before) == ""
  {
  }

  lemma WithoutFirst(c: char, tail: string)
    ensures ([c] + "十" + tail)[1..] == "十" + tail
  {
  }

  lemma TeenPlaces(n: nat, places: seq<nat>)
    requires 10 <= n < 20 && NonzeroPlaces(n, 0, places)
    ensures |WithZeros(n, places, None)| >= 1
    ensures WithZeros(n, places, None)[1..] == "十" + if n > 10 then [DigitChar(n - 10)] else ""
  {
    hide DigitChar, DigitAt, WithZeros;
    TeenDigits(n);
    FirstPlaceIs(n, 2, places);
    var rest := places[1..];
    OneTerm(n, places, None);
    if n > 10 {
      FirstPlaceIs(n, 3, rest);
      NoPlaceBeyond(n, rest[1..]);
      OneTerm(n, rest, Some(2));
      NoTerms(n, Some(3));
      assert WithZeros(n, rest, Some(2)) == [DigitChar(n - 10)];
    } else {
      NoPlaceBeyond(n, rest);
      NoTerms(n, Some(2));
      assert WithZeros(n, rest, Some(2)) == "";
    }
    WithoutFirst(DigitChar(1), WithZeros(n, rest, Some(2)));
  }

  lemma SomePlace(n: nat, places: seq<nat>)
    requires 1 <= n <= 9999 && NonzeroPlaces(n, 0, places)
    ensures |WithZeros(n, places, None)| >= 1
  {
    hide DigitChar, UnitText;
    assert DigitAt(n, 0) != 0 || DigitAt(n, 1) != 0 || DigitAt(n, 2) != 0 || DigitAt(n, 3) != 0;
    assert places != [];
  }
}
