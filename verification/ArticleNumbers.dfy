/** Chinese numerals and the canonical labels of articles (legal_rag/article_numbers.py). */
module ArticleNumbers {
  import opened Common
  import opened Strings

  const MAX_ARTICLE_NUMBER := 9999
  const DIGITS := "零一二三四五六七八九"
  const ARTICLE_OPEN := '第'
  const ARTICLE_CLOSE := '条'
  const SUFFIX_MARK := '之'

  function DigitChar(d: nat): char
    requires d <= 9
  {
    DIGITS[d]
  }

  function DigitValue(c: char): Option<nat> {
    match c
    case '零' => Some(0) case '〇' => Some(0)
    case '一' => Some(1) case '壹' => Some(1)
    case '二' => Some(2) case '两' => Some(2) case '贰' => Some(2)
    case '三' => Some(3) case '叁' => Some(3)
    case '四' => Some(4) case '肆' => Some(4)
    case '五' => Some(5) case '伍' => Some(5)
    case '六' => Some(6) case '陆' => Some(6)
    case '七' => Some(7) case '柒' => Some(7)
    case '八' => Some(8) case '捌' => Some(8)
    case '九' => Some(9) case '玖' => Some(9)
    case _ => None
  }

  function UnitValue(c: char): Option<nat> {
    match c
    case '十' => Some(10) case '拾' => Some(10)
    case '百' => Some(100) case '佰' => Some(100)
    case '千' => Some(1000) case '仟' => Some(1000)
    case _ => None
  }

  lemma DigitsAreNotUnits(c: char)
    ensures DigitValue(c).None? || UnitValue(c).None?
    ensures DigitValue(c).Some? ==> DigitValue(c).value <= 9
    ensures UnitValue(c).Some? ==> UnitValue(c).value >= 10
  {
  }

  // ----- what a numeral denotes -----

  function Plus(n: nat, rest: Option<nat>): Option<nat> {
    match rest
    case None => None
    case Some(m) => Some(n + m)
  }

  /** A numeral is a sum of terms digit-unit, then possibly one last digit.  Zeros may stand before any
      digit but not before a unit, and only a ten that opens the numeral may go without its digit. */
  function Numeral(s: string, opening: bool): Option<nat>
    decreases |s|, 1
  {
    if s == "" then Some(0)
    else if DigitValue(s[0]).Some? then
      var d := DigitValue(s[0]).value;
      if d == 0 then AfterZero(s[1..]) else AfterDigit(d, s[1..])
    else if UnitValue(s[0]) == Some(10) && opening then Plus(10, Numeral(s[1..], false))
    else None
  }

  function AfterZero(s: string): Option<nat>
    decreases |s|, 2
  {
    if s != "" && UnitValue(s[0]).Some? then None else Numeral(s, false)
  }

  function AfterDigit(d: nat, s: string): Option<nat>
    decreases |s|, 0
  {
    if s == "" then Some(d)
    else if UnitValue(s[0]).Some? then Plus(d * UnitValue(s[0]).value, Numeral(s[1..], false))
    else None
  }

  predicate AsciiDigits(s: string) {
    s != "" && forall i | 0 <= i < |s| :: '0' <= s[i] <= '9'
  }

  function Decimal(s: string): nat
    requires forall i | 0 <= i < |s| :: '0' <= s[i] <= '9'
  {
    if s == "" then 0 else 10 * Decimal(s[..|s| - 1]) + (s[|s| - 1] as int - '0' as int)
  }

  /** chinese_number_to_int; None stands for the ValueError it raises, nfkc for Unicode normalization. */
  function NumberValue(nfkc: string -> string, text: string): Option<nat> {
    var value := Strip(nfkc(text));
    if value == "" then None
    else if AsciiDigits(value) then Some(Decimal(value))
    else Numeral(value, true)
  }

  /** What the loop still has to add when it has read everything before s. */
  function Remaining(pending: Option<nat>, s: string, opening: bool): Option<nat> {
    match pending
    case None => Numeral(s, opening)
    case Some(d) => if d == 0 then AfterZero(s) else AfterDigit(d, s)
  }

  lemma ReadDigit(pending: Option<nat>, s: string, opening: bool)
    requires s != "" && DigitValue(s[0]).Some?
    ensures Remaining(pending, s, opening)
            == if pending.Some? && pending.value != 0 then None else Remaining(DigitValue(s[0]), s[1..], false)
  {
    DigitsAreNotUnits(s[0]);
    var c := s[0];
    assert UnitValue(c).None?;
    hide DigitValue, UnitValue;
    if pending == Some(0) {
      assert AfterZero(s) == Numeral(s, false);
    } else if pending.Some? {
      assert AfterDigit(pending.value, s).None?;
    }
    var d := DigitValue(c).value;
    assert forall first :: Numeral(s, first) == if d == 0 then AfterZero(s[1..]) else AfterDigit(d, s[1..]);
  }

  lemma ReadUnit(pending: Option<nat>, s: string, opening: bool)
    requires s != "" && DigitValue(s[0]).None?
    ensures Remaining(pending, s, opening) ==
            if UnitValue(s[0]).None? || pending == Some(0) then None
            else if pending.Some? then Plus(pending.value * UnitValue(s[0]).value, Remaining(None, s[1..], false))
            else if UnitValue(s[0]).value == 10 && opening then Plus(10, Remaining(None, s[1..], false))
            else None
  {
    hide DigitValue, UnitValue;
    assert Numeral(s, false).None?;
    if pending == Some(0) {
      assert AfterZero(s).None?;
    } else if pending.Some? {
      assert AfterDigit(pending.value, s) ==
             if UnitValue(s[0]).None? then None else Plus(pending.value * UnitValue(s[0]).value, Numeral(s[1..], false));
    }
  }

  lemma PlusTwice(n: nat, m: nat, rest: Option<nat>)
    ensures Plus(n, Plus(m, rest)) == Plus(n + m, rest)
  {
  }

  lemma PlusSome(n: nat, m: nat)
    ensures Plus(n, Some(m)) == Some(n + m) && Plus(n, None).None?
  {
  }

  lemma ReadNothing(pending: Option<nat>, opening: bool)
    ensures Remaining(pending, "", opening) == Some(if pending.Some? then pending.value else 0)
  {
  }

  method ChineseNumberToInt(nfkc: string -> string, text: string) returns (result: Option<nat>)
    ensures result == NumberValue(nfkc, text)
  {
    var value := Strip(nfkc(text));
    if value == "" {
      return None;
    }
    if AsciiDigits(value) {
      return Some(Decimal(value));
    }
    hide Numeral, Strip, AsciiDigits;
    result := ReadNumeral(value);
  }

  /** The loop over the characters computes exactly what the numeral denotes, on strings of any length. */
  method ReadNumeral(value: string) returns (result: Option<nat>)
    requires value != ""
    ensures result == Numeral(value, true)
  {
    var total: nat := 0;
    var pending: Option<nat> := None;
    var i := 0;
    assert value[0..] == value && Plus(0, Remaining(None, value, true)) == Numeral(value, true);
    hide Numeral, Remaining, AfterDigit, AfterZero, DigitValue, UnitValue, Plus;
    while i < |value|
      invariant i <= |value|
      invariant pending.None? ==> (total == 0 <==> i == 0)
      invariant Numeral(value, true) == Plus(total, Remaining(pending, value[i..], i == 0))
    {
      var c := value[i];
      PlusSome(total, 0);
      assert value[i..][0] == c && value[i..][1..] == value[i + 1..];
      if DigitValue(c).Some? {
        ReadDigit(pending, value[i..], i == 0);
        if pending.Some? && pending.value != 0 {
          return None;
        }
        pending := DigitValue(c);
      } else {
        ReadUnit(pending, value[i..], i == 0);
        if UnitValue(c).None? {
          return None;
        }
        var unit := UnitValue(c).value;
        DigitsAreNotUnits(c);
        if pending.None? {
          if unit != 10 || total != 0 {
            return None;
          }
          pending := Some(1);
        } else if pending.value == 0 {
          return None;
        }
        var term := pending.value * unit;
        TermPositive(pending.value, unit);
        PlusTwice(total, term, Remaining(None, value[i + 1..], false));
        total := total + term;
        pending := None;
      }
      i := i + 1;
    }
    assert value[i..] == "";
    ReadNothing(pending, i == 0);
    PlusSome(total, if pending.Some? then pending.value else 0);
    result := Some(total + if pending.Some? then pending.value else 0);
  }

  lemma TermPositive(d: nat, unit: nat)
    requires d >= 1 && unit >= 10
    ensures d * unit >= 10
  {
  }

  // ----- formatting -----

  /** The four units in writing order, with the character written after their digit. */
  function UnitAt(k: nat): (unit: nat)
    ensures unit >= 1
  {
    if k == 0 then 1000 else if k == 1 then 100 else if k == 2 then 10 else 1
  }

  function UnitText(k: nat): string {
    if k == 0 then "千" else if k == 1 then "百" else if k == 2 then "十" else ""
  }

  function DigitAt(n: nat, k: nat): nat
    requires k < 4
  {
    n / UnitAt(k) % 10
  }

  /** The spelling of the digits from position k on; started says that some digit was already written,
      gap that zeros were skipped since then. */
  function SpellFrom(n: nat, k: nat, started: bool, gap: bool): string
    requires k <= 4
    decreases 4 - k
  {
    if k == 4 then ""
    else if DigitAt(n, k) == 0 then SpellFrom(n, k + 1, started, gap || started)
    else Term(gap, DigitAt(n, k), k) + SpellFrom(n, k + 1, true, false)
  }

  /** One digit with its unit, after a zero when zeros were skipped. */
  function Term(gap: bool, d: nat, k: nat): string
    requires d <= 9
  {
    (if gap then "零" else "") + [DigitChar(d)] + UnitText(k)
  }

  function Spell(n: nat): string
    requires 1 <= n <= MAX_ARTICLE_NUMBER
  {
    if n < 10 then [DigitChar(n)]
    else if n < 20 then "十" + (if n > 10 then [DigitChar(n - 10)] else "")
    else SpellFrom(n, 0, false, false)
  }

  lemma NothingLeft(n: nat, started: bool, gap: bool)
    ensures SpellFrom(n, 4, started, gap) == ""
  {
  }

  /** One round of the formatting loop. */
  lemma SpellStep(n: nat, k: nat, written: string, gap: bool)
    requires k < 4
    ensures DigitAt(n, k) == 0 ==>
              written + SpellFrom(n, k, written != "", gap) == written + SpellFrom(n, k + 1, written != "", gap || written != "")
    ensures DigitAt(n, k) != 0 ==>
              written + SpellFrom(n, k, written != "", gap)
              == written + Term(gap, DigitAt(n, k), k) + SpellFrom(n, k + 1, true, false)
  {
    hide Term, DigitAt;
  }

  /** int_to_chinese_number; None stands for the ValueError of an out-of-range number. */
  method IntToChineseNumber(value: int) returns (text: Option<string>)
    ensures text == if 1 <= value <= MAX_ARTICLE_NUMBER then Some(Spell(value)) else None
  {
    if !(1 <= value <= MAX_ARTICLE_NUMBER) {
      return None;
    }
    if value < 10 {
      return Some([DigitChar(value)]);
    }
    if value < 20 {
      return Some("十" + (if value > 10 then [DigitChar(value - 10)] else ""));
    }
    var spelled := SpellByUnits(value);
    text := Some(spelled);
  }

  method SpellByUnits(value: nat) returns (written: string)
    ensures written == SpellFrom(value, 0, false, false)
  {
    hide SpellFrom, UnitText, DigitChar;
    written := "";
    var zeroPending := false;
    var k := 0;
    while k < 4
      invariant k <= 4
      invariant SpellFrom(value, 0, false, false) == written + SpellFrom(value, k, written != "", zeroPending)
    {
      var digit := value / UnitAt(k) % 10;
      ghost var before := written;
      SpellStep(value, k, written, zeroPending);
      if digit == 0 {
        if written != "" {
          zeroPending := true;
        }
      } else {
        ghost var gap := zeroPending;
        if zeroPending {
          written := written + "零";
          zeroPending := false;
        }
        written := written + [DigitChar(digit)] + UnitText(k);
        assert written == before + Term(gap, digit, k);
      }
      k := k + 1;
    }
    NothingLeft(value, written != "", zeroPending);
  }

  predicate Plain(c: char) { DigitValue(c).Some? || UnitValue(c).Some? }

  predicate PlainText(s: string) {
    forall i | 0 <= i < |s| :: Plain(s[i])
  }

  predicate PlainNumeral(s: string) {
    s != "" && PlainText(s)
  }

  lemma PlainIsOrdinary(c: char)
    requires Plain(c)
    ensures !Space(c) && c != ARTICLE_OPEN && c != ARTICLE_CLOSE && c != SUFFIX_MARK && !('0' <= c <= '9')
  {
  }

  lemma DigitChars(d: nat)
    requires d <= 9
    ensures DigitValue(DigitChar(d)) == Some(d)
  {
  }

  function Tail(n: nat, k: nat): nat
    requires k <= 4
  {
    if k == 0 then n % 10000 else if k == 1 then n % 1000 else if k == 2 then n % 100 else if k == 3 then n % 10 else 0
  }

  lemma ThousandsSplit(n: nat)
    ensures n % 10000 == n / 1000 % 10 * 1000 + n % 1000
  {
    assert n / 1000 == 10 * (n / 10000) + n / 1000 % 10;
  }

  lemma HundredsSplit(n: nat)
    ensures n % 1000 == n / 100 % 10 * 100 + n % 100
  {
    assert n / 100 == 10 * (n / 1000) + n / 100 % 10;
  }

  lemma TensSplit(n: nat)
    ensures n % 100 == n / 10 % 10 * 10 + n % 10
  {
    assert n / 10 == 10 * (n / 100) + n / 10 % 10;
  }

  /** d times the k-th unit, written without a product of two variables. */
  function TermValue(d: nat, k: nat): nat {
    if k == 0 then 1000 * d else if k == 1 then 100 * d else if k == 2 then 10 * d else d
  }

  lemma TailSplits(n: nat, k: nat)
    requires k < 4
    ensures Tail(n, k) == TermValue(DigitAt(n, k), k) + Tail(n, k + 1)
    ensures DigitAt(n, k) <= 9
  {
    if k == 0 {
      ThousandsSplit(n);
    } else if k == 1 {
      HundredsSplit(n);
    } else if k == 2 {
      TensSplit(n);
    }
  }

  lemma {:induction false} SpellFromDenotes(n: nat, k: nat, started: bool, gap: bool)
    requires k <= 4 && (gap ==> started)
    ensures Numeral(SpellFrom(n, k, started, gap), !started) == Some(Tail(n, k))
    ensures PlainText(SpellFrom(n, k, started, gap))
    decreases 4 - k
  {
    hide Numeral, PlainText, Plain, Tail, TermValue, Term, DigitAt, SpellFrom;
    if k == 4 {
      EndDenotes(n, started, gap);
    } else {
      var d := DigitAt(n, k);
      TailSplits(n, k);
      SpellUnfolds(n, k, started, gap);
      if d == 0 {
        NoTermValue(k);
        SpellFromDenotes(n, k + 1, started, gap || started);
      } else {
        SpellFromDenotes(n, k + 1, true, false);
        var rest, m := SpellFrom(n, k + 1, true, false), Tail(n, k + 1);
        if k == 3 {
          EndDenotes(n, true, false);
        }
        TermPlain(d, k, rest, gap);
        TermDenotes(d, k, rest, m, gap, !started);
      }
    }
  }

  lemma SpellUnfolds(n: nat, k: nat, started: bool, gap: bool)
    requires k < 4
    ensures SpellFrom(n, k, started, gap) ==
            if DigitAt(n, k) == 0 then SpellFrom(n, k + 1, started, gap || started)
            else Term(gap, DigitAt(n, k), k) + SpellFrom(n, k + 1, true, false)
  {
    hide Term, DigitAt;
  }

  lemma NoTermValue(k: nat)
    ensures TermValue(0, k) == 0
  {
  }

  lemma EndDenotes(n: nat, started: bool, gap: bool)
    ensures Tail(n, 4) == 0 && SpellFrom(n, 4, started, gap) == "" && PlainText("")
    ensures Numeral("", !started) == Some(0)
  {
  }

  lemma TermDenotes(d: nat, k: nat, rest: string, m: nat, gap: bool, opening: bool)
    requires 1 <= d <= 9 && k < 4
    requires Numeral(rest, false) == Some(m)
    requires k == 3 ==> rest == "" && m == 0
    ensures Numeral(Term(gap, d, k) + rest, opening) == Some(TermValue(d, k) + m)
  {
    hide Numeral, AfterDigit, TermValue, DigitChar, UnitText, DigitValue, UnitValue;
    var unit := UnitText(k) + rest;
    var term := [DigitChar(d)] + unit;
    UnitDenotes(d, k, rest, m);
    ReadNonzero(d, unit, opening);
    ReadNonzero(d, unit, false);
    DigitChars(d);
    DigitsAreNotUnits(DigitChar(d));
    if gap {
      ReadGap(term, opening);
      assert Term(gap, d, k) + rest == "零" + term;
    } else {
      assert Term(gap, d, k) + rest == term;
    }
  }

  lemma ReadNonzero(d: nat, unit: string, opening: bool)
    requires 1 <= d <= 9
    ensures Numeral([DigitChar(d)] + unit, opening) == AfterDigit(d, unit)
  {
    DigitChars(d);
    hide DigitChar, DigitValue, UnitValue;
    assert ([DigitChar(d)] + unit)[1..] == unit;
  }

  lemma ReadGap(s: string, opening: bool)
    requires s != "" && UnitValue(s[0]).None?
    ensures Numeral("零" + s, opening) == Numeral(s, false)
  {
    assert DigitValue('零') == Some(0);
    hide DigitValue, UnitValue;
    assert ("零" + s)[0] == '零' && ("零" + s)[1..] == s;
    assert AfterZero(s) == Numeral(s, false);
  }

  lemma TermPlain(d: nat, k: nat, rest: string, gap: bool)
    requires d <= 9 && PlainText(rest)
    ensures PlainText(Term(gap, d, k) + rest)
  {
    DigitChars(d);
    var term := Term(gap, d, k);
    forall i | 0 <= i < |term| ensures Plain(term[i]) {
    }
  }

  lemma UnitDenotes(d: nat, k: nat, rest: string, m: nat)
    requires 1 <= d <= 9 && k < 4
    requires Numeral(rest, false) == Some(m)
    requires k == 3 ==> rest == "" && m == 0
    ensures AfterDigit(d, UnitText(k) + rest) == Some(TermValue(d, k) + m)
  {
    var unit := UnitText(k) + rest;
    if k < 3 {
      assert unit[0] == UnitText(k)[0] && unit[1..] == rest;
    } else {
      assert unit == "";
    }
  }

  /** Reading a spelled number gives the number back, for every number in range. */
  lemma SpellDenotes(n: nat)
    requires 1 <= n <= MAX_ARTICLE_NUMBER
    ensures Numeral(Spell(n), true) == Some(n) && PlainNumeral(Spell(n))
  {
    hide Numeral, Spell, PlainNumeral;
    if n < 10 {
      DigitDenotes(n);
    } else if n < 20 {
      TeenDenotes(n);
    } else {
      LongDenotes(n);
    }
  }

  lemma DigitDenotes(n: nat)
    requires 1 <= n < 10
    ensures Numeral(Spell(n), true) == Some(n) && PlainNumeral(Spell(n))
  {
    DigitChars(n);
    assert Spell(n)[1..] == "";
  }

  lemma LongDenotes(n: nat)
    requires 20 <= n <= MAX_ARTICLE_NUMBER
    ensures Numeral(Spell(n), true) == Some(n) && PlainNumeral(Spell(n))
  {
    SpellFromDenotes(n, 0, false, false);
    assert Tail(n, 0) == n;
    assert Numeral("", true) == Some(0);
    hide Numeral, SpellFrom, PlainText, Tail;
    assert Spell(n) == SpellFrom(n, 0, false, false);
  }

  lemma TeenDenotes(n: nat)
    requires 10 <= n < 20
    ensures Numeral(Spell(n), true) == Some(n) && PlainNumeral(Spell(n))
  {
    var rest := if n > 10 then [DigitChar(n - 10)] else "";
    DigitChars(n - 10);
    assert Spell(n) == "十" + rest;
    assert Spell(n)[1..] == rest && Spell(n)[0] == '十';
    if n > 10 {
      assert rest[1..] == "";
    }
    assert Numeral(rest, false) == Some((n - 10) as nat);
  }

  // ----- labels -----

  /** The longest prefix without spaces and without the character stop. */
  function Run(s: string, stop: char): (r: string)
    ensures |r| <= |s| && r == s[..|r|]
    ensures forall i | 0 <= i < |r| :: !Space(r[i]) && r[i] != stop
    ensures |r| < |s| ==> Space(s[|r|]) || s[|r|] == stop
  {
    if s == "" || Space(s[0]) || s[0] == stop then "" else [s[0]] + Run(s[1..], stop)
  }

  /** The match of the label expression: the number text and the suffix text, if there is one. */
  function MatchLabel(text: string): Option<(string, Option<string>)> {
    if text == "" || text[0] != ARTICLE_OPEN then None
    else
      var body := SkipSpaces(text[1..]);
      var number := Run(body, ARTICLE_CLOSE);
      var after := SkipSpaces(body[|number|..]);
      if number == "" || after == "" || after[0] != ARTICLE_CLOSE then None
      else match MatchSuffix(after[1..])
        case None => None
        case Some(suffix) => Some((number, suffix))
  }

  /** What may follow 条: nothing, or a suffix. */
  function MatchSuffix(end: string): Option<Option<string>> {
    if end == "" then Some(None)
    else
      var mark := SkipSpaces(end);
      if mark == "" || mark[0] != SUFFIX_MARK then None
      else
        var tail := SkipSpaces(mark[1..]);
        var suffix := Run(tail, SUFFIX_MARK);
        if suffix == "" || |suffix| != |tail| then None else Some(Some(suffix))
  }

  predicate InRange(n: nat) { 1 <= n <= MAX_ARTICLE_NUMBER }

  /** parse_article_label: the pair (number, suffix), with suffix 0 for a plain article. */
  function ParseLabel(nfkc: string -> string, spelling: string): (r: Option<(nat, nat)>)
    ensures r.Some? ==> InRange(r.value.0) && r.value.1 <= MAX_ARTICLE_NUMBER
  {
    match MatchLabel(Strip(spelling))
    case None => None
    case Some((number, suffix)) =>
      var n := NumberValue(nfkc, number);
      if suffix.None? then
        (if n.Some? && InRange(n.value) then Some((n.value, 0)) else None)
      else
        var m := NumberValue(nfkc, suffix.value);
        if n.Some? && m.Some? && InRange(n.value) && InRange(m.value) then Some((n.value, m.value)) else None
  }

  /** format_article_label */
  function FormatLabel(number: nat, suffix: nat): string
    requires InRange(number) && suffix <= MAX_ARTICLE_NUMBER
  {
    [ARTICLE_OPEN] + Spell(number) + [ARTICLE_CLOSE] + if suffix == 0 then "" else [SUFFIX_MARK] + Spell(suffix)
  }

  /** canonical_article_label */
  function CanonicalLabel(nfkc: string -> string, spelling: string): string {
    match ParseLabel(nfkc, spelling)
    case Some((number, suffix)) => FormatLabel(number, suffix)
    case None => Strip(spelling)
  }

  /** What is assumed of Unicode normalization: it leaves Chinese numerals as they are. */
  predicate KeepsNumerals(nfkc: string -> string, s: string) {
    PlainNumeral(s) ==> nfkc(s) == s
  }

  ghost predicate Normalizer(nfkc: string -> string) {
    forall s :: KeepsNumerals(nfkc, s)
  }

  lemma SpelledValue(nfkc: string -> string, n: nat)
    requires Normalizer(nfkc) && InRange(n)
    ensures NumberValue(nfkc, Spell(n)) == Some(n)
  {
    SpellDenotes(n);
    var s := Spell(n);
    assert KeepsNumerals(nfkc, s);
    PlainIsOrdinary(s[0]);
    PlainIsOrdinary(s[|s| - 1]);
    StripFixed(s);
  }

  lemma {:induction false} RunOfPlain(word: string, rest: string, stop: char)
    requires forall i | 0 <= i < |word| :: Plain(word[i])
    requires stop == ARTICLE_CLOSE || stop == SUFFIX_MARK
    requires rest == "" || rest[0] == stop
    ensures Run(word + rest, stop) == word
  {
    hide Plain;
    if word == "" {
      assert word + rest == rest;
    } else {
      PlainIsOrdinary(word[0]);
      RunOfPlain(word[1..], rest, stop);
      assert (word + rest)[1..] == word[1..] + rest;
    }
  }

  lemma SkipNothing(s: string)
    requires s == "" || !Space(s[0])
    ensures SkipSpaces(s) == s
  {
  }

  lemma MatchBuiltSuffix(tail: string)
    requires PlainNumeral(tail)
    ensures MatchSuffix([SUFFIX_MARK] + tail) == Some(Some(tail))
  {
    hide Plain, SkipSpaces, Run;
    var end := [SUFFIX_MARK] + tail;
    SkipNothing(end);
    assert end[1..] == tail;
    PlainIsOrdinary(tail[0]);
    SkipNothing(tail);
    RunOfPlain(tail, "", SUFFIX_MARK);
    assert tail + "" == tail;
  }

  lemma MatchBuiltNumber(word: string, end: string)
    requires PlainNumeral(word)
    ensures MatchLabel([ARTICLE_OPEN] + (word + ([ARTICLE_CLOSE] + end)))
            == match MatchSuffix(end) case None => None case Some(suffix) => Some((word, suffix))
  {
    hide Plain, SkipSpaces, Run, MatchSuffix;
    var rest := [ARTICLE_CLOSE] + end;
    var built := [ARTICLE_OPEN] + (word + rest);
    assert built[1..] == word + rest;
    PlainIsOrdinary(word[0]);
    SkipNothing(word + rest);
    RunOfPlain(word, rest, ARTICLE_CLOSE);
    assert (word + rest)[|word|..] == rest;
    SkipNothing(rest);
    assert rest[1..] == end;
  }

  /** Words as FormatLabel puts them together: the expression matches and yields the words. */
  lemma MatchBuilt(word: string, tail: string)
    requires PlainNumeral(word) && (tail == "" || PlainNumeral(tail))
    ensures var built := [ARTICLE_OPEN] + word + [ARTICLE_CLOSE] + if tail == "" then "" else [SUFFIX_MARK] + tail;
            && Stripped(built)
            && MatchLabel(built) == Some((word, if tail == "" then None else Some(tail)))
  {
    hide Plain, MatchLabel;
    var end := if tail == "" then "" else [SUFFIX_MARK] + tail;
    var built := [ARTICLE_OPEN] + word + [ARTICLE_CLOSE] + end;
    assert built == [ARTICLE_OPEN] + (word + ([ARTICLE_CLOSE] + end));
    MatchBuiltNumber(word, end);
    if tail != "" {
      MatchBuiltSuffix(tail);
      PlainIsOrdinary(tail[|tail| - 1]);
      assert built[|built| - 1] == tail[|tail| - 1];
    } else {
      assert built[|built| - 1] == ARTICLE_CLOSE;
    }
  }

  lemma MatchFormatted(number: nat, suffix: nat)
    requires InRange(number) && suffix <= MAX_ARTICLE_NUMBER
    ensures var spelling := FormatLabel(number, suffix);
            && Stripped(spelling)
            && MatchLabel(spelling) == Some((Spell(number), if suffix == 0 then None else Some(Spell(suffix))))
  {
    SpellDenotes(number);
    if suffix != 0 {
      SpellDenotes(suffix);
    }
    hide Spell, MatchLabel, Stripped, Numeral;
    MatchBuilt(Spell(number), if suffix == 0 then "" else Spell(suffix));
  }

  /** Parsing undoes formatting, for every number and suffix in range. */
  lemma ParseUndoesFormat(nfkc: string -> string, number: nat, suffix: nat)
    requires Normalizer(nfkc) && InRange(number) && suffix <= MAX_ARTICLE_NUMBER
    ensures ParseLabel(nfkc, FormatLabel(number, suffix)) == Some((number, suffix))
  {
    MatchFormatted(number, suffix);
    StripFixed(FormatLabel(number, suffix));
    SpelledValue(nfkc, number);
    if suffix != 0 {
      SpelledValue(nfkc, suffix);
    }
    hide Spell, MatchLabel, Stripped, Strip, NumberValue, FormatLabel, Normalizer;
  }

  /** Canonicalization is idempotent on every string, parseable or not. */
  lemma CanonicalIdempotent(nfkc: string -> string, spelling: string)
    requires Normalizer(nfkc)
    ensures CanonicalLabel(nfkc, CanonicalLabel(nfkc, spelling)) == CanonicalLabel(nfkc, spelling)
  {
    StripFixed(spelling);
    StripFixed(Strip(spelling));
    hide Spell, MatchLabel, Stripped, Strip, NumberValue, FormatLabel, Normalizer;
    match ParseLabel(nfkc, spelling)
    case Some((number, suffix)) => ParseUndoesFormat(nfkc, number, suffix);
    case None =>
  }

  /** Two parseable labels have the same canonical spelling exactly when they name the same article, and
      a label that does not parse never shares one with a label that does. */
  lemma CanonicalIdentifiesArticles(nfkc: string -> string, a: string, b: string)
    requires Normalizer(nfkc)
    requires ParseLabel(nfkc, a).Some?
    ensures CanonicalLabel(nfkc, a) == CanonicalLabel(nfkc, b) <==> ParseLabel(nfkc, b) == ParseLabel(nfkc, a)
  {
    StripFixed(b);
    StripFixed(Strip(b));
    hide Spell, MatchLabel, Stripped, Strip, NumberValue, FormatLabel, Normalizer;
    var (number, suffix) := ParseLabel(nfkc, a).value;
    ParseUndoesFormat(nfkc, number, suffix);
    match ParseLabel(nfkc, b)
    case Some((n, m)) => ParseUndoesFormat(nfkc, n, m);
    case None =>
  }
}
