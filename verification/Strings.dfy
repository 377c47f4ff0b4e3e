/** The few Python string operations several modules share. */
module Strings {
  import opened Common

  predicate Space(c: char) { IsSpace(c as int) }

  predicate Blank(s: string) {
    forall i | 0 <= i < |s| :: Space(s[i])
  }

  function SkipSpaces(s: string): (t: string)
    ensures |t| <= |s| && t == s[|s| - |t|..]
    ensures t != "" ==> !Space(t[0])
    ensures Blank(s[..|s| - |t|])
  {
    if s != "" && Space(s[0]) then
      var t := SkipSpaces(s[1..]);
      var n := |s| - |t|;
      assert s[1..][n - 1..] == s[n..] && s[..n] == [s[0]] + s[1..][..n - 1];
      t
    else s
  }

  function DropTrailingSpaces(s: string): (t: string)
    ensures |t| <= |s| && t == s[..|t|]
    ensures t != "" ==> !Space(t[|t| - 1])
    ensures Blank(s[|t|..])
  {
    if s != "" && Space(s[|s| - 1]) then DropTrailingSpaces(s[..|s| - 1]) else s
  }

  /** str.strip() */
  function Strip(s: string): string {
    DropTrailingSpaces(SkipSpaces(s))
  }

  predicate Stripped(s: string) {
    s == "" || (!Space(s[0]) && !Space(s[|s| - 1]))
  }

  lemma StripFixed(s: string)
    ensures Stripped(Strip(s))
    ensures Stripped(s) ==> Strip(s) == s
  {
    var t := SkipSpaces(s);
    if Strip(s) != "" {
      assert Strip(s)[0] == t[0];
    }
  }

  /** Where strip() cut: what it returns is one slice of its argument, and it dropped only spaces. */
  lemma StripSlice(s: string) returns (i: nat, j: nat)
    ensures i <= j <= |s| && Strip(s) == s[i..j] && Blank(s[..i]) && Blank(s[j..])
  {
    hide SkipSpaces, DropTrailingSpaces, Space;
    var t := SkipSpaces(s);
    i := |s| - |t|;
    j := i + |Strip(s)|;
    forall k | 0 <= k < |s| - j ensures Space(s[j..][k]) {
      assert s[j..][k] == t[|Strip(s)|..][k];
    }
    assert s[i..j] == t[..|Strip(s)|];
  }

  // ----- substrings -----

  predicate OccursAt(part: string, whole: string, i: nat)
    requires i + |part| <= |whole|
  {
    whole[i..i + |part|] == part
  }

  /** part in whole */
  predicate Occurs(part: string, whole: string) {
    exists i | 0 <= i <= |whole| - |part| :: OccursAt(part, whole, i)
  }

  /** It stands between two other parts of the whole. */
  lemma OccursMeans(part: string, whole: string)
    ensures Occurs(part, whole) <==> exists before: string, after: string :: whole == before + part + after
  {
    if i :| 0 <= i <= |whole| - |part| && OccursAt(part, whole, i) {
      assert whole == whole[..i] + part + whole[i + |part|..];
    }
    if before: string, after: string :| whole == before + part + after {
      assert OccursAt(part, whole, |before|);
    }
  }

  // ----- the order sorted() uses -----

  predicate Less(s: string, t: string) {
    t != "" && (s == "" || s[0] < t[0] || (s[0] == t[0] && Less(s[1..], t[1..])))
  }

  lemma {:induction false} LessTotal(s: string, t: string)
    ensures Less(s, t) || s == t || Less(t, s)
    ensures !(Less(s, t) && Less(t, s)) && !Less(s, s)
  {
    if s != "" && t != "" {
      LessTotal(s[1..], t[1..]);
      assert s == [s[0]] + s[1..] && t == [t[0]] + t[1..];
    }
    if s != "" {
      LessTotal(s[1..], s[1..]);
    }
  }

  /** The order: a proper prefix comes first, otherwise the first difference decides. */
  lemma {:induction false} LessMeans(s: string, t: string)
    ensures Less(s, t) <==>
            exists k | 0 <= k <= |s| :: k < |t| && s[..k] == t[..k] && (k < |s| ==> s[k] < t[k])
  {
    if s == "" || t == "" {
      assert t != "" ==> s[..0] == t[..0];
    } else if s[0] != t[0] {
      assert s[..0] == t[..0];
      if k :| 0 <= k <= |s| && k < |t| && s[..k] == t[..k] && (k < |s| ==> s[k] < t[k]) {
        FirstOfPrefix(s, t, k);
      }
    } else {
      LessMeans(s[1..], t[1..]);
      if Less(s, t) {
        var k :| 0 <= k <= |s[1..]| && k < |t[1..]| && s[1..][..k] == t[1..][..k] && (k < |s[1..]| ==> s[1..][k] < t[1..][k]);
        assert s[..k + 1] == [s[0]] + s[1..][..k] && t[..k + 1] == [t[0]] + t[1..][..k];
      }
      if k :| 0 <= k <= |s| && k < |t| && s[..k] == t[..k] && (k < |s| ==> s[k] < t[k]) {
        assert k > 0;
        assert s[1..][..k - 1] == s[..k][1..] && t[1..][..k - 1] == t[..k][1..];
      }
    }
  }

  lemma FirstOfPrefix(s: string, t: string, k: nat)
    requires s != "" && t != "" && k <= |s| && k <= |t|
    ensures s[..k] == t[..k] && k > 0 ==> s[0] == t[0]
  {
    if k > 0 {
      assert s[..k][0] == s[0] && t[..k][0] == t[0];
    }
  }

  lemma {:induction false} LessTransitive(s: string, t: string, u: string)
    requires Less(s, t) && Less(t, u)
    ensures Less(s, u)
  {
    if s != "" && s[0] == t[0] == u[0] {
      LessTransitive(s[1..], t[1..], u[1..]);
    }
  }

  // ----- ordered deduplication -----

  /** Keep the first occurrence of every non-empty string not seen before. */
  function UniqueFrom(s: seq<string>, seen: set<string>): seq<string> {
    if s == [] then []
    else if s[0] == "" || s[0] in seen then UniqueFrom(s[1..], seen)
    else [s[0]] + UniqueFrom(s[1..], seen + {s[0]})
  }

  function Unique(s: seq<string>): seq<string> {
    UniqueFrom(s, {})
  }

  method ComputeUnique(values: seq<string>) returns (result: seq<string>)
    ensures result == Unique(values)
  {
    var seen: set<string> := {};
    result := [];
    var i := 0;
    while i < |values|
      invariant i <= |values|
      invariant Unique(values) == result + UniqueFrom(values[i..], seen)
    {
      assert values[i..][1..] == values[i + 1..];
      if values[i] != "" && values[i] !in seen {
        seen := seen + {values[i]};
        result := result + [values[i]];
      }
      i := i + 1;
    }
  }

  lemma {:induction false} UniqueFromKeeps(s: seq<string>, seen: set<string>)
    ensures forall x :: x in UniqueFrom(s, seen) <==> x in s && x != "" && x !in seen
    ensures forall i, j | 0 <= i < j < |UniqueFrom(s, seen)| :: UniqueFrom(s, seen)[i] != UniqueFrom(s, seen)[j]
  {
    if s != [] {
      UniqueFromKeeps(s[1..], seen);
      UniqueFromKeeps(s[1..], seen + {s[0]});
      assert s == [s[0]] + s[1..];
      assert forall x :: x in s <==> x == s[0] || x in s[1..];
    }
  }

  /** x stands in s first at place p. */
  predicate FirstAt(s: seq<string>, x: string, p: nat) {
    p < |s| && s[p] == x && forall k | 0 <= k < p :: s[k] != x
  }

  /** Deduplication keeps the order of first occurrences. */
  lemma {:induction false} UniqueFromKeepsOrder(s: seq<string>, seen: set<string>, i: nat, j: nat, p: nat, q: nat)
    requires i < j < |UniqueFrom(s, seen)| && FirstAt(s, UniqueFrom(s, seen)[i], p) && FirstAt(s, UniqueFrom(s, seen)[j], q)
    ensures p < q
  {
    var u := UniqueFrom(s, seen);
    UniqueFromKeeps(s, seen);
    assert u[i] in u && u[j] in u;
    if s[0] == "" || s[0] in seen {
      assert p > 0 && q > 0;
      assert FirstAt(s[1..], u[i], p - 1) && FirstAt(s[1..], u[j], q - 1);
      UniqueFromKeepsOrder(s[1..], seen, i, j, p - 1, q - 1);
    } else {
      assert u[0] == s[0] && q > 0;
      if i > 0 {
        assert p > 0;
        assert FirstAt(s[1..], u[i], p - 1) && FirstAt(s[1..], u[j], q - 1);
        UniqueFromKeepsOrder(s[1..], seen + {s[0]}, i - 1, j - 1, p - 1, q - 1);
      }
    }
  }

  /** Main theorem: deduplication keeps every non-empty string once, in the order of first occurrences. */
  lemma UniqueMeans(s: seq<string>)
    ensures forall x :: x in Unique(s) <==> x in s && x != ""
    ensures forall i, j | 0 <= i < j < |Unique(s)| :: Unique(s)[i] != Unique(s)[j]
    ensures forall i: nat, j: nat, p: nat, q: nat |
              i < j < |Unique(s)| && FirstAt(s, Unique(s)[i], p) && FirstAt(s, Unique(s)[j], q) :: p < q
  {
    UniqueFromKeeps(s, {});
    hide FirstAt, UniqueFrom;
    forall i: nat, j: nat, p: nat, q: nat | i < j < |Unique(s)| && FirstAt(s, Unique(s)[i], p) && FirstAt(s, Unique(s)[j], q)
      ensures p < q
    {
      UniqueFromKeepsOrder(s, {}, i, j, p, q);
    }
  }
}
