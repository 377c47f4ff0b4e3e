/** What the token estimate counts, how memory is rendered, and what adding to it keeps (legal_rag/chat.py). */
module MemoryText {
  import opened Common
  import opened Conversation

  // ----- the estimate -----

  /** Chinese characters. */
  function CjkPlaces(t: Text): set<nat> { set i: nat | i < |t| && 0x4E00 <= t[i] <= 0x9FFF }

  /** A word of ASCII letters and digits begins there. */
  predicate StartsWord(t: Text, i: nat)
    requires i < |t|
  {
    IsAsciiWord(t[i]) && (i == 0 || !IsAsciiWord(t[i - 1]))
  }

  function WordStarts(t: Text): set<nat> { set i: nat | i < |t| && StartsWord(t, i) }

  /** Everything else that is not white space. */
  function OtherPlaces(t: Text): set<nat> { set i: nat | i < |t| && IsOther(t[i]) }

  function Moved(s: set<nat>): (moved: set<nat>)
    ensures forall j: nat :: j in moved <==> j > 0 && j - 1 in s
  {
    set i | i in s :: i + 1
  }

  lemma {:induction false} MovedCount(s: set<nat>)
    ensures |Moved(s)| == |s|
    decreases |s|
  {
    if s != {} {
      var x :| x in s;
      MovedCount(s - {x});
      assert Moved(s) == Moved(s - {x}) + {x + 1};
    }
  }

  lemma {:induction false} CjkCount(t: Text)
    ensures CountCjk(t) == |CjkPlaces(t)|
  {
    if t != [] {
      CjkCount(t[1..]);
      MovedCount(CjkPlaces(t[1..]));
      assert CjkPlaces(t) == Moved(CjkPlaces(t[1..])) + if IsCjk(t[0]) then {0} else {};
    }
  }

  lemma {:induction false} OtherCount(t: Text)
    ensures CountOther(t) == |OtherPlaces(t)|
  {
    if t != [] {
      OtherCount(t[1..]);
      MovedCount(OtherPlaces(t[1..]));
      hide IsOther;
      assert OtherPlaces(t) == Moved(OtherPlaces(t[1..])) + if IsOther(t[0]) then {0} else {};
    }
  }

  /** The word starts behind a first character, with whether that one belongs to a word. */
  function LaterStarts(t: Text, inRun: bool): set<nat> {
    set i: nat | i < |t| && StartsWord(t, i) && !(i == 0 && inRun)
  }

  lemma StartsBehind(t: Text, inRun: bool)
    requires t != []
    ensures var first := IsAsciiWord(t[0]);
            LaterStarts(t, inRun) == Moved(LaterStarts(t[1..], first)) + if first && !inRun then {0} else {}
  {
    hide IsAsciiWord;
    var first := IsAsciiWord(t[0]);
    forall i: nat ensures i in LaterStarts(t, inRun) <==> i in Moved(LaterStarts(t[1..], first)) || (i == 0 && first && !inRun) {
      if 0 < i < |t| {
        assert t[1..][i - 1] == t[i];
        assert i > 1 ==> t[1..][i - 2] == t[i - 1];
      }
    }
  }

  lemma {:induction false} WordCount(t: Text, inRun: bool)
    ensures CountWords(t, inRun) == |LaterStarts(t, inRun)|
  {
    hide IsAsciiWord, LaterStarts, Moved;
    if t == [] {
      NoStarts(inRun);
    } else {
      var first := IsAsciiWord(t[0]);
      var rest := LaterStarts(t[1..], first);
      WordCount(t[1..], first);
      MovedCount(rest);
      StartsBehind(t, inRun);
      assert 0 !in Moved(rest);
    }
  }

  lemma NoStarts(inRun: bool)
    ensures LaterStarts([], inRun) == {}
  {
  }

  /** Main theorem: the estimate is the number of Chinese characters, of ASCII words and of pairs of other
      characters, and at least one. */
  lemma EstimateMeans(t: Text)
    ensures var n := |CjkPlaces(t)| + |WordStarts(t)| + |OtherPlaces(t)| / 2;
            EstimateTokens(t) == if n == 0 then 1 else n
    ensures forall i: nat :: i in OtherPlaces(t) <==>
              && i < |t| && !(0x4E00 <= t[i] <= 0x9FFF) && !IsSpace(t[i])
              && !('0' as int <= t[i] <= '9' as int || 'A' as int <= t[i] <= 'Z' as int || 'a' as int <= t[i] <= 'z' as int)
  {
    CjkCount(t);
    OtherCount(t);
    WordCount(t, false);
    assert LaterStarts(t, false) == WordStarts(t);
  }

  // ----- rendering -----

  /** One more message is rendered behind a line break. */
  lemma {:induction false} OneMoreLine(ms: seq<Message>, m: Message)
    ensures JoinLines(ms + [m]) == (if ms == [] then [] else JoinLines(ms) + [NEWLINE]) + RenderLine(m)
  {
    if ms == [] {
      assert ms + [m] == [m];
    } else {
      OneMoreLine(ms[1..], m);
      assert (ms + [m])[1..] == ms[1..] + [m];
      hide RenderLine;
      if |ms| > 1 {
        assert RenderLine(ms[0]) + [NEWLINE] + (JoinLines(ms[1..]) + [NEWLINE] + RenderLine(m))
               == RenderLine(ms[0]) + [NEWLINE] + JoinLines(ms[1..]) + [NEWLINE] + RenderLine(m);
      }
    }
  }

  lemma NamedLine(name: string, t: Text)
    ensures Encode(name) + Encode(": ") + t == Encode(name + ": ") + t
  {
  }

  /** Main theorem: memory is rendered line by line, the newest eight messages, each behind its role. */
  lemma RenderMeans(ms: seq<Message>, m: Message)
    ensures Render([]) == []
    ensures |ms| < 8 ==> Render(ms + [m]) == (if ms == [] then [] else Render(ms) + [10]) + RenderLine(m)
    ensures |ms| > 8 ==> Render(ms) == Render(ms[|ms| - 8..])
    ensures RenderLine(m) == Encode((match m.role case User => "user" case Assistant => "assistant" case Unsupported(n) => n) + ": ") + m.content
  {
    OneMoreLine(ms, m);
    NamedLine(RoleName(m.role), m.content);
  }

  // ----- adding -----

  /** The longest row of whole turns at the end of these messages that fits. */
  predicate LongestFitting(kept: seq<Message>, all: seq<Message>, limit: int) {
    exists k: nat | k <= |all| && k % 2 == 0 ::
      kept == all[k..] && Fits(kept, limit) && forall j: nat | j < k && j % 2 == 0 :: !Fits(all[j..], limit)
  }

  /** Main theorem: one message is added exactly when its role is known and its turn has come and its text is valid;
      a question stays as it is, and after an answer the longest fitting row of whole turns is left. */
  lemma AddedMeans(m: MemoryState, role: Role, content: Text)
    requires m.tokenLimit >= 1
    ensures var r := Added(m, role, content);
            && (r.Ok? <==> !role.Unsupported? && ValidUnicode(content) && (role == User <==> |m.messages| % 2 == 0))
            && (r.Ok? ==>
                  && r.value.revision == m.revision + 1 && r.value.tokenLimit == m.tokenLimit
                  && (role == User ==> r.value.messages == m.messages + [Message(User, content)])
                  && (role == Assistant ==> LongestFitting(r.value.messages, m.messages + [Message(Assistant, content)], m.tokenLimit)))
            && (r.Err? ==>
                  r.error == if role.Unsupported? then UnsupportedRole else if !ValidUnicode(content) then BadUnicode else OutOfTurn)
  {
    hide Trimmed, Fits;
    if role == Assistant && |m.messages| % 2 == 1 {
      TrimmedIsLongest(m.messages + [Message(role, content)], m.tokenLimit);
    }
  }

  lemma TrimmedIsLongest(all: seq<Message>, limit: int)
    requires limit >= 1 && |all| % 2 == 0
    ensures LongestFitting(Trimmed(all, limit), all, limit)
  {
    hide Trimmed, Fits;
    var k := TrimKeepsLongestFittingSuffix(all, limit);
  }

  /** Main theorem: the same for a whole turn. */
  lemma TurnAddedMeans(m: MemoryState, user: Text, assistant: Text)
    requires m.tokenLimit >= 1
    ensures var r := TurnAdded(m, user, assistant);
            && (r.Ok? <==> |m.messages| % 2 == 0 && ValidUnicode(user) && ValidUnicode(assistant))
            && (r.Ok? ==>
                  && r.value.revision == m.revision + 1 && r.value.tokenLimit == m.tokenLimit
                  && LongestFitting(r.value.messages, m.messages + [Message(User, user), Message(Assistant, assistant)], m.tokenLimit))
            && (r.Err? ==> r.error == if |m.messages| % 2 == 1 then IncompleteConversation else BadUnicode)
  {
    hide Trimmed, Fits;
    if |m.messages| % 2 == 0 {
      TrimmedIsLongest(m.messages + [Message(User, user), Message(Assistant, assistant)], m.tokenLimit);
    }
  }

  // ----- checkpoints -----

  lemma KnownNamesAreValid()
    ensures ValidUnicode(Encode("user")) && ValidUnicode(Encode("assistant"))
  {
  }

  lemma UnicodeMeans(ms: seq<Message>)
    requires forall m | m in ms :: KnownRole(m.role)
    ensures UnicodeMessages(ms) <==> forall m | m in ms :: ValidUnicode(m.content)
  {
    hide ValidUnicode, Encode;
    KnownNamesAreValid();
    if UnicodeMessages(ms) {
      forall m | m in ms ensures ValidUnicode(m.content) {
        var i :| 0 <= i < |ms| && ms[i] == m;
      }
    }
    if forall m | m in ms :: ValidUnicode(m.content) {
      forall i | 0 <= i < |ms| ensures ValidUnicode(Encode(RoleName(ms[i].role))) && ValidUnicode(ms[i].content) {
        assert ms[i] in ms;
      }
    }
  }

  /** Main theorem: a checkpoint is accepted exactly when it has the schema and the budget, at most eight messages in
      whole turns, question and answer in turn, in valid Unicode, and fits the budget when rendered. */
  lemma CheckpointMeans(c: Checkpoint, limit: int)
    ensures CheckpointProblem(c, limit).None? <==>
              && c.schemaVersion == STATE_SCHEMA_VERSION && c.tokenLimit == limit && |c.messages| <= 8 && |c.messages| % 2 == 0
              && (forall m | m in c.messages :: ValidUnicode(m.content))
              && (forall k | 0 <= k < |c.messages| :: c.messages[k].role == if k % 2 == 0 then User else Assistant)
              && EstimateTokens(Render(c.messages)) <= limit
  {
    hide EstimateTokens, Render, UnicodeMessages, ValidUnicode;
    if RoleProblem(c.messages, 0).None? {
      UnicodeMeans(c.messages);
    }
  }

  // ----- messages given at construction -----

  /** What is left of these messages: all but some of the oldest turns. */
  predicate LaterTurns(kept: seq<Message>, all: seq<Message>) {
    exists k: nat | k <= |all| && k % 2 == 0 :: kept == all[k..]
  }

  lemma LaterStill(kept: seq<Message>, all: seq<Message>, more: seq<Message>, last: seq<Message>)
    requires LaterTurns(kept, all) && LaterTurns(last, kept + more)
    ensures LaterTurns(last, all + more)
  {
    var j: nat :| j <= |all| && j % 2 == 0 && kept == all[j..];
    var k: nat :| k <= |kept + more| && k % 2 == 0 && last == (kept + more)[k..];
    assert kept + more == (all + more)[j..];
    assert last == (all + more)[j + k..];
  }

  lemma AddedIsLater(m: MemoryState, msg: Message)
    requires m.tokenLimit >= 1 && Added(m, msg.role, msg.content).Ok?
    ensures LaterTurns(Added(m, msg.role, msg.content).value.messages, m.messages + [msg])
  {
    AddedMeans(m, msg.role, msg.content);
    hide Added, Fits;
    if msg.role == User {
      assert (m.messages + [msg])[0..] == m.messages + [msg];
    }
  }

  /** Valid messages that go on in turn behind so many others. */
  predicate InTurn(ms: seq<Message>, before: nat) {
    forall k | 0 <= k < |ms| :: ms[k].role == (if (before + k) % 2 == 0 then User else Assistant) && ValidUnicode(ms[k].content)
  }

  lemma InTurnFirst(ms: seq<Message>, before: nat, parity: nat)
    requires ms != [] && parity % 2 == (before + 1) % 2
    ensures InTurn(ms, before) <==>
            ms[0].role == (if before % 2 == 0 then User else Assistant) && ValidUnicode(ms[0].content) && InTurn(ms[1..], parity)
  {
    hide ValidUnicode;
    assert forall k | 0 < k < |ms| :: ms[k] == ms[1..][k - 1] && (before + k) % 2 == (parity + (k - 1)) % 2;
  }

  /** Main theorem: messages can be added one by one exactly when they go on in turn and are valid; each counts as one
      revision, and what is left of them all are the latest turns. */
  lemma {:induction false} AddedAllMeans(m: MemoryState, ms: seq<Message>)
    requires m.tokenLimit >= 1
    ensures AddedAll(m, ms).Ok? <==> InTurn(ms, |m.messages|)
    ensures AddedAll(m, ms).Ok? ==>
              && AddedAll(m, ms).value.revision == m.revision + |ms| && AddedAll(m, ms).value.tokenLimit == m.tokenLimit
              && LaterTurns(AddedAll(m, ms).value.messages, m.messages + ms)
    decreases |ms|
  {
    hide Added, ValidUnicode, LaterTurns, LongestFitting;
    if ms == [] {
      assert m.messages + ms == m.messages;
      AllLater(m.messages);
    } else {
      AddedMeans(m, ms[0].role, ms[0].content);
      var next := Added(m, ms[0].role, ms[0].content);
      InTurnFirst(ms, |m.messages|, |m.messages| + 1);
      hide InTurn;
      if next.Ok? {
        AddedIsLater(m, ms[0]);
        SameParity(next.value.messages, m.messages + [ms[0]]);
        InTurnFirst(ms, |m.messages|, |next.value.messages|);
        AddedAllMeans(next.value, ms[1..]);
        assert (m.messages + [ms[0]]) + ms[1..] == m.messages + ms;
        if AddedAll(m, ms).Ok? {
          LaterStill(next.value.messages, m.messages + [ms[0]], ms[1..], AddedAll(m, ms).value.messages);
        }
      }
    }
  }

  lemma AllLater(all: seq<Message>)
    ensures LaterTurns(all, all)
  {
    assert all[0..] == all;
  }

  lemma SameParity(kept: seq<Message>, all: seq<Message>)
    requires LaterTurns(kept, all)
    ensures |kept| % 2 == |all| % 2
  {
  }

  // ----- why a checkpoint is refused -----

  /** A role is not known, or known but out of turn, behind messages whose roles are as they should be. */
  ghost predicate FirstWrongRole(ms: seq<Message>, known: bool) {
    exists k | 0 <= k < |ms| ::
      && (forall i | 0 <= i < k :: ms[i].role == if i % 2 == 0 then User else Assistant)
      && ms[k].role != (if k % 2 == 0 then User else Assistant) && !ms[k].role.Unsupported? == known
  }

  lemma {:induction false} RoleProblemMeans(ms: seq<Message>, k: nat)
    requires k <= |ms| && forall i | 0 <= i < k :: ms[i].role == if i % 2 == 0 then User else Assistant
    ensures RoleProblem(ms, k) == Some(UnsupportedRole) <==> FirstWrongRole(ms, false)
    ensures RoleProblem(ms, k) == Some(NotAlternating) <==> FirstWrongRole(ms, true)
    ensures RoleProblem(ms, k).Some? ==> RoleProblem(ms, k).value in {UnsupportedRole, NotAlternating}
    decreases |ms| - k
  {
    if k < |ms| && ms[k].role == (if k % 2 == 0 then User else Assistant) {
      RoleProblemMeans(ms, k + 1);
    }
  }

  /** Main theorem: of several faults a checkpoint has, the first in this order is reported: text, schema, budget, number
      of messages, roles from the front, length. */
  lemma CheckpointFault(c: Checkpoint, limit: int)
    ensures var problem := CheckpointProblem(c, limit);
            var texts := exists m | m in c.messages :: !ValidUnicode(Encode(RoleName(m.role))) || !ValidUnicode(m.content);
            && (problem == Some(BadUnicode) <==> texts)
            && (problem == Some(BadSchema) <==> !texts && c.schemaVersion != 1)
            && (problem == Some(IncompatibleLimit) <==> !texts && c.schemaVersion == 1 && c.tokenLimit != limit)
            && (!texts && c.schemaVersion == 1 && c.tokenLimit == limit ==>
                  && (problem == Some(TooManyMessages) <==> |c.messages| > 8)
                  && (problem == Some(OddMessages) <==> |c.messages| <= 8 && |c.messages| % 2 == 1)
                  && (|c.messages| <= 8 && |c.messages| % 2 == 0 ==>
                        && (problem == Some(UnsupportedRole) <==> FirstWrongRole(c.messages, false))
                        && (problem == Some(NotAlternating) <==> FirstWrongRole(c.messages, true))))
  {
    hide EstimateTokens, Render, ValidUnicode, Encode, FirstWrongRole, RoleProblem;
    RoleProblemMeans(c.messages, 0);
    if m :| m in c.messages && (!ValidUnicode(Encode(RoleName(m.role))) || !ValidUnicode(m.content)) {
      var i :| 0 <= i < |c.messages| && c.messages[i] == m;
    }
    if i :| 0 <= i < |c.messages| && (!ValidUnicode(Encode(RoleName(c.messages[i].role))) || !ValidUnicode(c.messages[i].content)) {
      assert c.messages[i] in c.messages;
    }
  }
}
