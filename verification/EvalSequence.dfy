/** Session-ordered evaluation (legal_rag/evaluation.py). */
module EvalSequence {
  // Which case lists are evaluated, and what the assistant still remembers at each case.

  import opened Common
  import opened EvalCases

  predicate UniqueIds(cases: seq<EvalCase>) {
    forall i, j | 0 <= i < j < |cases| :: cases[i].caseId != cases[j].caseId
  }

  predicate Grouped(c: EvalCase, group: string) {
    c.sessionGroup == Some(group)
  }

  /** What validate_eval_cases compares case i with: the cases before it. */
  predicate ContinuesOrStarts(cases: seq<EvalCase>, i: nat)
    requires i < |cases|
  {
    match cases[i].sessionGroup
    case None => true
    case Some(group) =>
      if i > 0 && Grouped(cases[i - 1], group) then cases[i].turnIndex == cases[i - 1].turnIndex + 1
      else cases[i].turnIndex == 0 && forall j | 0 <= j < i :: !Grouped(cases[j], group)
  }

  predicate Accepted(cases: seq<EvalCase>) {
    && (forall i | 0 <= i < |cases| :: ValidCase(cases[i]))
    && UniqueIds(cases)
    && (forall i: nat | i < |cases| :: ContinuesOrStarts(cases, i))
  }

  /** validate_eval_cases */
  method ValidateEvalCases(cases: seq<EvalCase>) returns (ok: bool)
    ensures ok <==> Accepted(cases)
  {
    hide ValidCase;
    var ids: set<string>, closed: set<string> := {}, {};
    var active: Option<string>, lastTurn := None, -1;
    var i := 0;
    while i < |cases|
      invariant i <= |cases|
      invariant forall k | 0 <= k < i :: ValidCase(cases[k])
      invariant UniqueIds(cases[..i]) && (forall id :: id in ids <==> exists k | 0 <= k < i :: cases[k].caseId == id)
      invariant forall k: nat | k < i :: ContinuesOrStarts(cases, k)
      invariant active == if i == 0 then None else cases[i - 1].sessionGroup
      invariant active.Some? ==> lastTurn == cases[i - 1].turnIndex
      invariant forall g :: g in closed || active == Some(g) <==> exists k | 0 <= k < i :: Grouped(cases[k], g)
      invariant active.Some? ==> active.value !in closed
    {
      var c := cases[i];
      if !ValidCase(c) || c.caseId in ids {
        return false;
      }
      ids := ids + {c.caseId};
      match c.sessionGroup {
        case None =>
          if active.Some? { closed := closed + {active.value}; }
          active, lastTurn := None, -1;
        case Some(group) =>
          if active != Some(group) {
            if active.Some? { closed := closed + {active.value}; }
            if group in closed || c.turnIndex != 0 {
              assert !ContinuesOrStarts(cases, i);
              return false;
            }
            active, lastTurn := Some(group), 0;
          } else {
            if c.turnIndex != lastTurn + 1 {
              assert !ContinuesOrStarts(cases, i);
              return false;
            }
            lastTurn := c.turnIndex;
          }
      }
      assert ContinuesOrStarts(cases, i);
      i := i + 1;
    }
    assert cases[..i] == cases;
    ok := true;
  }

  // ----- what acceptance means for a whole group -----

  /** The group's cases are lo, ..., lo + n - 1, with turns 0, ..., n - 1. */
  predicate BlockAt(cases: seq<EvalCase>, group: string, lo: nat, n: nat) {
    && lo + n <= |cases|
    && (forall i | 0 <= i < |cases| :: Grouped(cases[i], group) <==> lo <= i < lo + n)
    && (forall i | lo <= i < lo + n :: cases[i].turnIndex == i - lo)
  }

  ghost predicate OneBlock(cases: seq<EvalCase>, group: string) {
    exists lo: nat, n: nat :: BlockAt(cases, group, lo, n)
  }

  lemma {:induction false} BlockGrows(cases: seq<EvalCase>, group: string) returns (lo: nat, n: nat)
    requires forall i: nat | i < |cases| :: ContinuesOrStarts(cases, i)
    ensures BlockAt(cases, group, lo, n)
    decreases |cases|
  {
    if cases == [] {
      lo, n := 0, 0;
    } else {
      var last := |cases| - 1;
      var init := cases[..last];
      forall i: nat | i < |init| ensures ContinuesOrStarts(init, i) {
        assert ContinuesOrStarts(cases, i);
        assert init[i] == cases[i];
      }
      lo, n := BlockGrows(init, group);
      assert forall i | 0 <= i < |init| :: init[i] == cases[i];
      if Grouped(cases[last], group) {
        assert ContinuesOrStarts(cases, last);
        if last > 0 && Grouped(cases[last - 1], group) {
          assert lo + n == last;
          n := n + 1;
        } else {
          assert n > 0 ==> Grouped(init[lo], group);
          lo, n := last, 1;
        }
      }
    }
  }

  lemma BlocksContinue(cases: seq<EvalCase>, i: nat)
    requires i < |cases| && forall group :: OneBlock(cases, group)
    ensures ContinuesOrStarts(cases, i)
  {
    if cases[i].sessionGroup.Some? {
      var group := cases[i].sessionGroup.value;
      assert OneBlock(cases, group);
      var lo: nat, n: nat :| BlockAt(cases, group, lo, n);
      assert Grouped(cases[i], group);
    }
  }

  /** Main theorem: a list is accepted exactly when every case is valid on its own, IDs are unique, and every
      session group is one block of consecutive cases with turns 0, 1, 2, ... */
  lemma AcceptedIffBlocks(cases: seq<EvalCase>)
    ensures Accepted(cases) <==>
            && (forall i | 0 <= i < |cases| :: ValidCase(cases[i]))
            && UniqueIds(cases)
            && forall group :: OneBlock(cases, group)
  {
    hide ValidCase, BlockAt, ContinuesOrStarts, UniqueIds;
    if Accepted(cases) {
      forall group ensures OneBlock(cases, group) {
        var lo, n := BlockGrows(cases, group);
      }
    }
    if forall group :: OneBlock(cases, group) {
      forall i: nat | i < |cases| ensures ContinuesOrStarts(cases, i) {
        BlocksContinue(cases, i);
      }
    }
  }

  // ----- whose turns the assistant remembers -----

  /** A turn in the memory: one the caller brought along, or the one of a case. */
  datatype Turn = Brought(n: nat) | OfCase(i: nat)

  /** What answering one case does to the memory: it may add the case's own turn and may drop older ones, and
      does nothing else. */
  type Answering = (seq<Turn>, nat) -> seq<Turn>

  ghost predicate OnlyAddsOwnTurn(answering: Answering) {
    forall memory: seq<Turn>, i: nat, t: Turn :: t in answering(memory, i) ==> t == OfCase(i) || t in memory
  }

  predicate AllBrought(memory: seq<Turn>) {
    forall t | t in memory :: t.Brought?
  }

  predicate ResetBefore(cases: seq<EvalCase>, i: nat, preserveFirst: bool)
    requires i < |cases|
  {
    && !(preserveFirst && i == 0)
    && (cases[i].sessionGroup.None? || i == 0 || cases[i - 1].sessionGroup != cases[i].sessionGroup)
  }

  /** The memory when case i is asked. */
  function MemoryAt(answering: Answering, cases: seq<EvalCase>, start: seq<Turn>, i: nat, preserveFirst: bool): seq<Turn>
    requires i < |cases|
    decreases i
  {
    if ResetBefore(cases, i, preserveFirst) then []
    else if i == 0 then start
    else answering(MemoryAt(answering, cases, start, i - 1, preserveFirst), i - 1)
  }

  /** The reset rule of _evaluate_cases: the memories the cases are asked with. */
  method EvaluateCases(answering: Answering, cases: seq<EvalCase>, start: seq<Turn>, preserveFirst: bool)
    returns (asked: seq<seq<Turn>>)
    ensures |asked| == |cases|
    ensures forall i: nat | i < |cases| :: asked[i] == MemoryAt(answering, cases, start, i, preserveFirst)
  {
    asked := [];
    var memory := start;
    var activeGroup: Option<string> := None;
    var i := 0;
    while i < |cases|
      invariant i <= |cases| && |asked| == i
      invariant activeGroup == if i == 0 then None else cases[i - 1].sessionGroup
      invariant memory == if i == 0 then start else answering(MemoryAt(answering, cases, start, i - 1, preserveFirst), i - 1)
      invariant forall k: nat | k < i :: asked[k] == MemoryAt(answering, cases, start, k, preserveFirst)
    {
      var c := cases[i];
      var preserveCurrent := preserveFirst && i == 0;
      if !preserveCurrent && (c.sessionGroup.None? || c.sessionGroup != activeGroup) {
        memory := [];
      }
      activeGroup := c.sessionGroup;
      asked := asked + [memory];
      memory := answering(memory, i);
      i := i + 1;
    }
  }

  /** All cases from k to i are of one session group. */
  predicate OneRun(cases: seq<EvalCase>, k: nat, i: nat)
    requires i < |cases|
  {
    cases[i].sessionGroup.Some? && forall j | k <= j <= i :: cases[j].sessionGroup == cases[i].sessionGroup
  }

  /** On any list, the memory at a case holds only turns of the unbroken run of its own group before it, and,
      when it was preserved, turns the caller brought along, during the first case and its run. */
  lemma {:induction false} MemoryStaysInRun(answering: Answering, cases: seq<EvalCase>, start: seq<Turn>, i: nat, t: Turn, preserveFirst: bool)
    requires OnlyAddsOwnTurn(answering) && AllBrought(start) && i < |cases|
    requires t in MemoryAt(answering, cases, start, i, preserveFirst)
    ensures t.OfCase? ==> t.i < i && OneRun(cases, t.i, i)
    ensures t.Brought? ==> preserveFirst && t in start && (i == 0 || OneRun(cases, 0, i))
    decreases i
  {
    if i > 0 {
      var before := MemoryAt(answering, cases, start, i - 1, preserveFirst);
      assert t in answering(before, i - 1);
      if t != OfCase(i - 1) {
        MemoryStaysInRun(answering, cases, start, i - 1, t, preserveFirst);
      }
    }
  }

  /** Main theorem: on an accepted list, the memory at a case holds only earlier turns of the case's own group,
      which are exactly the turnIndex cases directly before it, and, when it was preserved, turns the caller
      brought along, up to the end of the group that opens the list. */
  lemma MemoryIsOwnGroup(answering: Answering, cases: seq<EvalCase>, start: seq<Turn>, i: nat, t: Turn, preserveFirst: bool)
    requires OnlyAddsOwnTurn(answering) && AllBrought(start) && Accepted(cases) && i < |cases|
    requires t in MemoryAt(answering, cases, start, i, preserveFirst)
    ensures t.OfCase? ==>
              && t.i < i && cases[i].sessionGroup.Some? && cases[t.i].sessionGroup == cases[i].sessionGroup
              && cases[i].turnIndex == i - t.i + cases[t.i].turnIndex && cases[t.i].turnIndex < cases[i].turnIndex
              && i - cases[i].turnIndex <= t.i
              && forall j: nat | j < |cases| && cases[j].sessionGroup == cases[i].sessionGroup && cases[j].turnIndex < cases[i].turnIndex ::
                   i - cases[i].turnIndex <= j < i
    ensures t.Brought? ==> preserveFirst && t in start && (i == 0 || (cases[i].sessionGroup.Some? && cases[i].turnIndex == i))
  {
    MemoryStaysInRun(answering, cases, start, i, t, preserveFirst);
    hide ValidCase, MemoryAt;
    if t.Brought? && i > 0 {
      var lo, n := BlockGrows(cases, cases[i].sessionGroup.value);
      assert Grouped(cases[i], cases[i].sessionGroup.value) && Grouped(cases[0], cases[i].sessionGroup.value);
    }
    if t.OfCase? {
      OwnTurnsBefore(cases, i, t.i);
    }
  }

  lemma OwnTurnsBefore(cases: seq<EvalCase>, i: nat, k: nat)
    requires Accepted(cases) && k < i < |cases| && OneRun(cases, k, i)
    ensures cases[i].turnIndex == i - k + cases[k].turnIndex && cases[k].turnIndex < cases[i].turnIndex
    ensures i - cases[i].turnIndex <= k
    ensures forall j: nat | j < |cases| && cases[j].sessionGroup == cases[i].sessionGroup && cases[j].turnIndex < cases[i].turnIndex ::
              i - cases[i].turnIndex <= j < i
  {
    hide ValidCase;
    var group := cases[i].sessionGroup.value;
    var lo, n := BlockGrows(cases, group);
    assert Grouped(cases[i], group) && Grouped(cases[k], group);
    forall j: nat | j < |cases| && cases[j].sessionGroup == cases[i].sessionGroup && cases[j].turnIndex < cases[i].turnIndex
      ensures i - cases[i].turnIndex <= j < i
    {
      assert Grouped(cases[j], group);
    }
  }

  // ----- nothing of the own group is forgotten -----

  /** Answering a case adds its own turn and drops none. */
  ghost predicate KeepsTurns(answering: Answering) {
    forall memory: seq<Turn>, i: nat, t: Turn :: t == OfCase(i) || t in memory ==> t in answering(memory, i)
  }

  /** Within a run of one session group nothing is reset. */
  lemma {:induction false} RunIsRemembered(answering: Answering, cases: seq<EvalCase>, start: seq<Turn>, i: nat, k: nat, preserveFirst: bool)
    requires KeepsTurns(answering) && k < i < |cases| && OneRun(cases, k, i)
    ensures OfCase(k) in MemoryAt(answering, cases, start, i, preserveFirst)
    decreases i
  {
    assert cases[i - 1].sessionGroup == cases[i].sessionGroup;
    var before := MemoryAt(answering, cases, start, i - 1, preserveFirst);
    if k < i - 1 {
      RunIsRemembered(answering, cases, start, i - 1, k, preserveFirst);
    }
    assert OfCase(k) in answering(before, i - 1);
  }

  /** What the caller brought along is there for the first case when it is preserved, and for the run it opens. */
  lemma {:induction false} BroughtIsRemembered(answering: Answering, cases: seq<EvalCase>, start: seq<Turn>, i: nat, t: Turn)
    requires KeepsTurns(answering) && i < |cases| && t in start && (i == 0 || OneRun(cases, 0, i))
    ensures t in MemoryAt(answering, cases, start, i, true)
    decreases i
  {
    if i > 0 {
      assert cases[i - 1].sessionGroup == cases[i].sessionGroup;
      BroughtIsRemembered(answering, cases, start, i - 1, t);
      assert t in answering(MemoryAt(answering, cases, start, i - 1, true), i - 1);
    }
  }

  /** Main theorem: when answering keeps all turns, the memory at a case of an accepted list holds exactly the turns
      of its group asked before it, and exactly for the first case and its group what the caller asked to
      preserve. */
  lemma MemoryIsWholeGroup(answering: Answering, cases: seq<EvalCase>, start: seq<Turn>, i: nat, t: Turn, preserveFirst: bool)
    requires OnlyAddsOwnTurn(answering) && KeepsTurns(answering) && AllBrought(start) && Accepted(cases) && i < |cases|
    ensures t in MemoryAt(answering, cases, start, i, preserveFirst) <==>
            match t
            case OfCase(k) => cases[i].sessionGroup.Some? && i - cases[i].turnIndex <= k < i
            case Brought(_) => preserveFirst && t in start && (i == 0 || (cases[i].sessionGroup.Some? && cases[i].turnIndex == i))
  {
    hide ValidCase, MemoryAt, OnlyAddsOwnTurn, KeepsTurns, Accepted;
    if t in MemoryAt(answering, cases, start, i, preserveFirst) {
      MemoryIsOwnGroup(answering, cases, start, i, t, preserveFirst);
    }
    if t.OfCase? && cases[i].sessionGroup.Some? && i - cases[i].turnIndex <= t.i < i {
      GroupIsRun(cases, i, t.i);
      RunIsRemembered(answering, cases, start, i, t.i, preserveFirst);
    }
    if t.Brought? && preserveFirst && t in start && (i == 0 || (cases[i].sessionGroup.Some? && cases[i].turnIndex == i)) {
      if i > 0 { GroupIsRun(cases, i, 0); }
      BroughtIsRemembered(answering, cases, start, i, t);
    }
  }

  lemma GroupIsRun(cases: seq<EvalCase>, i: nat, k: nat)
    requires Accepted(cases) && k < i < |cases| && cases[i].sessionGroup.Some? && i - cases[i].turnIndex <= k
    ensures OneRun(cases, k, i)
  {
    hide ValidCase;
    var group := cases[i].sessionGroup.value;
    var lo, n := BlockGrows(cases, group);
    assert Grouped(cases[i], group);
    forall j | k <= j <= i ensures cases[j].sessionGroup == cases[i].sessionGroup {
      assert Grouped(cases[j], group);
    }
  }

  /** Between groups, and before every case without one, the memory is empty. */
  lemma NewRunStartsEmpty(answering: Answering, cases: seq<EvalCase>, start: seq<Turn>, i: nat, preserveFirst: bool)
    requires i < |cases| && !(preserveFirst && i == 0)
    requires cases[i].sessionGroup.None? || i == 0 || cases[i - 1].sessionGroup != cases[i].sessionGroup
    ensures MemoryAt(answering, cases, start, i, preserveFirst) == []
  {
  }
}
