/** Immutable publication (legal_rag/experiment_lifecycle.py). */
module Publication {
  // Any number of publishers write four files and then a completion marker into one directory, each
  // file through a create-if-absent link, and may crash between any two file-system operations.  The
  // first half is the step system with its safety and progress theorems; the second half is one
  // publisher's run as a method over the directory.

  type Bytes = seq<bv8>

  /** SHA-256, treated as injective: a digest is the term that was hashed. */
  datatype Digest = Sha256(data: Bytes)

  datatype Evidence = Evidence(size: nat, sha256: Digest)

  datatype Identity = Identity(experimentId: string, manifestHash: string, aggregationKey: string, bundleHash: string)

  /** What a directory entry holds.  Canonical JSON of a marker is injective, so a
      marker's bytes are represented by the marker itself. */
  datatype Content =
    | Blob(data: Bytes)
    | Marker(identity: Identity, files: map<string, Evidence>)

  /** What one publisher computed before touching the directory. */
  datatype Plan = Plan(identity: Identity, summary: Bytes, casesJsonl: Bytes, casesCsv: Bytes, report: Bytes)

  const FILE_COUNT := 4
  const NAMES: seq<string> := ["summary.json", "cases.jsonl", "cases.csv", "report.md", "complete.json"]

  function FileBytes(plan: Plan, i: nat): Bytes
    requires i < FILE_COUNT
  {
    [plan.summary, plan.casesJsonl, plan.casesCsv, plan.report][i]
  }

  function EvidenceOf(data: Bytes): Evidence {
    Evidence(|data|, Sha256(data))
  }

  function MarkerOf(plan: Plan): Content {
    Marker(plan.identity,
           map[NAMES[0] := EvidenceOf(plan.summary), NAMES[1] := EvidenceOf(plan.casesJsonl),
               NAMES[2] := EvidenceOf(plan.casesCsv), NAMES[3] := EvidenceOf(plan.report)])
  }

  /** The i-th thing a publisher writes: four files, then the marker. */
  function Target(plan: Plan, i: nat): Content
    requires i <= FILE_COUNT
  {
    if i < FILE_COUNT then Blob(FileBytes(plan, i)) else MarkerOf(plan)
  }

  type Directory = map<string, Content>

  predicate Holds(dir: Directory, plan: Plan, i: nat)
    requires i <= FILE_COUNT
  {
    NAMES[i] in dir && dir[NAMES[i]] == Target(plan, i)
  }

  predicate HoldsUpTo(dir: Directory, plan: Plan, n: nat)
    requires n <= FILE_COUNT + 1
  {
    forall i: nat | i < n :: Holds(dir, plan, i)
  }

  /** Every file an existing marker lists is present with exactly the listed size and digest. */
  predicate MarkerTruthful(dir: Directory) {
    NAMES[FILE_COUNT] in dir && dir[NAMES[FILE_COUNT]].Marker? ==>
      forall name | name in dir[NAMES[FILE_COUNT]].files ::
        name in dir && dir[name].Blob? && EvidenceOf(dir[name].data) == dir[NAMES[FILE_COUNT]].files[name]
  }

  lemma NamesDistinct(i: nat, j: nat)
    requires i < j <= FILE_COUNT
    ensures NAMES[i] != NAMES[j]
  {
    assert |NAMES[0]| == 12 && |NAMES[1]| == 11 && |NAMES[2]| == 9 && |NAMES[3]| == 9 && |NAMES[4]| == 13;
    assert NAMES[2][0] != NAMES[3][0];
  }

  /** Equal markers list equal files. */
  lemma MarkerDeterminesFiles(p: Plan, q: Plan)
    requires MarkerOf(p) == MarkerOf(q)
    ensures p == q
  {
    var fp, fq := MarkerOf(p).files, MarkerOf(q).files;
    NamesDistinct(0, 1); NamesDistinct(0, 2); NamesDistinct(0, 3);
    NamesDistinct(1, 2); NamesDistinct(1, 3); NamesDistinct(2, 3);
    assert forall i: nat | i < FILE_COUNT :: fp[NAMES[i]] == EvidenceOf(FileBytes(p, i)) && fq[NAMES[i]] == EvidenceOf(FileBytes(q, i));
    assert fp[NAMES[0]] == fq[NAMES[0]] && fp[NAMES[1]] == fq[NAMES[1]] && fp[NAMES[2]] == fq[NAMES[2]] && fp[NAMES[3]] == fq[NAMES[3]];
    assert EvidenceOf(FileBytes(p, 0)) == EvidenceOf(FileBytes(q, 0)) && EvidenceOf(FileBytes(p, 1)) == EvidenceOf(FileBytes(q, 1));
    assert EvidenceOf(FileBytes(p, 2)) == EvidenceOf(FileBytes(q, 2)) && EvidenceOf(FileBytes(p, 3)) == EvidenceOf(FileBytes(q, 3));
  }

  // ----- the step system -----

  /** Where a publisher is between two file-system operations. */
  datatype Stage =
    | Start                  // about to look for complete.json
    | Verify(k: nat)         // complete.json was there: comparing entry k (the marker first, then the files)
    | Check(i: nat)          // about to look for entry i before writing it
    | Compare(i: nat)        // entry i was there: comparing its bytes
    | Link(i: nat)           // entry i was absent: temporary file written, about to link it into place
    | Returned
    | Failed
    | Crashed

  datatype Publisher = Publisher(plan: Plan, stage: Stage)

  datatype System = System(dir: Directory, pubs: seq<Publisher>)

  predicate StageInRange(stage: Stage) {
    match stage
    case Verify(k) => k <= FILE_COUNT
    case Check(i) => i <= FILE_COUNT
    case Compare(i) => i <= FILE_COUNT
    case Link(i) => i <= FILE_COUNT
    case _ => true
  }

  predicate Terminal(stage: Stage) {
    stage.Returned? || stage.Failed? || stage.Crashed?
  }

  /** Verification order after the marker was seen: the marker itself, then the four files. */
  function VerifyTarget(k: nat): (i: nat)
    requires k <= FILE_COUNT
    ensures i <= FILE_COUNT
  {
    if k == 0 then FILE_COUNT else k - 1
  }

  function AfterWriting(i: nat): Stage {
    if i == FILE_COUNT then Returned else Check(i + 1)
  }

  /** One file-system operation of one publisher: the directory and the stage after it. */
  function Operate(dir: Directory, p: Publisher): (Directory, Stage)
    requires StageInRange(p.stage)
  {
    match p.stage
    case Start =>
      (dir, if NAMES[FILE_COUNT] in dir then Verify(0) else Check(0))
    case Verify(k) =>
      (dir, if !Holds(dir, p.plan, VerifyTarget(k)) then Failed else if k == FILE_COUNT then Returned else Verify(k + 1))
    case Check(i) =>
      (dir, if NAMES[i] in dir then Compare(i) else Link(i))
    case Compare(i) =>
      (dir, if Holds(dir, p.plan, i) then AfterWriting(i) else Failed)
    case Link(i) =>
      if NAMES[i] in dir then (dir, Compare(i)) else (dir[NAMES[i] := Target(p.plan, i)], AfterWriting(i))
    case _ => (dir, p.stage)
  }

  datatype Action = Operation(who: nat) | Crash(who: nat) | Join(plan: Plan)

  predicate Enabled(s: System, a: Action) {
    match a
    case Operation(who) => who < |s.pubs| && !Terminal(s.pubs[who].stage)
    case Crash(who) => who < |s.pubs| && !Terminal(s.pubs[who].stage)
    case Join(_) => true
  }

  function Next(s: System, a: Action): System
    requires SystemInRange(s) && Enabled(s, a)
  {
    match a
    case Operation(who) =>
      var (dir, stage) := Operate(s.dir, s.pubs[who]);
      System(dir, s.pubs[who := s.pubs[who].(stage := stage)])
    case Crash(who) => s.(pubs := s.pubs[who := s.pubs[who].(stage := Crashed)])
    case Join(plan) => s.(pubs := s.pubs + [Publisher(plan, Start)])
  }

  predicate SystemInRange(s: System) {
    forall w: nat | w < |s.pubs| :: StageInRange(s.pubs[w].stage)
  }

  lemma RangeKept(s: System, a: Action)
    requires SystemInRange(s) && Enabled(s, a)
    ensures SystemInRange(Next(s, a))
  {
  }

  /** A run is a start state and the actions taken; After gives the state it ends in. */
  predicate Runs(s: System, actions: seq<Action>)
    requires SystemInRange(s)
    decreases |actions|
  {
    actions == [] || (Enabled(s, actions[0]) && (RangeKept(s, actions[0]); Runs(Next(s, actions[0]), actions[1..])))
  }

  function After(s: System, actions: seq<Action>): (t: System)
    requires SystemInRange(s) && Runs(s, actions)
    ensures SystemInRange(t)
    decreases |actions|
  {
    if actions == [] then s else (RangeKept(s, actions[0]); After(Next(s, actions[0]), actions[1..]))
  }

  const EMPTY := System(map[], [])

  // ----- safety -----

  /** Nothing that is published ever changes or disappears. */
  predicate Extends(before: Directory, after: Directory) {
    forall name | name in before :: name in after && after[name] == before[name]
  }

  /** What a publisher's stage says about the directory. */
  predicate StageJustified(dir: Directory, p: Publisher) {
    match p.stage
    case Verify(k) =>
      NAMES[FILE_COUNT] in dir && k <= FILE_COUNT && forall j: nat | j < k :: Holds(dir, p.plan, VerifyTarget(j))
    case Check(i) => i <= FILE_COUNT && HoldsUpTo(dir, p.plan, i)
    case Compare(i) => i <= FILE_COUNT && HoldsUpTo(dir, p.plan, i) && NAMES[i] in dir
    case Link(i) => i <= FILE_COUNT && HoldsUpTo(dir, p.plan, i)
    case Returned => HoldsUpTo(dir, p.plan, FILE_COUNT + 1)
    case _ => true
  }

  predicate Safe(s: System) {
    && SystemInRange(s)
    && MarkerTruthful(s.dir)
    && forall w: nat | w < |s.pubs| :: StageJustified(s.dir, s.pubs[w])
  }

  lemma HoldsMonotone(before: Directory, after: Directory, plan: Plan)
    requires Extends(before, after)
    ensures forall i: nat {:trigger Holds(after, plan, i)} | i <= FILE_COUNT && Holds(before, plan, i) :: Holds(after, plan, i)
  {
  }

  lemma PrefixPresent(dir: Directory, plan: Plan, n: nat)
    requires n <= FILE_COUNT + 1 && HoldsUpTo(dir, plan, n)
    ensures forall i: nat | i < n :: NAMES[i] in dir
  {
    forall i: nat | i < n ensures NAMES[i] in dir {
      assert Holds(dir, plan, i);
    }
  }

  lemma JustifiedMonotone(before: Directory, after: Directory, p: Publisher)
    requires StageJustified(before, p) && Extends(before, after)
    ensures StageJustified(after, p)
  {
    HoldsMonotone(before, after, p.plan);
  }

  lemma TruthfulWhenWritten(dir: Directory, plan: Plan)
    requires HoldsUpTo(dir, plan, FILE_COUNT)
    ensures MarkerTruthful(dir[NAMES[FILE_COUNT] := MarkerOf(plan)])
  {
    NamesDistinct(0, 4); NamesDistinct(1, 4); NamesDistinct(2, 4); NamesDistinct(3, 4);
    NamesDistinct(0, 1); NamesDistinct(0, 2); NamesDistinct(0, 3);
    NamesDistinct(1, 2); NamesDistinct(1, 3); NamesDistinct(2, 3);
    assert Holds(dir, plan, 0) && Holds(dir, plan, 1) && Holds(dir, plan, 2) && Holds(dir, plan, 3);
  }

  lemma OperateJustified(dir: Directory, p: Publisher)
    requires MarkerTruthful(dir) && StageInRange(p.stage) && StageJustified(dir, p)
    ensures var (dir', stage') := Operate(dir, p);
            Extends(dir, dir') && MarkerTruthful(dir') && StageJustified(dir', p.(stage := stage'))
  {
    var (dir', stage') := Operate(dir, p);
    if p.stage.Link? && NAMES[p.stage.i] !in dir {
      var i := p.stage.i;
      if i == FILE_COUNT {
        TruthfulWhenWritten(dir, p.plan);
      } else {
        NamesDistinct(i, FILE_COUNT);
      }
      JustifiedMonotone(dir, dir', p);
      assert Holds(dir', p.plan, i);
    }
    if p.stage.Verify? && stage'.Returned? {
      forall i: nat | i < FILE_COUNT + 1 ensures Holds(dir, p.plan, i) {
        assert i == VerifyTarget(if i == FILE_COUNT then 0 else i + 1);
      }
    }
  }

  lemma StepSafe(s: System, a: Action)
    requires Safe(s) && Enabled(s, a)
    ensures Safe(Next(s, a)) && Extends(s.dir, Next(s, a).dir)
  {
    RangeKept(s, a);
    if a.Operation? {
      OperateJustified(s.dir, s.pubs[a.who]);
      forall w: nat | w < |s.pubs| ensures StageJustified(Next(s, a).dir, Next(s, a).pubs[w]) {
        if w != a.who {
          JustifiedMonotone(s.dir, Next(s, a).dir, s.pubs[w]);
        }
      }
    }
  }

  lemma {:induction false} RunSafe(s: System, actions: seq<Action>)
    requires Safe(s) && Runs(s, actions)
    ensures Safe(After(s, actions)) && Extends(s.dir, After(s, actions).dir)
    decreases |actions|
  {
    if actions != [] {
      StepSafe(s, actions[0]);
      RunSafe(Next(s, actions[0]), actions[1..]);
    }
  }

  lemma {:induction false} RunsCompose(s: System, first: seq<Action>, second: seq<Action>)
    requires SystemInRange(s)
    requires Runs(s, first) && Runs(After(s, first), second)
    ensures Runs(s, first + second) && After(s, first + second) == After(After(s, first), second)
    decreases |first|
  {
    if first == [] {
      assert first + second == second;
    } else {
      assert (first + second)[0] == first[0] && (first + second)[1..] == first[1..] + second;
      RunsCompose(Next(s, first[0]), first[1..], second);
    }
  }

  /** Main safety theorem: in every interleaving, with crashes and late arrivals anywhere, and at
      every point of it (any earlier run followed by any later one), what is published never changes
      and a completion marker only ever lists files that are there with the listed content. */
  lemma PublishedFilesNeverChange(earlier: seq<Action>, later: seq<Action>)
    requires Runs(EMPTY, earlier) && Runs(After(EMPTY, earlier), later)
    ensures Runs(EMPTY, earlier + later)
    ensures MarkerTruthful(After(EMPTY, earlier).dir)
    ensures Extends(After(EMPTY, earlier).dir, After(EMPTY, earlier + later).dir)
  {
    RunSafe(EMPTY, earlier);
    RunSafe(After(EMPTY, earlier), later);
    RunsCompose(EMPTY, earlier, later);
  }

  /** Any two publishers that return normally, at whatever times, published the same thing:
      same identity and same bytes in all four files. */
  lemma ReturnedPublishersAgree(actions: seq<Action>, v: nat, w: nat)
    requires Runs(EMPTY, actions)
    requires var s := After(EMPTY, actions);
             v < |s.pubs| && w < |s.pubs| && s.pubs[v].stage.Returned? && s.pubs[w].stage.Returned?
    ensures After(EMPTY, actions).pubs[v].plan == After(EMPTY, actions).pubs[w].plan
  {
    RunSafe(EMPTY, actions);
    var s := After(EMPTY, actions);
    assert StageJustified(s.dir, s.pubs[v]) && StageJustified(s.dir, s.pubs[w]);
    assert Holds(s.dir, s.pubs[v].plan, FILE_COUNT) && Holds(s.dir, s.pubs[w].plan, FILE_COUNT);
    MarkerDeterminesFiles(s.pubs[v].plan, s.pubs[w].plan);
  }

  // ----- progress: recovery -----

  /** Own steps a publisher can still take, at most. */
  function StepsLeft(stage: Stage): nat {
    match stage
    case Start => 16
    case Verify(k) => if k <= FILE_COUNT then 5 - k else 0
    case Check(i) => if i <= FILE_COUNT then 15 - 3 * i else 0
    case Link(i) => if i <= FILE_COUNT then 14 - 3 * i else 0
    case Compare(i) => if i <= FILE_COUNT then 13 - 3 * i else 0
    case _ => 0
  }

  predicate AllPlan(s: System, plan: Plan) {
    forall w: nat | w < |s.pubs| :: s.pubs[w].plan == plan
  }

  /** Every entry present is the one the plan would write, and a marker is only there once the files are. */
  predicate LeftBy(dir: Directory, plan: Plan) {
    && (forall i: nat | i <= FILE_COUNT && NAMES[i] in dir :: Holds(dir, plan, i))
    && (NAMES[FILE_COUNT] in dir ==> forall i: nat | i < FILE_COUNT :: NAMES[i] in dir)
  }

  predicate Recoverable(s: System, plan: Plan) {
    && Safe(s)
    && LeftBy(s.dir, plan)
    && AllPlan(s, plan)
    && forall w: nat | w < |s.pubs| :: !s.pubs[w].stage.Failed?
  }

  predicate OnlyPlan(actions: seq<Action>, plan: Plan) {
    forall k: nat | k < |actions| && actions[k].Join? :: actions[k].plan == plan
  }

  lemma StepRecoverable(s: System, a: Action, plan: Plan)
    requires Recoverable(s, plan) && Enabled(s, a) && (a.Join? ==> a.plan == plan)
    ensures Recoverable(Next(s, a), plan)
    ensures forall w: nat | w < |s.pubs| ::
              StepsLeft(Next(s, a).pubs[w].stage) <= StepsLeft(s.pubs[w].stage) - (if a == Operation(w) then 1 else 0)
  {
    StepSafe(s, a);
    if a.Operation? {
      var p := s.pubs[a.who];
      assert StageJustified(s.dir, p);
      if p.stage.Link? && NAMES[p.stage.i] !in s.dir {
        var i, dir' := p.stage.i, Next(s, a).dir;
        forall j: nat | j <= FILE_COUNT && NAMES[j] in dir' ensures Holds(dir', plan, j) {
          if j < i { NamesDistinct(j, i); } else if i < j { NamesDistinct(i, j); }
        }
        PrefixPresent(s.dir, plan, i);
        if i < FILE_COUNT {
          NamesDistinct(i, FILE_COUNT);
        }
      }
      if p.stage.Verify? {
        assert Holds(s.dir, plan, VerifyTarget(p.stage.k));
      }
    }
  }

  lemma {:induction false} RunRecoverable(s: System, actions: seq<Action>, plan: Plan)
    requires Recoverable(s, plan) && Runs(s, actions) && OnlyPlan(actions, plan)
    ensures Recoverable(After(s, actions), plan) && |After(s, actions).pubs| >= |s.pubs|
    ensures forall w: nat | w < |s.pubs| ::
              StepsLeft(After(s, actions).pubs[w].stage) + OwnSteps(actions, w) <= StepsLeft(s.pubs[w].stage)
    decreases |actions|
  {
    if actions != [] {
      StepRecoverable(s, actions[0], plan);
      assert forall k: nat | k < |actions[1..]| :: actions[1..][k] == actions[k + 1];
      RunRecoverable(Next(s, actions[0]), actions[1..], plan);
    }
  }

  function OwnSteps(actions: seq<Action>, w: nat): nat {
    if actions == [] then 0 else (if actions[0] == Operation(w) then 1 else 0) + OwnSteps(actions[1..], w)
  }

  /** Recovery: take any directory left by any interleaving of runs of one bundle, crashed anywhere
      or still running.  Start one more publisher of that bundle and let everybody carry on in any
      order: nobody ever fails, nobody takes more than 16 steps, and whenever the new publisher has
      neither crashed nor a step left it has returned, with all four files and the marker in place. */
  lemma RerunRecovers(before: seq<Action>, plan: Plan, after: seq<Action>)
    requires Runs(EMPTY, before) && OnlyPlan(before, plan)
    requires SystemInRange(Next(After(EMPTY, before), Join(plan)))
    requires Runs(Next(After(EMPTY, before), Join(plan)), after) && OnlyPlan(after, plan)
    ensures var s := After(Next(After(EMPTY, before), Join(plan)), after);
            var newcomer := |After(EMPTY, before).pubs|;
            && newcomer < |s.pubs|
            && OwnSteps(after, newcomer) <= 16
            && (forall w: nat | w < |s.pubs| :: !s.pubs[w].stage.Failed?)
            && (Terminal(s.pubs[newcomer].stage) && !s.pubs[newcomer].stage.Crashed? ==>
                  s.pubs[newcomer].stage.Returned? && HoldsUpTo(s.dir, plan, FILE_COUNT + 1))
  {
    RunRecoverable(EMPTY, before, plan);
    var mid := After(EMPTY, before);
    StepRecoverable(mid, Join(plan), plan);
    RunRecoverable(Next(mid, Join(plan)), after, plan);
    var s := After(Next(mid, Join(plan)), after);
    var newcomer := |mid.pubs|;
    assert StageJustified(s.dir, s.pubs[newcomer]) && s.pubs[newcomer].plan == plan;
  }

  // ----- progress: rivals -----

  /** How many entries of the common order are present. */
  predicate PresentExactly(dir: Directory, n: nat)
    requires n <= FILE_COUNT + 1
  {
    forall i: nat | i <= FILE_COUNT :: NAMES[i] in dir <==> i < n
  }

  /** Someone who won everything so far is still going, or has returned. */
  predicate LeaderAt(s: System, n: nat, w: nat) {
    && w < |s.pubs|
    && (n == FILE_COUNT + 1 ==> s.pubs[w].stage == Returned)
    && (n <= FILE_COUNT ==> s.pubs[w].stage == Check(n) || s.pubs[w].stage == Link(n))
  }

  ghost predicate Contested(s: System, n: nat) {
    && Safe(s)
    && n <= FILE_COUNT + 1
    && PresentExactly(s.dir, n)
    && (n == 0 ==> forall w: nat | w < |s.pubs| ::
          s.pubs[w].stage == Start || s.pubs[w].stage == Check(0) || s.pubs[w].stage == Link(0))
    && (n > 0 ==> exists w: nat :: LeaderAt(s, n, w))
  }

  lemma StepContested(s: System, n: nat, a: Action) returns (n': nat)
    requires Contested(s, n) && Enabled(s, a) && !a.Crash?
    ensures Contested(Next(s, a), n')
  {
    StepSafe(s, a);
    n' := n;
    var t := Next(s, a);
    if a.Operation? && s.pubs[a.who].stage.Link? && NAMES[s.pubs[a.who].stage.i] !in s.dir {
      var i := s.pubs[a.who].stage.i;
      assert StageJustified(s.dir, s.pubs[a.who]);
      PrefixPresent(s.dir, s.pubs[a.who].plan, i);
      assert n <= i && NAMES[n] !in s.dir;
      n' := n + 1;
      forall j: nat | j <= FILE_COUNT ensures NAMES[j] in t.dir <==> j < n' {
        if j < i { NamesDistinct(j, i); } else if i < j { NamesDistinct(i, j); }
      }
      assert LeaderAt(t, n', a.who);
    } else {
      assert t.dir == s.dir;
      if n > 0 {
        var w: nat :| LeaderAt(s, n, w);
        assert LeaderAt(t, n, w);
      }
    }
  }

  predicate NoCrash(actions: seq<Action>) {
    forall k: nat | k < |actions| :: !actions[k].Crash?
  }

  lemma {:induction false} RunContested(s: System, n: nat, actions: seq<Action>) returns (n': nat)
    requires Contested(s, n) && Runs(s, actions) && NoCrash(actions)
    ensures Contested(After(s, actions), n')
    decreases |actions|
  {
    if actions == [] {
      n' := n;
    } else {
      var m := StepContested(s, n, actions[0]);
      assert forall k: nat | k < |actions[1..]| :: actions[1..][k] == actions[k + 1];
      n' := RunContested(Next(s, actions[0]), m, actions[1..]);
    }
  }

  /** Rivals with different bytes can never all fail: start from an empty directory, let any number of
      publishers with any plans interleave without crashing; once all are done, one has returned. */
  lemma RivalsNeverAllFail(actions: seq<Action>)
    requires Runs(EMPTY, actions) && NoCrash(actions)
    requires After(EMPTY, actions).pubs != []
    requires forall w: nat | w < |After(EMPTY, actions).pubs| :: Terminal(After(EMPTY, actions).pubs[w].stage)
    ensures exists w: nat :: w < |After(EMPTY, actions).pubs| && After(EMPTY, actions).pubs[w].stage.Returned?
  {
    assert Contested(EMPTY, 0);
    var n := RunContested(EMPTY, 0, actions);
    var s := After(EMPTY, actions);
    if n == 0 {
      assert Terminal(s.pubs[0].stage);
    } else {
      var w: nat :| LeaderAt(s, n, w);
      assert Terminal(s.pubs[w].stage);
    }
  }

  // ----- one publisher's run over a directory -----

  /** The first entry, from i on, that is there with different content; FILE_COUNT + 1 when none is. */
  function FirstConflict(dir: Directory, plan: Plan, i: nat): (c: nat)
    requires i <= FILE_COUNT + 1
    ensures i <= c <= FILE_COUNT + 1
    ensures c <= FILE_COUNT ==> NAMES[c] in dir && !Holds(dir, plan, c)
    ensures forall j: nat | i <= j < c :: NAMES[j] in dir ==> Holds(dir, plan, j)
    decreases FILE_COUNT + 1 - i
  {
    if i == FILE_COUNT + 1 then i
    else if NAMES[i] in dir && !Holds(dir, plan, i) then i
    else FirstConflict(dir, plan, i + 1)
  }

  /** The directory once the missing ones of the first n entries were linked in. */
  function Filled(dir: Directory, plan: Plan, n: nat): (after: Directory)
    requires n <= FILE_COUNT + 1
    ensures Extends(dir, after)
    ensures forall i: nat | i <= FILE_COUNT :: NAMES[i] in after <==> NAMES[i] in dir || i < n
    ensures forall i: nat | i < n && NAMES[i] !in dir :: Holds(after, plan, i)
    ensures forall name | name in after :: name in dir || exists i: nat | i < n :: name == NAMES[i]
  {
    if n == 0 then dir
    else
      var before := Filled(dir, plan, n - 1);
      NamesAllDistinct();
      if NAMES[n - 1] in before then before else before[NAMES[n - 1] := Target(plan, n - 1)]
  }

  lemma NamesAllDistinct()
    ensures forall i: nat, j: nat | i < j <= FILE_COUNT :: NAMES[i] != NAMES[j]
  {
    forall i: nat, j: nat | i < j <= FILE_COUNT ensures NAMES[i] != NAMES[j] {
      NamesDistinct(i, j);
    }
  }

  /** A publication started on dir and not disturbed succeeds exactly under this condition. */
  predicate CanPublish(dir: Directory, plan: Plan) {
    if NAMES[FILE_COUNT] in dir then HoldsUpTo(dir, plan, FILE_COUNT + 1)
    else forall i: nat | i < FILE_COUNT && NAMES[i] in dir :: Holds(dir, plan, i)
  }

  function DirectoryAfter(dir: Directory, plan: Plan): Directory {
    if NAMES[FILE_COUNT] in dir then dir else Filled(dir, plan, FirstConflict(dir, plan, 0))
  }

  lemma NoConflictMeansCanPublish(dir: Directory, plan: Plan)
    requires NAMES[FILE_COUNT] !in dir
    ensures FirstConflict(dir, plan, 0) == FILE_COUNT + 1 <==> CanPublish(dir, plan)
  {
  }

  /** What an undisturbed success leaves behind, whatever was there before. */
  lemma SuccessIsComplete(dir: Directory, plan: Plan)
    requires CanPublish(dir, plan)
    ensures HoldsUpTo(DirectoryAfter(dir, plan), plan, FILE_COUNT + 1)
    ensures LeftBy(DirectoryAfter(dir, plan), plan)
    ensures Extends(dir, DirectoryAfter(dir, plan))
  {
    var after := DirectoryAfter(dir, plan);
    if NAMES[FILE_COUNT] !in dir {
      NoConflictMeansCanPublish(dir, plan);
      HoldsMonotone(dir, after, plan);
    }
    PrefixPresent(after, plan, FILE_COUNT + 1);
  }

  /** A directory on disk, and the two operations that write into it. */
  class AggregationDirectory {
    var entries: Directory

    constructor ()
      ensures entries == map[]
    {
      entries := map[];
    }

    /** _write_immutable_bytes: false stands for the artifact conflict it raises. */
    method WriteImmutable(plan: Plan, i: nat) returns (ok: bool)
      requires i <= FILE_COUNT
      modifies this
      ensures ok <==> (NAMES[i] in old(entries) ==> Holds(old(entries), plan, i))
      ensures entries == if NAMES[i] in old(entries) then old(entries) else old(entries)[NAMES[i] := Target(plan, i)]
    {
      if NAMES[i] in entries {
        return entries[NAMES[i]] == Target(plan, i);
      }
      entries := entries[NAMES[i] := Target(plan, i)];
      ok := true;
    }

    /** publish_aggregation: false stands for the artifact conflict it raises. */
    method PublishAggregation(plan: Plan) returns (ok: bool)
      modifies this
      ensures ok <==> CanPublish(old(entries), plan)
      ensures entries == DirectoryAfter(old(entries), plan)
      ensures ok ==> HoldsUpTo(entries, plan, FILE_COUNT + 1)
    {
      ghost var before := entries;
      if NAMES[FILE_COUNT] in entries {
        if entries[NAMES[FILE_COUNT]] != MarkerOf(plan) {
          assert !Holds(entries, plan, FILE_COUNT);
          return false;
        }
        var k := 0;
        while k < FILE_COUNT
          invariant k <= FILE_COUNT && entries == before
          invariant HoldsUpTo(entries, plan, k)
        {
          if NAMES[k] !in entries || entries[NAMES[k]] != Blob(FileBytes(plan, k)) {
            assert !Holds(entries, plan, k);
            return false;
          }
          assert Holds(entries, plan, k);
          k := k + 1;
        }
        assert Holds(entries, plan, FILE_COUNT);
        return true;
      }
      NamesAllDistinct();
      NoConflictMeansCanPublish(entries, plan);
      var i := 0;
      while i <= FILE_COUNT
        invariant i <= FILE_COUNT + 1
        invariant entries == Filled(before, plan, i)
        invariant FirstConflict(before, plan, 0) == FirstConflict(before, plan, i)
      {
        assert NAMES[i] in entries ==> entries[NAMES[i]] == before[NAMES[i]];
        ok := WriteImmutable(plan, i);
        if !ok {
          return;
        }
        i := i + 1;
      }
      SuccessIsComplete(before, plan);
      ok := true;
    }
  }

  // ----- the method is a run of the step system -----

  /** One publisher taking its steps with nobody in between. */
  function Solo(dir: Directory, p: Publisher): (Directory, Stage)
    requires StageInRange(p.stage)
    decreases StepsLeft(p.stage)
  {
    if Terminal(p.stage) then (dir, p.stage)
    else
      var (dir', stage') := Operate(dir, p);
      Solo(dir', p.(stage := stage'))
  }

  lemma {:induction false} SoloVerify(dir: Directory, plan: Plan, k: nat)
    requires NAMES[FILE_COUNT] in dir && k <= FILE_COUNT
    requires forall j: nat | j < k :: Holds(dir, plan, VerifyTarget(j))
    ensures Solo(dir, Publisher(plan, Verify(k))) == (dir, if HoldsUpTo(dir, plan, FILE_COUNT + 1) then Returned else Failed)
    decreases FILE_COUNT - k
  {
    var i := VerifyTarget(k);
    if Holds(dir, plan, i) {
      if k < FILE_COUNT {
        SoloVerify(dir, plan, k + 1);
      } else {
        forall j: nat | j < FILE_COUNT + 1 ensures Holds(dir, plan, j) {
          assert j == VerifyTarget(if j == FILE_COUNT then 0 else j + 1);
        }
      }
    }
  }

  /** Two or three steps settle one entry. */
  lemma SoloEntry(d: Directory, plan: Plan, i: nat)
    requires i <= FILE_COUNT
    ensures Solo(d, Publisher(plan, Check(i))) ==
            if NAMES[i] !in d then Solo(d[NAMES[i] := Target(plan, i)], Publisher(plan, AfterWriting(i)))
            else if Holds(d, plan, i) then Solo(d, Publisher(plan, AfterWriting(i)))
            else (d, Failed)
  {
    var looked := if NAMES[i] in d then Compare(i) else Link(i);
    assert Solo(d, Publisher(plan, Check(i))) == Solo(d, Publisher(plan, looked));
    var settled := Operate(d, Publisher(plan, looked));
    assert Solo(d, Publisher(plan, looked)) == Solo(settled.0, Publisher(plan, settled.1));
    assert Solo(d, Publisher(plan, Failed)) == (d, Failed);
  }

  lemma {:induction false} SoloWrite(dir: Directory, plan: Plan, i: nat)
    requires i <= FILE_COUNT
    ensures var c := FirstConflict(dir, plan, i);
            Solo(Filled(dir, plan, i), Publisher(plan, Check(i)))
            == (Filled(dir, plan, c), if c == FILE_COUNT + 1 then Returned else Failed)
    decreases FILE_COUNT - i
  {
    var d := Filled(dir, plan, i);
    assert NAMES[i] in d <==> NAMES[i] in dir;
    SoloEntry(d, plan, i);
    if NAMES[i] !in d || Holds(d, plan, i) {
      assert Filled(dir, plan, i + 1) == if NAMES[i] in d then d else d[NAMES[i] := Target(plan, i)];
      if i < FILE_COUNT {
        SoloWrite(dir, plan, i + 1);
      }
    }
  }

  /** PublishAggregation does exactly what the step system does when one publisher runs alone. */
  lemma MethodIsSoloRun(dir: Directory, plan: Plan)
    ensures Solo(dir, Publisher(plan, Start)) == (DirectoryAfter(dir, plan), if CanPublish(dir, plan) then Returned else Failed)
  {
    if NAMES[FILE_COUNT] in dir {
      SoloVerify(dir, plan, 0);
    } else {
      NoConflictMeansCanPublish(dir, plan);
      SoloWrite(dir, plan, 0);
    }
  }
}
