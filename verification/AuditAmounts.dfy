/** Every number of the attempt audit as a sum over the attempts (legal_rag/experiment_aggregation.py). */
module AuditAmounts {
  import opened Common
  import opened Audit
  import opened AuditTotals

  // ----- what an attempt contributes to each number -----

  function One(b: bool): real { if b then 1.0 else 0.0 }

  function InMode(a: Attempt, part: ModeCell): real {
    match part
    case ModeAttempts => 1.0
    case ModeStatus(status) => One(a.status == status)
    case ModeFailure(code) => One(a.failure == Some(code))
    case ModeQueueWait => a.queueWait
    case ModeEndToEnd => a.endToEnd
    case ModeActual(kind, field) => At(a.actual, (kind, field))
    case ModeSource(kind) => At(a.source, kind)
    case ModeUsage(role, usage) => At(a.usage, (role, usage))
  }

  /** What one stage of the attempt adds to the numbers of its origin. */
  function OfStageAlone(o: Observation, part: OriginCell): real {
    match part
    case Observations => 1.0
    case TimedObservations => One(o.duration.Some?)
    case ObservedDuration => if o.duration.Some? then o.duration.value else 0.0
    case OriginSource(kind) => At(o.source, kind)
  }

  /** The stages with that origin, added up. */
  function OverStagesOf(a: Attempt, stages: seq<Stage>, origin: Origin, part: OriginCell): real {
    if stages == [] then 0.0
    else
      var o := ObservationOf(a, stages[0]);
      (if o.origin == origin then OfStageAlone(o, part) else 0.0) + OverStagesOf(a, stages[1..], origin, part)
  }

  function Contribution(a: Attempt, c: Cell): real {
    match c
    case TrustedAttempts => 1.0
    case StatusCount(status) => One(a.status == status)
    case ModeCount(mode) => One(a.mode == mode)
    case FailureCount(code) => One(a.failure == Some(code))
    case Actual(kind, field) => At(a.actual, (kind, field))
    case Source(kind) => At(a.source, kind)
    case Usage(role, usage) => At(a.usage, (role, usage))
    case OfMode(mode, part) => if a.mode == mode then InMode(a, part) else 0.0
    case Timing(mode, timing) => if a.mode == mode then Amount(a, timing) else 0.0
    case OfEnvironment(fingerprint, timing) => if a.fingerprint == fingerprint then Amount(a, timing) else 0.0
    case StageOrigin(stage, origin) => One(ObservationOf(a, stage).origin == origin)
    case OfOrigin(origin, part) => OverStagesOf(a, STAGES, origin, part)
  }

  function Contributed(attempts: seq<Attempt>, c: Cell): real {
    if attempts == [] then 0.0 else Contribution(attempts[0], c) + Contributed(attempts[1..], c)
  }

  // ----- entries, part by part -----

  predicate NoTwice<T(==)>(s: seq<T>) {
    forall i, j | 0 <= i < j < |s| :: s[i] != s[j]
  }

  lemma NoTwiceRest<T>(s: seq<T>)
    requires s != [] && NoTwice(s)
    ensures NoTwice(s[1..]) && s[0] !in s[1..] && forall x :: x in s <==> x == s[0] || x in s[1..]
  {
  }

  lemma SumOfPair(d: Entry, e: Entry, rest: seq<Entry>, c: Cell)
    ensures Sum([d, e] + rest, c) == (if d.0 == c then d.1 else 0.0) + (if e.0 == c then e.1 else 0.0) + Sum(rest, c)
  {
    SumAppend([d, e], rest, c);
    SumOfTwo(d, e, c);
  }

  lemma {:induction false} FieldSums(a: Attempt, k: Kind, fields: seq<CallField>, c: Cell)
    requires NoTwice(fields)
    ensures Sum(FieldEntries(a, k, fields), c) ==
            match c
            case Actual(kind, field) => if kind == k && field in fields then At(a.actual, (k, field)) else 0.0
            case OfMode(mode, ModeActual(kind, field)) =>
              if mode == a.mode && kind == k && field in fields then At(a.actual, (k, field)) else 0.0
            case _ => 0.0
  {
    hide At;
    if fields != [] {
      NoTwiceRest(fields);
      FieldSums(a, k, fields[1..], c);
      var x := At(a.actual, (k, fields[0]));
      SumOfPair((Actual(k, fields[0]), x), (OfMode(a.mode, ModeActual(k, fields[0])), x), FieldEntries(a, k, fields[1..]), c);
      hide Sum;
    }
  }

  lemma AllFields()
    ensures NoTwice(CALL_FIELDS) && forall f: CallField :: f in CALL_FIELDS
    ensures NoTwice(USAGE_FIELDS) && forall f: UsageField :: f in USAGE_FIELDS
  {
    forall f: CallField ensures f in CALL_FIELDS {
      match f case CallsAttempted => case CallsSucceeded => case CallsFailed => case CallDuration => case ProviderWait =>
    }
    forall f: UsageField ensures f in USAGE_FIELDS {
      match f case Calls => case FailedCalls => case InputTokens => case OutputTokens => case TotalTokens => case TokenUsageCalls => case Latency =>
    }
  }

  lemma AllKinds()
    ensures NoTwice(KINDS) && forall k: Kind :: k in KINDS
    ensures NoTwice(ROLES) && forall r: UsageRole :: r in ROLES
    ensures NoTwice(STAGES) && forall s: Stage :: s in STAGES
  {
    forall k: Kind ensures k in KINDS {
      match k case Embedding => case Normalizer => case Generation => case Rerank => case Judge => case OtherKind =>
    }
    forall r: UsageRole ensures r in ROLES {
      match r case AssistantRole => case NormalizerRole => case JudgeRole =>
    }
    forall s: Stage ensures s in STAGES {
      match s case QueryAnalysis => case QueryEmbedding => case Retrieval => case Reranking => case Answering => case Verifying => case Judging =>
    }
  }

  lemma {:induction false} KindSums(a: Attempt, kinds: seq<Kind>, c: Cell)
    requires NoTwice(kinds)
    ensures Sum(KindEntries(a, kinds), c) ==
            match c
            case Actual(kind, field) => if kind in kinds then At(a.actual, (kind, field)) else 0.0
            case Source(kind) => if kind in kinds then At(a.source, kind) else 0.0
            case OfMode(mode, ModeActual(kind, field)) => if mode == a.mode && kind in kinds then At(a.actual, (kind, field)) else 0.0
            case OfMode(mode, ModeSource(kind)) => if mode == a.mode && kind in kinds then At(a.source, kind) else 0.0
            case _ => 0.0
  {
    hide At, FieldEntries;
    if kinds != [] {
      var k := kinds[0];
      NoTwiceRest(kinds);
      AllFields();
      KindSums(a, kinds[1..], c);
      FieldSums(a, k, CALL_FIELDS, c);
      var x := At(a.source, k);
      var pair: seq<Entry> := [(Source(k), x), (OfMode(a.mode, ModeSource(k)), x)];
      SumOfPair(pair[0], pair[1], KindEntries(a, kinds[1..]), c);
      SumAppend(FieldEntries(a, k, CALL_FIELDS), pair + KindEntries(a, kinds[1..]), c);
      assert KindEntries(a, kinds) == FieldEntries(a, k, CALL_FIELDS) + (pair + KindEntries(a, kinds[1..]));
      hide Sum, KindEntries;
    }
  }

  lemma {:induction false} UsageSums(a: Attempt, r: UsageRole, fields: seq<UsageField>, c: Cell)
    requires NoTwice(fields)
    ensures Sum(UsageEntries(a, r, fields), c) ==
            match c
            case Usage(role, field) => if role == r && field in fields then At(a.usage, (r, field)) else 0.0
            case OfMode(mode, ModeUsage(role, field)) =>
              if mode == a.mode && role == r && field in fields then At(a.usage, (r, field)) else 0.0
            case _ => 0.0
  {
    hide At;
    if fields != [] {
      NoTwiceRest(fields);
      UsageSums(a, r, fields[1..], c);
      var x := At(a.usage, (r, fields[0]));
      SumOfPair((Usage(r, fields[0]), x), (OfMode(a.mode, ModeUsage(r, fields[0])), x), UsageEntries(a, r, fields[1..]), c);
      hide Sum;
    }
  }

  lemma {:induction false} RoleSums(a: Attempt, roles: seq<UsageRole>, c: Cell)
    requires NoTwice(roles)
    ensures Sum(RoleEntries(a, roles), c) ==
            match c
            case Usage(role, field) => if role in roles then At(a.usage, (role, field)) else 0.0
            case OfMode(mode, ModeUsage(role, field)) => if mode == a.mode && role in roles then At(a.usage, (role, field)) else 0.0
            case _ => 0.0
  {
    hide At, UsageEntries;
    if roles != [] {
      NoTwiceRest(roles);
      AllFields();
      RoleSums(a, roles[1..], c);
      UsageSums(a, roles[0], USAGE_FIELDS, c);
      SumAppend(UsageEntries(a, roles[0], USAGE_FIELDS), RoleEntries(a, roles[1..]), c);
      hide Sum;
    }
  }

  lemma SumCons(e: Entry, rest: seq<Entry>, c: Cell)
    ensures Sum([e] + rest, c) == (if e.0 == c then e.1 else 0.0) + Sum(rest, c)
  {
    assert ([e] + rest)[1..] == rest;
  }

  lemma HeadSums(a: Attempt, c: Cell)
    ensures Sum(HeadEntries(a), c) ==
            match c
            case TrustedAttempts => 1.0
            case StatusCount(status) => One(a.status == status)
            case ModeCount(mode) => One(a.mode == mode)
            case FailureCount(code) => One(a.failure == Some(code))
            case OfMode(mode, part) =>
              if mode != a.mode || part.ModeActual? || part.ModeSource? || part.ModeUsage? then 0.0 else InMode(a, part)
            case _ => 0.0
  {
    var first: seq<Entry> := [(TrustedAttempts, 1.0), (StatusCount(a.status), 1.0), (ModeCount(a.mode), 1.0)];
    var failure: seq<Entry> := if a.failure.Some? then [(FailureCount(a.failure.value), 1.0)] else [];
    var second: seq<Entry> := [(OfMode(a.mode, ModeAttempts), 1.0), (OfMode(a.mode, ModeStatus(a.status)), 1.0)];
    var inMode: seq<Entry> := if a.failure.Some? then [(OfMode(a.mode, ModeFailure(a.failure.value)), 1.0)] else [];
    var last: seq<Entry> := [(OfMode(a.mode, ModeQueueWait), a.queueWait), (OfMode(a.mode, ModeEndToEnd), a.endToEnd)];
    assert HeadEntries(a) == first + failure + second + inMode + last;
    hide HeadEntries;
    SumAppend(first + failure + second + inMode, last, c);
    SumAppend(first + failure + second, inMode, c);
    SumAppend(first + failure, second, c);
    SumAppend(first, failure, c);
    SumOfThree(first[0], first[1], first[2], c);
    SumOfTwo(second[0], second[1], c);
    SumOfTwo(last[0], last[1], c);
    SumOfAtMostOne(failure, c);
    SumOfAtMostOne(inMode, c);
    hide Sum;
  }

  lemma SumOfAtMostOne(e: seq<Entry>, c: Cell)
    requires |e| <= 1
    ensures Sum(e, c) == if e != [] && e[0].0 == c then e[0].1 else 0.0
  {
    if e != [] {
      assert e[1..] == [];
    }
  }

  lemma {:induction false} SourceSums(o: Observation, kinds: seq<Kind>, c: Cell)
    requires NoTwice(kinds)
    ensures Sum(SourceEntries(o, kinds), c) ==
            if c.OfOrigin? && c.origin == o.origin && c.inOrigin.OriginSource? && c.inOrigin.kind in kinds then At(o.source, c.inOrigin.kind) else 0.0
  {
    hide At;
    if kinds != [] {
      NoTwiceRest(kinds);
      SourceSums(o, kinds[1..], c);
      SumCons((OfOrigin(o.origin, OriginSource(kinds[0])), At(o.source, kinds[0])), SourceEntries(o, kinds[1..]), c);
      hide Sum;
    }
  }

  lemma OneStageSums(s: Stage, o: Observation, c: Cell)
    ensures Sum(StageEntry(s, o), c) ==
            match c
            case StageOrigin(stage, origin) => One(stage == s && origin == o.origin)
            case OfOrigin(origin, part) => if origin == o.origin then OfStageAlone(o, part) else 0.0
            case _ => 0.0
  {
    hide SourceEntries, At;
    AllKinds();
    SourceSums(o, KINDS, c);
    var first: seq<Entry> := [(StageOrigin(s, o.origin), 1.0), (OfOrigin(o.origin, Observations), 1.0)];
    var timed: seq<Entry> := [(OfOrigin(o.origin, TimedObservations), if o.duration.Some? then 1.0 else 0.0),
                              (OfOrigin(o.origin, ObservedDuration), if o.duration.Some? then o.duration.value else 0.0)];
    assert StageEntry(s, o) == first + (timed + SourceEntries(o, KINDS));
    hide StageEntry;
    SumOfPair(timed[0], timed[1], SourceEntries(o, KINDS), c);
    SumOfPair(first[0], first[1], timed + SourceEntries(o, KINDS), c);
    hide Sum;
  }

  lemma {:induction false} EveryStageSums(a: Attempt, stages: seq<Stage>, c: Cell)
    requires NoTwice(stages)
    ensures Sum(StageEntries(a, stages), c) ==
            match c
            case StageOrigin(stage, origin) => One(stage in stages && ObservationOf(a, stage).origin == origin)
            case OfOrigin(origin, part) => OverStagesOf(a, stages, origin, part)
            case _ => 0.0
  {
    hide StageEntry, OfStageAlone, ObservationOf;
    if stages != [] {
      NoTwiceRest(stages);
      EveryStageSums(a, stages[1..], c);
      OneStageSums(stages[0], ObservationOf(a, stages[0]), c);
      SumAppend(StageEntry(stages[0], ObservationOf(a, stages[0])), StageEntries(a, stages[1..]), c);
      hide Sum;
    }
  }

  lemma EntriesAreContributions(a: Attempt, c: Cell)
    ensures Sum(Entries(a), c) == Contribution(a, c)
  {
    hide Sum, Entries, HeadEntries, KindEntries, RoleEntries, TimingEntries, EnvironmentEntries, StageEntries, At, OverStagesOf, Amount;
    AllKinds();
    SumOfParts(a, c);
    HeadSums(a, c);
    KindSums(a, KINDS, c);
    RoleSums(a, ROLES, c);
    OwnTimings(a, c);
    EveryStageSums(a, STAGES, c);
  }

  // ----- the whole audit -----

  lemma {:induction false} FoldAdds(l: Ledger, attempts: seq<Attempt>, c: Cell)
    requires Folded(l, attempts).Some?
    ensures At(Folded(l, attempts).value.cells, c) == At(l.cells, c) + Contributed(attempts, c)
    decreases |attempts|
  {
    hide Entries, AddAll, At, Contribution;
    if attempts != [] {
      AddAllIsSum(l.cells, Entries(attempts[0]));
      EntriesAreContributions(attempts[0], c);
      FoldAdds(Added(l, attempts[0]).value, attempts[1..], c);
      hide Sum;
    }
  }

  /** Main theorem: every number of the audit, overall, of a cache mode, of an environment, of a stage or of an
      origin, is the sum of what the attempts contribute to it: their counts, call amounts, model usage by role
      and field, waiting and running times, and what their stages observed. */
  lemma AuditIsSum(attempts: seq<Attempt>, c: Cell)
    requires Folded(BLANK, attempts).Some?
    ensures At(Folded(BLANK, attempts).value.cells, c) == Contributed(attempts, c)
  {
    hide Folded, At, Contributed;
    FoldAdds(BLANK, attempts, c);
    BlankIsZero(c);
  }
}
