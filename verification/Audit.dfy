/** The attempt audit: in-place counters, later recomputed (legal_rag/experiment_aggregation.py). */
module Audit {
  import opened Common

  datatype Kind = Embedding | Normalizer | Generation | Rerank | Judge | OtherKind
  datatype CallField = CallsAttempted | CallsSucceeded | CallsFailed | CallDuration | ProviderWait
  datatype UsageRole = AssistantRole | NormalizerRole | JudgeRole
  datatype UsageField = Calls | FailedCalls | InputTokens | OutputTokens | TotalTokens | TokenUsageCalls | Latency
  datatype Stage = QueryAnalysis | QueryEmbedding | Retrieval | Reranking | Answering | Verifying | Judging
  datatype Origin = FromFresh | FromCache | FromReplay | NotRun
  datatype CacheMode = Fresh | Cache | Replay

  const KINDS := [Embedding, Normalizer, Generation, Rerank, Judge, OtherKind]
  const CALL_FIELDS := [CallsAttempted, CallsSucceeded, CallsFailed, CallDuration, ProviderWait]
  const ROLES := [AssistantRole, NormalizerRole, JudgeRole]
  const USAGE_FIELDS := [Calls, FailedCalls, InputTokens, OutputTokens, TotalTokens, TokenUsageCalls, Latency]
  const STAGES := [QueryAnalysis, QueryEmbedding, Retrieval, Reranking, Answering, Verifying, Judging]

  datatype Observation = Observation(origin: Origin, duration: Option<real>, source: map<Kind, real>)

  /** One validated attempt.  environment is its redacted execution environment. */
  datatype Attempt = Attempt(
    status: string, mode: CacheMode, failure: Option<string>, queueWait: real, endToEnd: real,
    actual: map<(Kind, CallField), real>, source: map<Kind, real>, usage: map<(UsageRole, UsageField), real>,
    fingerprint: string, environment: string, stages: map<Stage, Observation>)

  datatype TimingCell = TimedAttempts | QueueWait | EndToEnd
  datatype ModeCell =
    | ModeAttempts | ModeStatus(status: string) | ModeFailure(code: string) | ModeQueueWait | ModeEndToEnd
    | ModeActual(kind: Kind, field: CallField) | ModeSource(kind: Kind) | ModeUsage(role: UsageRole, usage: UsageField)
  datatype OriginCell = Observations | TimedObservations | ObservedDuration | OriginSource(kind: Kind)

  /** One number of the nested audit dictionaries, by its path. */
  datatype Cell =
    | TrustedAttempts | StatusCount(status: string) | ModeCount(mode: CacheMode) | FailureCount(code: string)
    | Actual(kind: Kind, field: CallField) | Source(kind: Kind) | Usage(role: UsageRole, usage: UsageField)
    | OfMode(mode: CacheMode, inMode: ModeCell) | Timing(mode: CacheMode, timing: TimingCell)
    | OfEnvironment(fingerprint: string, timing: TimingCell)
    | StageOrigin(stage: Stage, origin: Origin) | OfOrigin(origin: Origin, inOrigin: OriginCell)

  type Cells = map<Cell, real>
  type Entry = (Cell, real)

  function At<K>(m: map<K, real>, k: K): real { if k in m then m[k] else 0.0 }

  function Bumped(cells: Cells, e: Entry): Cells { cells[e.0 := At(cells, e.0) + e.1] }

  function AddAll(cells: Cells, entries: seq<Entry>): Cells
    decreases |entries|
  {
    if entries == [] then cells else AddAll(Bumped(cells, entries[0]), entries[1..])
  }

  // ----- what one attempt adds -----

  function ObservationOf(a: Attempt, s: Stage): Observation {
    if s in a.stages then a.stages[s] else Observation(NotRun, None, map[])
  }

  function HeadEntries(a: Attempt): seq<Entry> {
    [(TrustedAttempts, 1.0), (StatusCount(a.status), 1.0), (ModeCount(a.mode), 1.0)]
    + (if a.failure.Some? then [(FailureCount(a.failure.value), 1.0)] else [])
    + [(OfMode(a.mode, ModeAttempts), 1.0), (OfMode(a.mode, ModeStatus(a.status)), 1.0)]
    + (if a.failure.Some? then [(OfMode(a.mode, ModeFailure(a.failure.value)), 1.0)] else [])
    + [(OfMode(a.mode, ModeQueueWait), a.queueWait), (OfMode(a.mode, ModeEndToEnd), a.endToEnd)]
  }

  function FieldEntries(a: Attempt, k: Kind, fields: seq<CallField>): seq<Entry> {
    if fields == [] then []
    else
      var x := At(a.actual, (k, fields[0]));
      [(Actual(k, fields[0]), x), (OfMode(a.mode, ModeActual(k, fields[0])), x)] + FieldEntries(a, k, fields[1..])
  }

  function KindEntries(a: Attempt, kinds: seq<Kind>): seq<Entry> {
    if kinds == [] then []
    else
      FieldEntries(a, kinds[0], CALL_FIELDS)
      + [(Source(kinds[0]), At(a.source, kinds[0])), (OfMode(a.mode, ModeSource(kinds[0])), At(a.source, kinds[0]))]
      + KindEntries(a, kinds[1..])
  }

  function UsageEntries(a: Attempt, r: UsageRole, fields: seq<UsageField>): seq<Entry> {
    if fields == [] then []
    else
      var x := At(a.usage, (r, fields[0]));
      [(Usage(r, fields[0]), x), (OfMode(a.mode, ModeUsage(r, fields[0])), x)] + UsageEntries(a, r, fields[1..])
  }

  function RoleEntries(a: Attempt, roles: seq<UsageRole>): seq<Entry> {
    if roles == [] then [] else UsageEntries(a, roles[0], USAGE_FIELDS) + RoleEntries(a, roles[1..])
  }

  function TimingEntries(a: Attempt): seq<Entry> {
    [(Timing(a.mode, TimedAttempts), 1.0), (Timing(a.mode, QueueWait), a.queueWait), (Timing(a.mode, EndToEnd), a.endToEnd)]
  }

  function EnvironmentEntries(a: Attempt): seq<Entry> {
    [(OfEnvironment(a.fingerprint, TimedAttempts), 1.0), (OfEnvironment(a.fingerprint, QueueWait), a.queueWait),
     (OfEnvironment(a.fingerprint, EndToEnd), a.endToEnd)]
  }

  function SourceEntries(o: Observation, kinds: seq<Kind>): seq<Entry> {
    if kinds == [] then []
    else [(OfOrigin(o.origin, OriginSource(kinds[0])), At(o.source, kinds[0]))] + SourceEntries(o, kinds[1..])
  }

  /** An untimed observation still creates the two timing numbers of its origin, at zero. */
  function StageEntry(s: Stage, o: Observation): seq<Entry> {
    [(StageOrigin(s, o.origin), 1.0), (OfOrigin(o.origin, Observations), 1.0),
     (OfOrigin(o.origin, TimedObservations), if o.duration.Some? then 1.0 else 0.0),
     (OfOrigin(o.origin, ObservedDuration), if o.duration.Some? then o.duration.value else 0.0)]
    + SourceEntries(o, KINDS)
  }

  function StageEntries(a: Attempt, stages: seq<Stage>): seq<Entry> {
    if stages == [] then [] else StageEntry(stages[0], ObservationOf(a, stages[0])) + StageEntries(a, stages[1..])
  }

  function BeforeEnvironment(a: Attempt): seq<Entry> {
    HeadEntries(a) + KindEntries(a, KINDS) + RoleEntries(a, ROLES) + TimingEntries(a)
  }

  function AfterEnvironment(a: Attempt): seq<Entry> {
    EnvironmentEntries(a) + StageEntries(a, STAGES)
  }

  function Entries(a: Attempt): seq<Entry> {
    BeforeEnvironment(a) + AfterEnvironment(a)
  }

  // ----- the audit as a value -----

  datatype Ledger = Ledger(cells: Cells, environments: map<string, string>)

  function ZeroCells(): Cells {
    (map k, f | k in KINDS && f in CALL_FIELDS :: Actual(k, f) := 0.0)
    + (map k | k in KINDS :: Source(k) := 0.0)
    + (map r, f | r in ROLES && f in USAGE_FIELDS :: Usage(r, f) := 0.0)
    + map[TrustedAttempts := 0.0]
  }

  const BLANK := Ledger(ZeroCells(), map[])

  predicate Fits(l: Ledger, a: Attempt) {
    a.fingerprint in l.environments ==> l.environments[a.fingerprint] == a.environment
  }

  /** _add_attempt_to_audit; None when one fingerprint identifies two environments. */
  function Added(l: Ledger, a: Attempt): Option<Ledger> {
    if !Fits(l, a) then None
    else Some(Ledger(AddAll(l.cells, Entries(a)), l.environments[a.fingerprint := a.environment]))
  }

  function Folded(l: Ledger, attempts: seq<Attempt>): Option<Ledger>
    decreases |attempts|
  {
    if attempts == [] then Some(l)
    else match Added(l, attempts[0])
      case None => None
      case Some(next) => Folded(next, attempts[1..])
  }

  // ----- sums -----

  function Sum(entries: seq<Entry>, c: Cell): real {
    if entries == [] then 0.0 else (if entries[0].0 == c then entries[0].1 else 0.0) + Sum(entries[1..], c)
  }

  predicate Mentions(entries: seq<Entry>, c: Cell) {
    exists i | 0 <= i < |entries| :: entries[i].0 == c
  }

  /** Adding up entries in any order: a cell exists if it did or an entry names it, and grows by their sum. */
  lemma {:induction false} AddAllIsSum(cells: Cells, entries: seq<Entry>)
    ensures forall c :: c in AddAll(cells, entries) <==> c in cells || Mentions(entries, c)
    ensures forall c :: At(AddAll(cells, entries), c) == At(cells, c) + Sum(entries, c)
    decreases |entries|
  {
    if entries != [] {
      AddAllIsSum(Bumped(cells, entries[0]), entries[1..]);
      forall c ensures Mentions(entries, c) <==> entries[0].0 == c || Mentions(entries[1..], c) {
        if Mentions(entries[1..], c) {
          var i :| 0 <= i < |entries[1..]| && entries[1..][i].0 == c;
          assert entries[i + 1].0 == c;
        }
        if Mentions(entries, c) && entries[0].0 != c {
          var i :| 0 <= i < |entries| && entries[i].0 == c;
          assert entries[1..][i - 1].0 == c;
        }
      }
    }
  }

  lemma {:induction false} AddAllAppend(cells: Cells, a: seq<Entry>, b: seq<Entry>)
    ensures AddAll(cells, a + b) == AddAll(AddAll(cells, a), b)
    decreases |a|
  {
    if a == [] {
      assert a + b == b;
    } else {
      assert (a + b)[1..] == a[1..] + b;
      AddAllAppend(Bumped(cells, a[0]), a[1..], b);
    }
  }

  lemma AddAllCommutes(cells: Cells, a: seq<Entry>, b: seq<Entry>)
    ensures AddAll(AddAll(cells, a), b) == AddAll(AddAll(cells, b), a)
  {
    var ab, ba := AddAll(AddAll(cells, a), b), AddAll(AddAll(cells, b), a);
    AddAllIsSum(cells, a);
    AddAllIsSum(AddAll(cells, a), b);
    AddAllIsSum(cells, b);
    AddAllIsSum(AddAll(cells, b), a);
    hide AddAll, Sum, Mentions;
    forall c | c in ab ensures c in ba && ab[c] == ba[c] {
      assert At(ab, c) == At(ba, c);
    }
    assert forall c :: c in ab <==> c in ba;
    assert ab.Keys == ba.Keys;
  }

  // ----- order independence -----

  /** Two attempts can be folded in either order, with the same ledger or the same failure. */
  lemma AddedCommutes(l: Ledger, a: Attempt, b: Attempt)
    ensures Folded(l, [a, b]) == Folded(l, [b, a])
  {
    AddAllCommutes(l.cells, Entries(a), Entries(b));
    hide AddAll, Entries;
    FoldedTwo(l, a, b);
    FoldedTwo(l, b, a);
    var ea, eb := l.environments[a.fingerprint := a.environment], l.environments[b.fingerprint := b.environment];
    if a.fingerprint == b.fingerprint {
    } else {
      assert ea[b.fingerprint := b.environment] == eb[a.fingerprint := a.environment];
    }
  }

  lemma FoldedTwo(l: Ledger, a: Attempt, b: Attempt)
    ensures Folded(l, [a, b]) == match Added(l, a) case None => None case Some(m) => Added(m, b)
  {
    hide Added;
    assert [a, b][1..] == [b] && [b][1..] == [];
    match Added(l, a)
    case None =>
    case Some(m) => assert Folded(m, [b]) == Added(m, b);
  }

  lemma {:induction false} FoldedAppend(l: Ledger, s: seq<Attempt>, t: seq<Attempt>)
    ensures Folded(l, s + t) == match Folded(l, s) case None => None case Some(m) => Folded(m, t)
    decreases |s|
  {
    hide Added;
    if s == [] {
      assert s + t == t;
    } else {
      assert (s + t)[1..] == s[1..] + t;
      if Added(l, s[0]).Some? {
        FoldedAppend(Added(l, s[0]).value, s[1..], t);
      }
    }
  }

  lemma FoldedCons(l: Ledger, a: Attempt, rest: seq<Attempt>)
    ensures Folded(l, [a] + rest) == match Added(l, a) case None => None case Some(m) => Folded(m, rest)
  {
    hide Added;
    assert ([a] + rest)[1..] == rest;
  }

  lemma SwapFront(l: Ledger, a: Attempt, b: Attempt, rest: seq<Attempt>)
    ensures Folded(l, [a] + ([b] + rest)) == Folded(l, [b] + ([a] + rest))
  {
    AddedCommutes(l, a, b);
    FoldedAppend(l, [a, b], rest);
    FoldedAppend(l, [b, a], rest);
    hide Folded;
    assert [a] + ([b] + rest) == [a, b] + rest && [b] + ([a] + rest) == [b, a] + rest;
  }

  /** An attempt may be moved to the front. */
  lemma {:induction false} MoveToFront(l: Ledger, s: seq<Attempt>, a: Attempt, t: seq<Attempt>)
    ensures Folded(l, s + ([a] + t)) == Folded(l, [a] + (s + t))
    decreases |s|
  {
    hide Added, Folded;
    if s == [] {
      assert s + ([a] + t) == [a] + t && s + t == t;
    } else {
      var b, rest := s[0], s[1..];
      assert s + ([a] + t) == [b] + (rest + ([a] + t));
      assert s + t == [b] + (rest + t);
      FoldedCons(l, b, rest + ([a] + t));
      FoldedCons(l, b, [a] + (rest + t));
      if Added(l, b).Some? {
        MoveToFront(Added(l, b).value, rest, a, t);
      }
      SwapFront(l, a, b, rest + t);
    }
  }

  lemma {:induction false} SplitAtMember<T>(s: seq<T>, t: seq<T>) returns (k: nat)
    requires s != [] && multiset(s) == multiset(t)
    ensures k < |t| && t == t[..k] + ([s[0]] + t[k + 1..])
    ensures multiset(s[1..]) == multiset(t[..k] + t[k + 1..])
  {
    assert s[0] in multiset(s);
    k :| 0 <= k < |t| && t[k] == s[0];
    assert s == [s[0]] + s[1..];
    assert t == t[..k] + ([s[0]] + t[k + 1..]);
    assert multiset(s) == multiset{s[0]} + multiset(s[1..]);
    assert multiset(t) == multiset(t[..k]) + multiset([s[0]] + t[k + 1..]);
    assert multiset([s[0]] + t[k + 1..]) == multiset{s[0]} + multiset(t[k + 1..]);
    assert multiset(t[..k] + t[k + 1..]) == multiset(t[..k]) + multiset(t[k + 1..]);
    assert multiset(s[1..]) == multiset(s) - multiset{s[0]};
    assert multiset(t[..k] + t[k + 1..]) == multiset(t) - multiset{s[0]};
  }

  lemma SameLength<T>(s: seq<T>, t: seq<T>)
    requires multiset(s) == multiset(t)
    ensures |s| == |t|
  {
    assert |multiset(s)| == |s| && |multiset(t)| == |t|;
  }

  /** Main theorem: folding the same attempts in any other order gives the same audit, or fails as well. */
  lemma {:induction false} AuditIgnoresOrder(l: Ledger, s: seq<Attempt>, t: seq<Attempt>)
    requires multiset(s) == multiset(t)
    ensures Folded(l, s) == Folded(l, t)
    decreases |s|
  {
    hide Added, Folded;
    SameLength(s, t);
    if s != [] {
      var k := SplitAtMember(s, t);
      var a, rest, before, after := s[0], s[1..], t[..k], t[k + 1..];
      assert s == [a] + rest;
      MoveToFront(l, before, a, after);
      FoldedCons(l, a, rest);
      FoldedCons(l, a, before + after);
      if Added(l, a).Some? {
        AuditIgnoresOrder(Added(l, a).value, rest, before + after);
      }
    }
  }

  /** The fold fails exactly when one fingerprint names two different environments. */
  predicate OneEnvironmentEach(known: map<string, string>, attempts: seq<Attempt>) {
    && (forall i | 0 <= i < |attempts| && attempts[i].fingerprint in known ::
          known[attempts[i].fingerprint] == attempts[i].environment)
    && (forall i, j | 0 <= i < j < |attempts| && attempts[i].fingerprint == attempts[j].fingerprint ::
          attempts[i].environment == attempts[j].environment)
  }

  lemma {:induction false} FoldFailsOnConflict(l: Ledger, attempts: seq<Attempt>)
    ensures Folded(l, attempts).Some? <==> OneEnvironmentEach(l.environments, attempts)
    ensures Folded(l, attempts).Some? ==>
              (forall i | 0 <= i < |attempts| ::
                 attempts[i].fingerprint in Folded(l, attempts).value.environments &&
                 Folded(l, attempts).value.environments[attempts[i].fingerprint] == attempts[i].environment) &&
              (forall f | f in l.environments ::
                 f in Folded(l, attempts).value.environments && Folded(l, attempts).value.environments[f] == l.environments[f])
    decreases |attempts|
  {
    hide AddAll, Entries;
    if attempts != [] {
      var a, rest := attempts[0], attempts[1..];
      if Fits(l, a) {
        var next := Added(l, a).value;
        FoldFailsOnConflict(next, rest);
        if OneEnvironmentEach(next.environments, rest) {
          forall i, j | 0 <= i < j < |attempts| && attempts[i].fingerprint == attempts[j].fingerprint
            ensures attempts[i].environment == attempts[j].environment
          {
            assert attempts[j] == rest[j - 1];
            if i > 0 { assert attempts[i] == rest[i - 1]; }
          }
          forall i | 0 <= i < |attempts| && attempts[i].fingerprint in l.environments
            ensures l.environments[attempts[i].fingerprint] == attempts[i].environment
          {
            if i > 0 { assert attempts[i] == rest[i - 1]; }
          }
        }
        if OneEnvironmentEach(l.environments, attempts) {
          forall i | 0 <= i < |rest| && rest[i].fingerprint in next.environments
            ensures next.environments[rest[i].fingerprint] == rest[i].environment
          {
            assert rest[i] == attempts[i + 1];
          }
        }
      }
    }
  }

  // ----- conservation -----

  function OverModes(cells: Cells, c: ModeCell): real {
    At(cells, OfMode(Fresh, c)) + At(cells, OfMode(Cache, c)) + At(cells, OfMode(Replay, c))
  }

  function OverOrigins(cells: Cells, s: Stage): real {
    At(cells, StageOrigin(s, FromFresh)) + At(cells, StageOrigin(s, FromCache))
    + At(cells, StageOrigin(s, FromReplay)) + At(cells, StageOrigin(s, NotRun))
  }

  /** The total a per-mode number is part of. */
  function TotalOf(part: ModeCell): Option<Cell> {
    match part
    case ModeActual(k, f) => Some(Actual(k, f))
    case ModeSource(k) => Some(Source(k))
    case ModeUsage(r, f) => Some(Usage(r, f))
    case ModeFailure(code) => Some(FailureCount(code))
    case ModeStatus(status) => Some(StatusCount(status))
    case ModeAttempts => Some(TrustedAttempts)
    case ModeQueueWait => None
    case ModeEndToEnd => None
  }

  /** Every total of calls, usage, statuses and failures is the sum over the cache modes, and in every
      stage the origins add up to the trusted attempts. */
  ghost predicate Conserved(cells: Cells) {
    && (forall part | TotalOf(part).Some? :: At(cells, TotalOf(part).value) == OverModes(cells, part))
    && (forall s :: At(cells, TrustedAttempts) == OverOrigins(cells, s))
  }

  /** How far entries raise a total above its parts. */
  function Lead(e: Entry, part: ModeCell): real
    requires TotalOf(part).Some?
  {
    (if e.0 == TotalOf(part).value then e.1 else 0.0) - (if e.0.OfMode? && e.0.inMode == part then e.1 else 0.0)
  }

  function Leads(entries: seq<Entry>, part: ModeCell): real
    requires TotalOf(part).Some?
  {
    if entries == [] then 0.0 else Lead(entries[0], part) + Leads(entries[1..], part)
  }

  /** How far entries raise the trusted attempts above the origins of one stage. */
  function StageLead(e: Entry, s: Stage): real {
    (if e.0 == TrustedAttempts then e.1 else 0.0) - (if e.0.StageOrigin? && e.0.stage == s then e.1 else 0.0)
  }

  function StageLeads(entries: seq<Entry>, s: Stage): real {
    if entries == [] then 0.0 else StageLead(entries[0], s) + StageLeads(entries[1..], s)
  }

  lemma BumpLeads(cells: Cells, e: Entry, part: ModeCell)
    requires TotalOf(part).Some?
    ensures var after := Bumped(cells, e);
            At(after, TotalOf(part).value) - OverModes(after, part)
            == At(cells, TotalOf(part).value) - OverModes(cells, part) + Lead(e, part)
  {
    assert !TotalOf(part).value.OfMode?;
    if e.0.OfMode? {
      match e.0.mode
      case Fresh =>
      case Cache =>
      case Replay =>
    }
  }

  lemma BumpStageLeads(cells: Cells, e: Entry, s: Stage)
    ensures var after := Bumped(cells, e);
            At(after, TrustedAttempts) - OverOrigins(after, s)
            == At(cells, TrustedAttempts) - OverOrigins(cells, s) + StageLead(e, s)
  {
    if e.0.StageOrigin? {
      match e.0.origin
      case FromFresh =>
      case FromCache =>
      case FromReplay =>
      case NotRun =>
    }
  }

  lemma {:induction false} LeadsAreDifferences(cells: Cells, entries: seq<Entry>, part: ModeCell)
    requires TotalOf(part).Some?
    ensures var after := AddAll(cells, entries);
            At(after, TotalOf(part).value) - OverModes(after, part)
            == At(cells, TotalOf(part).value) - OverModes(cells, part) + Leads(entries, part)
    decreases |entries|
  {
    if entries != [] {
      BumpLeads(cells, entries[0], part);
      LeadsAreDifferences(Bumped(cells, entries[0]), entries[1..], part);
      hide Bumped, Lead, OverModes, At;
    }
  }

  lemma {:induction false} StageLeadsAreDifferences(cells: Cells, entries: seq<Entry>, s: Stage)
    ensures var after := AddAll(cells, entries);
            At(after, TrustedAttempts) - OverOrigins(after, s)
            == At(cells, TrustedAttempts) - OverOrigins(cells, s) + StageLeads(entries, s)
    decreases |entries|
  {
    if entries != [] {
      BumpStageLeads(cells, entries[0], s);
      StageLeadsAreDifferences(Bumped(cells, entries[0]), entries[1..], s);
      hide Bumped, StageLead, OverOrigins, At;
    }
  }

  lemma {:induction false} LeadsAppend(a: seq<Entry>, b: seq<Entry>, part: ModeCell)
    requires TotalOf(part).Some?
    ensures Leads(a + b, part) == Leads(a, part) + Leads(b, part)
  {
    if a == [] {
      assert a + b == b;
    } else {
      assert (a + b)[1..] == a[1..] + b;
      LeadsAppend(a[1..], b, part);
    }
  }

  lemma {:induction false} StageLeadsAppend(a: seq<Entry>, b: seq<Entry>, s: Stage)
    ensures StageLeads(a + b, s) == StageLeads(a, s) + StageLeads(b, s)
  {
    if a == [] {
      assert a + b == b;
    } else {
      assert (a + b)[1..] == a[1..] + b;
      StageLeadsAppend(a[1..], b, s);
    }
  }

  lemma LeadsOfPair(d: Entry, e: Entry, part: ModeCell)
    requires TotalOf(part).Some?
    ensures Leads([d, e], part) == Lead(d, part) + Lead(e, part)
  {
    assert [d, e][1..] == [e] && [e][1..] == [];
    assert Leads([e], part) == Lead(e, part);
  }

  lemma {:induction false} FieldsLead(a: Attempt, k: Kind, fields: seq<CallField>, part: ModeCell)
    requires TotalOf(part).Some?
    ensures Leads(FieldEntries(a, k, fields), part) == 0.0
  {
    if fields != [] {
      var x := At(a.actual, (k, fields[0]));
      var d, e: Entry := (Actual(k, fields[0]), x), (OfMode(a.mode, ModeActual(k, fields[0])), x);
      LeadsOfPair(d, e, part);
      FieldsLead(a, k, fields[1..], part);
      LeadsAppend([d, e], FieldEntries(a, k, fields[1..]), part);
      hide Leads;
    }
  }

  lemma {:induction false} KindsLead(a: Attempt, kinds: seq<Kind>, part: ModeCell)
    requires TotalOf(part).Some?
    ensures Leads(KindEntries(a, kinds), part) == 0.0
  {
    if kinds != [] {
      var k, x := kinds[0], At(a.source, kinds[0]);
      var d, e: Entry := (Source(k), x), (OfMode(a.mode, ModeSource(k)), x);
      FieldsLead(a, k, CALL_FIELDS, part);
      LeadsOfPair(d, e, part);
      KindsLead(a, kinds[1..], part);
      LeadsAppend(FieldEntries(a, k, CALL_FIELDS), [d, e], part);
      LeadsAppend(FieldEntries(a, k, CALL_FIELDS) + [d, e], KindEntries(a, kinds[1..]), part);
      hide Leads, FieldEntries;
    }
  }

  lemma {:induction false} UsageLead(a: Attempt, r: UsageRole, fields: seq<UsageField>, part: ModeCell)
    requires TotalOf(part).Some?
    ensures Leads(UsageEntries(a, r, fields), part) == 0.0
  {
    if fields != [] {
      var x := At(a.usage, (r, fields[0]));
      var d, e: Entry := (Usage(r, fields[0]), x), (OfMode(a.mode, ModeUsage(r, fields[0])), x);
      LeadsOfPair(d, e, part);
      UsageLead(a, r, fields[1..], part);
      LeadsAppend([d, e], UsageEntries(a, r, fields[1..]), part);
      hide Leads;
    }
  }

  lemma {:induction false} RolesLead(a: Attempt, roles: seq<UsageRole>, part: ModeCell)
    requires TotalOf(part).Some?
    ensures Leads(RoleEntries(a, roles), part) == 0.0
  {
    if roles != [] {
      UsageLead(a, roles[0], USAGE_FIELDS, part);
      RolesLead(a, roles[1..], part);
      LeadsAppend(UsageEntries(a, roles[0], USAGE_FIELDS), RoleEntries(a, roles[1..]), part);
    }
  }

  /** A total and its part raised by the same amount cancel, wherever they stand. */
  lemma LeadsCons(e: Entry, rest: seq<Entry>, part: ModeCell)
    requires TotalOf(part).Some?
    ensures Leads([e] + rest, part) == Lead(e, part) + Leads(rest, part)
  {
    assert ([e] + rest)[1..] == rest;
  }

  lemma HeadTailLead(a: Attempt, part: ModeCell)
    requires TotalOf(part).Some?
    ensures var failed := a.failure.Some?;
            var code := if failed then a.failure.value else "";
            Leads(HeadEntries(a)[3..], part) ==
            (if failed then Lead((FailureCount(code), 1.0), part) + Lead((OfMode(a.mode, ModeFailure(code)), 1.0), part) else 0.0)
            + Lead((OfMode(a.mode, ModeAttempts), 1.0), part) + Lead((OfMode(a.mode, ModeStatus(a.status)), 1.0), part)
  {
    var attempts, modeStatus: Entry := (OfMode(a.mode, ModeAttempts), 1.0), (OfMode(a.mode, ModeStatus(a.status)), 1.0);
    var wait, whole: Entry := (OfMode(a.mode, ModeQueueWait), a.queueWait), (OfMode(a.mode, ModeEndToEnd), a.endToEnd);
    var last: seq<Entry> := [wait, whole];
    assert Lead(wait, part) == 0.0 && Lead(whole, part) == 0.0;
    LeadsOfPair(wait, whole, part);
    hide Leads, Lead;
    if a.failure.Some? {
      var f, m: Entry := (FailureCount(a.failure.value), 1.0), (OfMode(a.mode, ModeFailure(a.failure.value)), 1.0);
      assert HeadEntries(a)[3..] == [f] + ([attempts] + ([modeStatus] + ([m] + last)));
      LeadsCons(f, [attempts] + ([modeStatus] + ([m] + last)), part);
      LeadsCons(attempts, [modeStatus] + ([m] + last), part);
      LeadsCons(modeStatus, [m] + last, part);
      LeadsCons(m, last, part);
    } else {
      assert HeadEntries(a)[3..] == [attempts] + ([modeStatus] + last);
      LeadsCons(attempts, [modeStatus] + last, part);
      LeadsCons(modeStatus, last, part);
    }
  }

  lemma HeadLead(a: Attempt, part: ModeCell)
    requires TotalOf(part).Some?
    ensures Leads(HeadEntries(a), part) == 0.0
  {
    var trusted, status, mode: Entry := (TrustedAttempts, 1.0), (StatusCount(a.status), 1.0), (ModeCount(a.mode), 1.0);
    var rest := HeadEntries(a)[3..];
    assert HeadEntries(a) == [trusted] + ([status] + ([mode] + rest));
    HeadTailLead(a, part);
    hide Leads, HeadEntries;
    LeadsCons(trusted, [status] + ([mode] + rest), part);
    LeadsCons(status, [mode] + rest, part);
    LeadsCons(mode, rest, part);
  }

  /** Entries of cells that no total is compared with. */
  predicate Uncompared(c: Cell) {
    match c
    case Timing(_, _) => true
    case OfEnvironment(_, _) => true
    case StageOrigin(_, _) => true
    case OfOrigin(_, _) => true
    case _ => false
  }

  lemma {:induction false} UncomparedLead(e: seq<Entry>, part: ModeCell)
    requires TotalOf(part).Some?
    requires forall i | 0 <= i < |e| :: Uncompared(e[i].0)
    ensures Leads(e, part) == 0.0
  {
    if e != [] {
      UncomparedLead(e[1..], part);
    }
  }

  lemma {:induction false} SourcesUncompared(o: Observation, kinds: seq<Kind>)
    ensures forall i | 0 <= i < |SourceEntries(o, kinds)| :: SourceEntries(o, kinds)[i].0.OfOrigin?
  {
    if kinds != [] {
      SourcesUncompared(o, kinds[1..]);
    }
  }

  lemma {:induction false} StagesUncompared(a: Attempt, stages: seq<Stage>)
    ensures forall i | 0 <= i < |StageEntries(a, stages)| :: Uncompared(StageEntries(a, stages)[i].0)
  {
    if stages != [] {
      StagesUncompared(a, stages[1..]);
      SourcesUncompared(ObservationOf(a, stages[0]), KINDS);
      hide SourceEntries;
    }
  }

  lemma EntriesLead(a: Attempt, part: ModeCell)
    requires TotalOf(part).Some?
    ensures Leads(Entries(a), part) == 0.0
  {
    HeadLead(a, part);
    KindsLead(a, KINDS, part);
    RolesLead(a, ROLES, part);
    UncomparedLead(TimingEntries(a), part);
    UncomparedLead(EnvironmentEntries(a), part);
    StagesUncompared(a, STAGES);
    UncomparedLead(StageEntries(a, STAGES), part);
    hide Leads, HeadEntries, KindEntries, RoleEntries, TimingEntries, EnvironmentEntries, StageEntries;
    LeadsAppend(HeadEntries(a), KindEntries(a, KINDS), part);
    LeadsAppend(HeadEntries(a) + KindEntries(a, KINDS), RoleEntries(a, ROLES), part);
    LeadsAppend(HeadEntries(a) + KindEntries(a, KINDS) + RoleEntries(a, ROLES), TimingEntries(a), part);
    LeadsAppend(EnvironmentEntries(a), StageEntries(a, STAGES), part);
    LeadsAppend(BeforeEnvironment(a), AfterEnvironment(a), part);
  }

  // ----- the stage origins -----

  lemma {:induction false} StageLeadOfOthers(e: seq<Entry>, s: Stage)
    requires forall i | 0 <= i < |e| :: e[i].0 != TrustedAttempts && !(e[i].0.StageOrigin? && e[i].0.stage == s)
    ensures StageLeads(e, s) == 0.0
  {
    if e != [] {
      StageLeadOfOthers(e[1..], s);
    }
  }

  function Occurrences(stages: seq<Stage>, s: Stage): nat {
    if stages == [] then 0 else (if stages[0] == s then 1 else 0) + Occurrences(stages[1..], s)
  }

  lemma {:induction false} StagesLead(a: Attempt, stages: seq<Stage>, s: Stage)
    ensures StageLeads(StageEntries(a, stages), s) == -(Occurrences(stages, s) as real)
  {
    if stages != [] {
      var o := ObservationOf(a, stages[0]);
      var first: seq<Entry> := [(StageOrigin(stages[0], o.origin), 1.0)];
      var entry := StageEntry(stages[0], o);
      assert entry == first + entry[1..];
      SourcesUncompared(o, KINDS);
      hide SourceEntries;
      StageLeadOfOthers(entry[1..], s);
      StagesLead(a, stages[1..], s);
      assert first[1..] == [];
      assert StageLeads(first, s) == StageLead(first[0], s);
      StageLeadsAppend(first, entry[1..], s);
      StageLeadsAppend(entry, StageEntries(a, stages[1..]), s);
    }
  }

  /** Cells that no stage is compared with. */
  predicate NotStaged(e: seq<Entry>) {
    forall i | 0 <= i < |e| :: e[i].0 != TrustedAttempts && !e[i].0.StageOrigin?
  }

  lemma {:induction false} FieldsNotStaged(a: Attempt, k: Kind, fields: seq<CallField>)
    ensures NotStaged(FieldEntries(a, k, fields))
  {
    if fields != [] {
      FieldsNotStaged(a, k, fields[1..]);
    }
  }

  lemma {:induction false} KindsNotStaged(a: Attempt, kinds: seq<Kind>)
    ensures NotStaged(KindEntries(a, kinds))
  {
    if kinds != [] {
      FieldsNotStaged(a, kinds[0], CALL_FIELDS);
      KindsNotStaged(a, kinds[1..]);
      hide FieldEntries;
    }
  }

  lemma {:induction false} UsageNotStaged(a: Attempt, r: UsageRole, fields: seq<UsageField>)
    ensures NotStaged(UsageEntries(a, r, fields))
  {
    if fields != [] {
      UsageNotStaged(a, r, fields[1..]);
    }
  }

  lemma {:induction false} RolesNotStaged(a: Attempt, roles: seq<UsageRole>)
    ensures NotStaged(RoleEntries(a, roles))
  {
    if roles != [] {
      UsageNotStaged(a, roles[0], USAGE_FIELDS);
      RolesNotStaged(a, roles[1..]);
      hide UsageEntries;
    }
  }

  lemma EveryStageOnce(s: Stage)
    ensures Occurrences(STAGES, s) == 1
  {
    assert STAGES == [QueryAnalysis] + ([QueryEmbedding] + ([Retrieval] + ([Reranking] + ([Answering] + ([Verifying] + ([Judging] + []))))));
    OccurrencesCons(Judging, [], s);
    OccurrencesCons(Verifying, [Judging] + [], s);
    OccurrencesCons(Answering, [Verifying] + ([Judging] + []), s);
    OccurrencesCons(Reranking, [Answering] + ([Verifying] + ([Judging] + [])), s);
    OccurrencesCons(Retrieval, [Reranking] + ([Answering] + ([Verifying] + ([Judging] + []))), s);
    OccurrencesCons(QueryEmbedding, [Retrieval] + ([Reranking] + ([Answering] + ([Verifying] + ([Judging] + [])))), s);
    OccurrencesCons(QueryAnalysis, [QueryEmbedding] + ([Retrieval] + ([Reranking] + ([Answering] + ([Verifying] + ([Judging] + []))))), s);
  }

  lemma OccurrencesCons(t: Stage, rest: seq<Stage>, s: Stage)
    ensures Occurrences([t] + rest, s) == (if t == s then 1 else 0) + Occurrences(rest, s)
  {
    assert ([t] + rest)[1..] == rest;
  }

  lemma HeadStageLead(a: Attempt, s: Stage)
    ensures StageLeads(HeadEntries(a), s) == 1.0
  {
    var h := HeadEntries(a);
    StageLeadOfOthers(h[1..], s);
  }

  lemma EntriesStageLead(a: Attempt, s: Stage)
    ensures StageLeads(Entries(a), s) == 0.0
  {
    HeadStageLead(a, s);
    KindsNotStaged(a, KINDS);
    RolesNotStaged(a, ROLES);
    StageLeadOfOthers(KindEntries(a, KINDS), s);
    StageLeadOfOthers(RoleEntries(a, ROLES), s);
    StageLeadOfOthers(TimingEntries(a), s);
    StageLeadOfOthers(EnvironmentEntries(a), s);
    StagesLead(a, STAGES, s);
    EveryStageOnce(s);
    hide StageLeads, HeadEntries, KindEntries, RoleEntries, TimingEntries, EnvironmentEntries, StageEntries, Occurrences;
    StageLeadsAppend(HeadEntries(a), KindEntries(a, KINDS), s);
    StageLeadsAppend(HeadEntries(a) + KindEntries(a, KINDS), RoleEntries(a, ROLES), s);
    StageLeadsAppend(HeadEntries(a) + KindEntries(a, KINDS) + RoleEntries(a, ROLES), TimingEntries(a), s);
    StageLeadsAppend(EnvironmentEntries(a), StageEntries(a, STAGES), s);
    StageLeadsAppend(BeforeEnvironment(a), AfterEnvironment(a), s);
  }

  /** Every audit folded from nothing conserves its totals, before any rounding, and counts its attempts. */
  lemma {:induction false} FoldConserves(l: Ledger, attempts: seq<Attempt>)
    requires Conserved(l.cells) && Folded(l, attempts).Some?
    ensures Conserved(Folded(l, attempts).value.cells)
    decreases |attempts|
  {
    hide Entries, AddAll;
    if attempts != [] {
      var next := Added(l, attempts[0]).value;
      forall part | TotalOf(part).Some? ensures At(next.cells, TotalOf(part).value) == OverModes(next.cells, part) {
        LeadsAreDifferences(l.cells, Entries(attempts[0]), part);
        EntriesLead(attempts[0], part);
      }
      forall s ensures At(next.cells, TrustedAttempts) == OverOrigins(next.cells, s) {
        StageLeadsAreDifferences(l.cells, Entries(attempts[0]), s);
        EntriesStageLead(attempts[0], s);
      }
      FoldConserves(next, attempts[1..]);
    }
  }

  lemma {:induction false} SumOfOthers(e: seq<Entry>, c: Cell)
    requires forall i | 0 <= i < |e| :: e[i].0 != c
    ensures Sum(e, c) == 0.0
  {
    if e != [] {
      SumOfOthers(e[1..], c);
    }
  }

  lemma {:induction false} SumAppend(a: seq<Entry>, b: seq<Entry>, c: Cell)
    ensures Sum(a + b, c) == Sum(a, c) + Sum(b, c)
  {
    if a == [] {
      assert a + b == b;
    } else {
      assert (a + b)[1..] == a[1..] + b;
      SumAppend(a[1..], b, c);
    }
  }

  /** An entry list that starts with the attempt counter and never mentions it again. */
  predicate CountsFirst(e: seq<Entry>) {
    e != [] && e[0] == (TrustedAttempts, 1.0) && forall i | 0 < i < |e| :: e[i].0 != TrustedAttempts
  }

  lemma SumOfCountsFirst(e: seq<Entry>)
    requires CountsFirst(e)
    ensures Sum(e, TrustedAttempts) == 1.0
  {
    SumOfOthers(e[1..], TrustedAttempts);
  }

  lemma HeadCountsFirst(a: Attempt)
    ensures CountsFirst(HeadEntries(a))
  {
  }

  lemma TimingsDoNotCount(a: Attempt)
    ensures Sum(TimingEntries(a), TrustedAttempts) == 0.0 && Sum(EnvironmentEntries(a), TrustedAttempts) == 0.0
  {
    SumOfOthers(TimingEntries(a), TrustedAttempts);
    SumOfOthers(EnvironmentEntries(a), TrustedAttempts);
    hide Sum;
  }

  lemma PartsDoNotCount(a: Attempt)
    ensures Sum(KindEntries(a, KINDS), TrustedAttempts) == 0.0 && Sum(RoleEntries(a, ROLES), TrustedAttempts) == 0.0
    ensures Sum(StageEntries(a, STAGES), TrustedAttempts) == 0.0
  {
    hide Sum, KindEntries, RoleEntries, StageEntries;
    KindsNotStaged(a, KINDS);
    RolesNotStaged(a, ROLES);
    StagesUncompared(a, STAGES);
    SumOfOthers(KindEntries(a, KINDS), TrustedAttempts);
    SumOfOthers(RoleEntries(a, ROLES), TrustedAttempts);
    SumOfOthers(StageEntries(a, STAGES), TrustedAttempts);
  }

  lemma EachAttemptCountsOnce(a: Attempt)
    ensures Sum(Entries(a), TrustedAttempts) == 1.0
  {
    hide Sum, HeadEntries, KindEntries, RoleEntries, TimingEntries, EnvironmentEntries, StageEntries, CountsFirst;
    var c, h := TrustedAttempts, HeadEntries(a);
    HeadCountsFirst(a);
    SumOfCountsFirst(h);
    PartsDoNotCount(a);
    TimingsDoNotCount(a);
    SumAppend(h, KindEntries(a, KINDS), c);
    SumAppend(h + KindEntries(a, KINDS), RoleEntries(a, ROLES), c);
    SumAppend(h + KindEntries(a, KINDS) + RoleEntries(a, ROLES), TimingEntries(a), c);
    SumAppend(EnvironmentEntries(a), StageEntries(a, STAGES), c);
    SumAppend(BeforeEnvironment(a), AfterEnvironment(a), c);
  }

  lemma {:induction false} FoldCounts(l: Ledger, attempts: seq<Attempt>)
    requires Folded(l, attempts).Some?
    ensures At(Folded(l, attempts).value.cells, TrustedAttempts) == At(l.cells, TrustedAttempts) + |attempts| as real
    decreases |attempts|
  {
    hide Entries, AddAll;
    if attempts != [] {
      var next := Added(l, attempts[0]).value;
      EachAttemptCountsOnce(attempts[0]);
      AddAllIsSum(l.cells, Entries(attempts[0]));
      FoldCounts(next, attempts[1..]);
    }
  }

  lemma BlankConserved()
    ensures Conserved(BLANK.cells)
  {
    forall c ensures At(BLANK.cells, c) == 0.0 {
      BlankIsZero(c);
    }
    hide At, TotalOf, ZeroCells;
  }

  lemma BlankIsZero(c: Cell)
    ensures At(BLANK.cells, c) == 0.0
  {
  }

  // ----- the in-place audit -----

  class AttemptAudit {
    var cells: Cells
    var environments: map<string, string>

    function Value(): Ledger
      reads this
    {
      Ledger(cells, environments)
    }

    constructor ()
      ensures Value() == BLANK
    {
      cells := ZeroCells();
      environments := map[];
    }

    method Bump(c: Cell, x: real)
      modifies this`cells
      ensures cells == Bumped(old(cells), (c, x))
    {
      cells := cells[c := (if c in cells then cells[c] else 0.0) + x];
    }

    method BumpAll(entries: seq<Entry>)
      modifies this`cells
      ensures cells == AddAll(old(cells), entries)
    {
      var i := 0;
      while i < |entries|
        invariant i <= |entries|
        invariant AddAll(cells, entries[i..]) == AddAll(old(cells), entries)
      {
        assert entries[i..][1..] == entries[i + 1..];
        Bump(entries[i].0, entries[i].1);
        i := i + 1;
      }
      assert entries[i..] == [];
    }

    method AddKinds(a: Attempt)
      modifies this`cells
      ensures cells == AddAll(old(cells), KindEntries(a, KINDS))
    {
      hide AddAll;
      var i := 0;
      assert KINDS[0..] == KINDS;
      while i < |KINDS|
        invariant i <= |KINDS|
        invariant AddAll(cells, KindEntries(a, KINDS[i..])) == AddAll(old(cells), KindEntries(a, KINDS))
      {
        var k := KINDS[i];
        ghost var before := cells;
        ghost var pair: seq<Entry> := [(Source(k), At(a.source, k)), (OfMode(a.mode, ModeSource(k)), At(a.source, k))];
        var j := 0;
        assert CALL_FIELDS[0..] == CALL_FIELDS;
        while j < |CALL_FIELDS|
          invariant j <= |CALL_FIELDS|
          invariant AddAll(cells, FieldEntries(a, k, CALL_FIELDS[j..])) == AddAll(before, FieldEntries(a, k, CALL_FIELDS))
        {
          var f := CALL_FIELDS[j];
          assert CALL_FIELDS[j..][1..] == CALL_FIELDS[j + 1..];
          ghost var two: seq<Entry> := [(Actual(k, f), At(a.actual, (k, f))), (OfMode(a.mode, ModeActual(k, f)), At(a.actual, (k, f)))];
          AddAllAppend(cells, two, FieldEntries(a, k, CALL_FIELDS[j + 1..]));
          BumpAll([(Actual(k, f), At(a.actual, (k, f))), (OfMode(a.mode, ModeActual(k, f)), At(a.actual, (k, f)))]);
          j := j + 1;
        }
        assert CALL_FIELDS[j..] == [];
        NothingAdded(cells);
        assert KINDS[i..][1..] == KINDS[i + 1..];
        AddAllAppend(before, FieldEntries(a, k, CALL_FIELDS) + pair, KindEntries(a, KINDS[i + 1..]));
        AddAllAppend(before, FieldEntries(a, k, CALL_FIELDS), pair);
        BumpAll([(Source(k), At(a.source, k)), (OfMode(a.mode, ModeSource(k)), At(a.source, k))]);
        i := i + 1;
      }
      assert KINDS[i..] == [];
      NothingAdded(cells);
    }

    method AddRoles(a: Attempt)
      modifies this`cells
      ensures cells == AddAll(old(cells), RoleEntries(a, ROLES))
    {
      hide AddAll;
      var i := 0;
      assert ROLES[0..] == ROLES;
      while i < |ROLES|
        invariant i <= |ROLES|
        invariant AddAll(cells, RoleEntries(a, ROLES[i..])) == AddAll(old(cells), RoleEntries(a, ROLES))
      {
        var r := ROLES[i];
        ghost var before := cells;
        var j := 0;
        assert USAGE_FIELDS[0..] == USAGE_FIELDS;
        while j < |USAGE_FIELDS|
          invariant j <= |USAGE_FIELDS|
          invariant AddAll(cells, UsageEntries(a, r, USAGE_FIELDS[j..])) == AddAll(before, UsageEntries(a, r, USAGE_FIELDS))
        {
          var f := USAGE_FIELDS[j];
          assert USAGE_FIELDS[j..][1..] == USAGE_FIELDS[j + 1..];
          ghost var two: seq<Entry> := [(Usage(r, f), At(a.usage, (r, f))), (OfMode(a.mode, ModeUsage(r, f)), At(a.usage, (r, f)))];
          AddAllAppend(cells, two, UsageEntries(a, r, USAGE_FIELDS[j + 1..]));
          BumpAll([(Usage(r, f), At(a.usage, (r, f))), (OfMode(a.mode, ModeUsage(r, f)), At(a.usage, (r, f)))]);
          j := j + 1;
        }
        assert USAGE_FIELDS[j..] == [];
        NothingAdded(cells);
        assert ROLES[i..][1..] == ROLES[i + 1..];
        AddAllAppend(before, UsageEntries(a, r, USAGE_FIELDS), RoleEntries(a, ROLES[i + 1..]));
        i := i + 1;
      }
      assert ROLES[i..] == [];
      NothingAdded(cells);
    }

    method AddStages(a: Attempt)
      modifies this`cells
      ensures cells == AddAll(old(cells), StageEntries(a, STAGES))
    {
      hide AddAll, StageEntry;
      var i := 0;
      assert STAGES[0..] == STAGES;
      while i < |STAGES|
        invariant i <= |STAGES|
        invariant AddAll(cells, StageEntries(a, STAGES[i..])) == AddAll(old(cells), StageEntries(a, STAGES))
      {
        assert STAGES[i..][1..] == STAGES[i + 1..];
        AddAllAppend(cells, StageEntry(STAGES[i], ObservationOf(a, STAGES[i])), StageEntries(a, STAGES[i + 1..]));
        BumpAll(StageEntry(STAGES[i], ObservationOf(a, STAGES[i])));
        i := i + 1;
      }
      assert STAGES[i..] == [];
      NothingAdded(cells);
    }

    /** _add_attempt_to_audit: false stands for the contract error it raises half way. */
    method AddAttempt(a: Attempt) returns (ok: bool)
      modifies this
      ensures match Added(old(Value()), a)
              case Some(next) => ok && Value() == next
              case None => !ok && Value() == Ledger(AddAll(old(cells), BeforeEnvironment(a)), old(environments))
    {
      hide AddAll, HeadEntries, KindEntries, RoleEntries, StageEntries;
      ghost var h, k, r, t := HeadEntries(a), KindEntries(a, KINDS), RoleEntries(a, ROLES), TimingEntries(a);
      AddAllAppend(cells, h, k);
      AddAllAppend(cells, h + k, r);
      AddAllAppend(cells, h + k + r, t);
      AddAllAppend(cells, BeforeEnvironment(a), AfterEnvironment(a));
      BumpAll(HeadEntries(a));
      AddKinds(a);
      AddRoles(a);
      BumpAll(TimingEntries(a));
      if a.fingerprint in environments && environments[a.fingerprint] != a.environment {
        return false;
      }
      environments := environments[a.fingerprint := a.environment];
      AddAllAppend(cells, EnvironmentEntries(a), StageEntries(a, STAGES));
      BumpAll(EnvironmentEntries(a));
      AddStages(a);
      ok := true;
    }

    /** Folding a list of attempts, as the aggregation and the validation of a bundle both do. */
    method AddAttempts(attempts: seq<Attempt>) returns (ok: bool)
      modifies this
      ensures ok <==> Folded(old(Value()), attempts).Some?
      ensures ok ==> Folded(old(Value()), attempts) == Some(Value())
    {
      hide Added;
      var i := 0;
      while i < |attempts|
        invariant i <= |attempts|
        invariant Folded(old(Value()), attempts) == Folded(Value(), attempts[i..])
      {
        assert attempts[i..][1..] == attempts[i + 1..];
        ok := AddAttempt(attempts[i]);
        if !ok {
          return;
        }
        i := i + 1;
      }
      ok := true;
    }
  }

  lemma NothingAdded(cells: Cells)
    ensures AddAll(cells, []) == cells
  {
  }
}
