/** Totals of the attempt audit over environments and stage origins (legal_rag/experiment_aggregation.py). */
module AuditTotals {
  import opened Common
  import opened Audit

  /** Cells that neither a timing, an environment nor an origin owns. */
  predicate Plain(c: Cell) {
    !c.Timing? && !c.OfEnvironment? && !c.StageOrigin? && !c.OfOrigin?
  }

  predicate AllPlain(e: seq<Entry>) {
    forall i | 0 <= i < |e| :: Plain(e[i].0)
  }

  predicate AllOrigins(e: seq<Entry>) {
    forall i | 0 <= i < |e| :: e[i].0.StageOrigin? || e[i].0.OfOrigin?
  }

  lemma {:induction false} FieldsPlain(a: Attempt, k: Kind, fields: seq<CallField>)
    ensures AllPlain(FieldEntries(a, k, fields))
  {
    if fields != [] {
      FieldsPlain(a, k, fields[1..]);
    }
  }

  lemma {:induction false} KindsPlain(a: Attempt, kinds: seq<Kind>)
    ensures AllPlain(KindEntries(a, kinds))
  {
    if kinds != [] {
      FieldsPlain(a, kinds[0], CALL_FIELDS);
      KindsPlain(a, kinds[1..]);
      hide FieldEntries;
    }
  }

  lemma {:induction false} UsagePlain(a: Attempt, r: UsageRole, fields: seq<UsageField>)
    ensures AllPlain(UsageEntries(a, r, fields))
  {
    if fields != [] {
      UsagePlain(a, r, fields[1..]);
    }
  }

  lemma {:induction false} RolesPlain(a: Attempt, roles: seq<UsageRole>)
    ensures AllPlain(RoleEntries(a, roles))
  {
    if roles != [] {
      UsagePlain(a, roles[0], USAGE_FIELDS);
      RolesPlain(a, roles[1..]);
      hide UsageEntries;
    }
  }

  lemma HeadPlain(a: Attempt)
    ensures AllPlain(HeadEntries(a))
  {
  }

  lemma {:induction false} StagesAreOrigins(a: Attempt, stages: seq<Stage>)
    ensures AllOrigins(StageEntries(a, stages))
  {
    if stages != [] {
      SourcesUncompared(ObservationOf(a, stages[0]), KINDS);
      StagesAreOrigins(a, stages[1..]);
      hide SourceEntries;
    }
  }

  lemma SumOfParts(a: Attempt, c: Cell)
    ensures Sum(Entries(a), c) == Sum(HeadEntries(a), c) + Sum(KindEntries(a, KINDS), c) + Sum(RoleEntries(a, ROLES), c)
                                  + Sum(TimingEntries(a), c) + Sum(EnvironmentEntries(a), c) + Sum(StageEntries(a, STAGES), c)
  {
    hide Sum, HeadEntries, KindEntries, RoleEntries, TimingEntries, EnvironmentEntries, StageEntries;
    var h := HeadEntries(a);
    SumAppend(h, KindEntries(a, KINDS), c);
    SumAppend(h + KindEntries(a, KINDS), RoleEntries(a, ROLES), c);
    SumAppend(h + KindEntries(a, KINDS) + RoleEntries(a, ROLES), TimingEntries(a), c);
    SumAppend(EnvironmentEntries(a), StageEntries(a, STAGES), c);
    SumAppend(BeforeEnvironment(a), AfterEnvironment(a), c);
  }

  lemma PlainPartsSum(a: Attempt, c: Cell)
    requires !Plain(c)
    ensures Sum(HeadEntries(a), c) == 0.0 && Sum(KindEntries(a, KINDS), c) == 0.0 && Sum(RoleEntries(a, ROLES), c) == 0.0
  {
    hide Sum, HeadEntries, KindEntries, RoleEntries;
    HeadPlain(a);
    KindsPlain(a, KINDS);
    RolesPlain(a, ROLES);
    SumOfOthers(HeadEntries(a), c);
    SumOfOthers(KindEntries(a, KINDS), c);
    SumOfOthers(RoleEntries(a, ROLES), c);
  }

  // ----- environments -----

  /** What one attempt adds to a timing number. */
  function Amount(a: Attempt, t: TimingCell): real {
    match t
    case TimedAttempts => 1.0
    case QueueWait => a.queueWait
    case EndToEnd => a.endToEnd
  }

  lemma SumOfTwo(d: Entry, e: Entry, c: Cell)
    ensures Sum([d, e], c) == (if d.0 == c then d.1 else 0.0) + (if e.0 == c then e.1 else 0.0)
  {
    assert [d, e][1..] == [e] && [e][1..] == [];
    assert Sum([e], c) == if e.0 == c then e.1 else 0.0;
  }

  lemma SumOfThree(d: Entry, e: Entry, f: Entry, c: Cell)
    ensures Sum([d, e, f], c) ==
            (if d.0 == c then d.1 else 0.0) + (if e.0 == c then e.1 else 0.0) + (if f.0 == c then f.1 else 0.0)
  {
    assert [d, e, f][1..] == [e, f] && [e, f][1..] == [f] && [f][1..] == [];
    assert Sum([f], c) == if f.0 == c then f.1 else 0.0;
    assert Sum([e, f], c) == (if e.0 == c then e.1 else 0.0) + Sum([f], c);
  }

  lemma OwnTimings(a: Attempt, c: Cell)
    ensures Sum(TimingEntries(a), c) == if c.Timing? && c.mode == a.mode then Amount(a, c.timing) else 0.0
    ensures Sum(EnvironmentEntries(a), c) == if c.OfEnvironment? && c.fingerprint == a.fingerprint then Amount(a, c.timing) else 0.0
  {
    hide Sum;
    SumOfThree((Timing(a.mode, TimedAttempts), 1.0), (Timing(a.mode, QueueWait), a.queueWait), (Timing(a.mode, EndToEnd), a.endToEnd), c);
    SumOfThree((OfEnvironment(a.fingerprint, TimedAttempts), 1.0), (OfEnvironment(a.fingerprint, QueueWait), a.queueWait),
               (OfEnvironment(a.fingerprint, EndToEnd), a.endToEnd), c);
  }

  /** An attempt raises the timings of its cache mode and of its environment, and no others. */
  lemma AttemptTimings(a: Attempt, c: Cell)
    requires c.Timing? || c.OfEnvironment?
    ensures Sum(Entries(a), c) ==
            match c
            case Timing(mode, t) => if mode == a.mode then Amount(a, t) else 0.0
            case OfEnvironment(fingerprint, t) => if fingerprint == a.fingerprint then Amount(a, t) else 0.0
            case _ => 0.0
  {
    hide Sum, TimingEntries, EnvironmentEntries, StageEntries;
    SumOfParts(a, c);
    PlainPartsSum(a, c);
    OwnTimings(a, c);
    StagesAreOrigins(a, STAGES);
    SumOfOthers(StageEntries(a, STAGES), c);
  }

  function OverTimings(cells: Cells, t: TimingCell): real {
    At(cells, Timing(Fresh, t)) + At(cells, Timing(Cache, t)) + At(cells, Timing(Replay, t))
  }

  function OverEnvironments(cells: Cells, fingerprints: seq<string>, t: TimingCell): real {
    if fingerprints == [] then 0.0 else At(cells, OfEnvironment(fingerprints[0], t)) + OverEnvironments(cells, fingerprints[1..], t)
  }

  predicate Listed(fingerprints: seq<string>) {
    forall i, j | 0 <= i < j < |fingerprints| :: fingerprints[i] != fingerprints[j]
  }

  lemma {:induction false} EnvironmentsGrow(before: Cells, after: Cells, fingerprints: seq<string>, a: Attempt, t: TimingCell)
    requires Listed(fingerprints)
    requires forall f :: At(after, OfEnvironment(f, t)) == At(before, OfEnvironment(f, t)) + if f == a.fingerprint then Amount(a, t) else 0.0
    ensures OverEnvironments(after, fingerprints, t) ==
            OverEnvironments(before, fingerprints, t) + if a.fingerprint in fingerprints then Amount(a, t) else 0.0
  {
    hide Amount, At;
    if fingerprints != [] {
      EnvironmentsGrow(before, after, fingerprints[1..], a, t);
      assert a.fingerprint in fingerprints <==> a.fingerprint == fingerprints[0] || a.fingerprint in fingerprints[1..];
    }
  }

  function Together(attempts: seq<Attempt>, t: TimingCell): real {
    if attempts == [] then 0.0 else Amount(attempts[0], t) + Together(attempts[1..], t)
  }

  lemma AddedTimings(l: Ledger, a: Attempt, fingerprints: seq<string>, t: TimingCell)
    requires Added(l, a).Some? && Listed(fingerprints) && a.fingerprint in fingerprints
    ensures var cells := Added(l, a).value.cells;
            && OverEnvironments(cells, fingerprints, t) == OverEnvironments(l.cells, fingerprints, t) + Amount(a, t)
            && OverTimings(cells, t) == OverTimings(l.cells, t) + Amount(a, t)
  {
    hide Entries, AddAll, Amount, At, OverEnvironments, Sum;
    var cells := AddAll(l.cells, Entries(a));
    AddAllIsSum(l.cells, Entries(a));
    forall f ensures At(cells, OfEnvironment(f, t)) == At(l.cells, OfEnvironment(f, t)) + if f == a.fingerprint then Amount(a, t) else 0.0 {
      AttemptTimings(a, OfEnvironment(f, t));
    }
    EnvironmentsGrow(l.cells, cells, fingerprints, a, t);
    AttemptTimings(a, Timing(Fresh, t));
    AttemptTimings(a, Timing(Cache, t));
    AttemptTimings(a, Timing(Replay, t));
  }

  lemma {:induction false} FoldTimings(l: Ledger, attempts: seq<Attempt>, fingerprints: seq<string>, t: TimingCell)
    requires Folded(l, attempts).Some? && Listed(fingerprints) && forall a | a in attempts :: a.fingerprint in fingerprints
    ensures var cells := Folded(l, attempts).value.cells;
            && OverEnvironments(cells, fingerprints, t) == OverEnvironments(l.cells, fingerprints, t) + Together(attempts, t)
            && OverTimings(cells, t) == OverTimings(l.cells, t) + Together(attempts, t)
    decreases |attempts|
  {
    hide Added, OverEnvironments, OverTimings, Amount, Listed;
    if attempts != [] {
      var next := Added(l, attempts[0]).value;
      AddedTimings(l, attempts[0], fingerprints, t);
      FoldTimings(next, attempts[1..], fingerprints, t);
    }
  }

  lemma {:induction false} FoldListsEnvironments(l: Ledger, attempts: seq<Attempt>)
    requires Folded(l, attempts).Some?
    ensures l.environments.Keys <= Folded(l, attempts).value.environments.Keys
    ensures forall a | a in attempts :: a.fingerprint in Folded(l, attempts).value.environments
    decreases |attempts|
  {
    hide Entries, AddAll;
    if attempts != [] {
      FoldListsEnvironments(Added(l, attempts[0]).value, attempts[1..]);
      assert forall a | a in attempts :: a == attempts[0] || a in attempts[1..];
    }
  }

  lemma {:induction false} NoTimingsYet(fingerprints: seq<string>, t: TimingCell)
    ensures OverEnvironments(BLANK.cells, fingerprints, t) == 0.0
  {
    if fingerprints != [] {
      BlankIsZero(OfEnvironment(fingerprints[0], t));
      NoTimingsYet(fingerprints[1..], t);
      hide At;
    }
  }

  lemma {:induction false} TogetherCounts(attempts: seq<Attempt>)
    ensures Together(attempts, TimedAttempts) == |attempts| as real
  {
    if attempts != [] {
      TogetherCounts(attempts[1..]);
    }
  }

  /** Main theorem: over the environments of an audit, however they are listed, attempts and times add up to
      those over the cache modes, and the attempts to the trusted attempts. */
  lemma EnvironmentsAddUp(attempts: seq<Attempt>, fingerprints: seq<string>, t: TimingCell)
    requires Folded(BLANK, attempts).Some? && Listed(fingerprints)
    requires forall f :: f in fingerprints <==> f in Folded(BLANK, attempts).value.environments
    ensures var cells := Folded(BLANK, attempts).value.cells;
            && OverEnvironments(cells, fingerprints, t) == OverTimings(cells, t) == Together(attempts, t)
            && OverEnvironments(cells, fingerprints, TimedAttempts) == At(cells, TrustedAttempts)
  {
    hide Folded, Listed, OverEnvironments, Together;
    FoldListsEnvironments(BLANK, attempts);
    FoldTimings(BLANK, attempts, fingerprints, t);
    FoldTimings(BLANK, attempts, fingerprints, TimedAttempts);
    FoldCounts(BLANK, attempts);
    TogetherCounts(attempts);
    NoTimingsYet(fingerprints, t);
    NoTimingsYet(fingerprints, TimedAttempts);
    BlankIsZero(TrustedAttempts);
    BlankIsZero(Timing(Fresh, t));
    BlankIsZero(Timing(Cache, t));
    BlankIsZero(Timing(Replay, t));
    hide At;
  }

  // ----- origins over the stages -----

  function OverStages(cells: Cells, stages: seq<Stage>, o: Origin): real {
    if stages == [] then 0.0 else At(cells, StageOrigin(stages[0], o)) + OverStages(cells, stages[1..], o)
  }

  lemma {:induction false} SourcesAreSources(o: Observation, kinds: seq<Kind>, origin: Origin)
    ensures Sum(SourceEntries(o, kinds), OfOrigin(origin, Observations)) == 0.0
    ensures forall s :: Sum(SourceEntries(o, kinds), StageOrigin(s, origin)) == 0.0
  {
    if kinds != [] {
      SourcesAreSources(o, kinds[1..], origin);
    }
  }

  predicate OfStage(a: Attempt, s: Stage, o: Origin) {
    ObservationOf(a, s).origin == o
  }

  lemma StageEntrySums(s: Stage, o: Observation, origin: Origin)
    ensures Sum(StageEntry(s, o), OfOrigin(origin, Observations)) == if o.origin == origin then 1.0 else 0.0
    ensures forall r :: Sum(StageEntry(s, o), StageOrigin(r, origin)) == if r == s && o.origin == origin then 1.0 else 0.0
  {
    hide SourceEntries;
    var timed: Entry := (OfOrigin(o.origin, TimedObservations), if o.duration.Some? then 1.0 else 0.0);
    var lasted: Entry := (OfOrigin(o.origin, ObservedDuration), if o.duration.Some? then o.duration.value else 0.0);
    var first: seq<Entry> := [(StageOrigin(s, o.origin), 1.0), (OfOrigin(o.origin, Observations), 1.0)];
    assert StageEntry(s, o) == first + ([timed, lasted] + SourceEntries(o, KINDS));
    SourcesAreSources(o, KINDS, origin);
    forall c: Cell ensures Sum(StageEntry(s, o), c) == Sum(first, c) + Sum([timed, lasted], c) + Sum(SourceEntries(o, KINDS), c) {
      SumAppend([timed, lasted], SourceEntries(o, KINDS), c);
      SumAppend(first, [timed, lasted] + SourceEntries(o, KINDS), c);
    }
    hide StageEntry;
    forall c: Cell ensures Sum(first, c) == (if first[0].0 == c then 1.0 else 0.0) + (if first[1].0 == c then 1.0 else 0.0) {
      SumOfTwo(first[0], first[1], c);
    }
    forall c: Cell | c != timed.0 && c != lasted.0 ensures Sum([timed, lasted], c) == 0.0 {
      SumOfOthers([timed, lasted], c);
    }
    hide Sum;
  }

  /** How many of the stages an attempt went through have the origin. */
  function StagesOf(a: Attempt, stages: seq<Stage>, o: Origin): real {
    if stages == [] then 0.0 else (if OfStage(a, stages[0], o) then 1.0 else 0.0) + StagesOf(a, stages[1..], o)
  }

  lemma {:induction false} StageSums(a: Attempt, stages: seq<Stage>, o: Origin)
    ensures Sum(StageEntries(a, stages), OfOrigin(o, Observations)) == StagesOf(a, stages, o)
    ensures forall s :: Sum(StageEntries(a, stages), StageOrigin(s, o)) == if OfStage(a, s, o) then Occurrences(stages, s) as real else 0.0
  {
    hide StageEntry;
    if stages != [] {
      var first, rest := StageEntry(stages[0], ObservationOf(a, stages[0])), StageEntries(a, stages[1..]);
      StageSums(a, stages[1..], o);
      StageEntrySums(stages[0], ObservationOf(a, stages[0]), o);
      forall c: Cell ensures Sum(StageEntries(a, stages), c) == Sum(first, c) + Sum(rest, c) {
        SumAppend(first, rest, c);
      }
      hide Sum;
    }
  }

  /** An attempt raises the observations of an origin by its stages of that origin, and those stages' numbers by one. */
  lemma AttemptOrigins(a: Attempt, o: Origin)
    ensures Sum(Entries(a), OfOrigin(o, Observations)) == StagesOf(a, STAGES, o)
    ensures forall s :: Sum(Entries(a), StageOrigin(s, o)) == if OfStage(a, s, o) then 1.0 else 0.0
  {
    hide Sum, Entries, TimingEntries, EnvironmentEntries, StageEntries, OfStage, StagesOf, Occurrences;
    StageSums(a, STAGES, o);
    OtherPartsSum(a, OfOrigin(o, Observations));
    forall s ensures Sum(Entries(a), StageOrigin(s, o)) == if OfStage(a, s, o) then 1.0 else 0.0 {
      OtherPartsSum(a, StageOrigin(s, o));
      EveryStageOnce(s);
    }
  }

  lemma OtherPartsSum(a: Attempt, c: Cell)
    requires c.StageOrigin? || c.OfOrigin?
    ensures Sum(Entries(a), c) == Sum(StageEntries(a, STAGES), c)
  {
    hide Sum, TimingEntries, EnvironmentEntries, StageEntries, Entries;
    SumOfParts(a, c);
    PlainPartsSum(a, c);
    OwnTimings(a, c);
  }

  lemma {:induction false} StagesGrow(before: Cells, after: Cells, a: Attempt, stages: seq<Stage>, o: Origin)
    requires forall s :: At(after, StageOrigin(s, o)) == At(before, StageOrigin(s, o)) + if OfStage(a, s, o) then 1.0 else 0.0
    ensures OverStages(after, stages, o) == OverStages(before, stages, o) + StagesOf(a, stages, o)
  {
    hide At, OfStage;
    if stages != [] {
      StagesGrow(before, after, a, stages[1..], o);
    }
  }

  /** The observations of an origin are those of all stages together. */
  ghost predicate OriginsAddUp(cells: Cells) {
    forall o :: At(cells, OfOrigin(o, Observations)) == OverStages(cells, STAGES, o)
  }

  /** Main theorem: folding attempts keeps the observations of every origin equal to the sum over the stages. */
  lemma {:induction false} FoldKeepsOrigins(l: Ledger, attempts: seq<Attempt>)
    requires OriginsAddUp(l.cells) && Folded(l, attempts).Some?
    ensures OriginsAddUp(Folded(l, attempts).value.cells)
    decreases |attempts|
  {
    hide Entries, AddAll, At, OverStages, Sum, StagesOf, OfStage;
    if attempts != [] {
      var a := attempts[0];
      var next := Added(l, a).value;
      AddAllIsSum(l.cells, Entries(a));
      forall o ensures At(next.cells, OfOrigin(o, Observations)) == OverStages(next.cells, STAGES, o) {
        AttemptOrigins(a, o);
        StagesGrow(l.cells, next.cells, a, STAGES, o);
      }
      FoldKeepsOrigins(next, attempts[1..]);
    }
  }

  lemma {:induction false} NoStagesYet(stages: seq<Stage>, o: Origin)
    ensures OverStages(BLANK.cells, stages, o) == 0.0
  {
    if stages != [] {
      BlankIsZero(StageOrigin(stages[0], o));
      NoStagesYet(stages[1..], o);
      hide At;
    }
  }

  lemma BlankOriginsAddUp()
    ensures OriginsAddUp(BLANK.cells)
  {
    forall o ensures At(BLANK.cells, OfOrigin(o, Observations)) == OverStages(BLANK.cells, STAGES, o) {
      BlankIsZero(OfOrigin(o, Observations));
      NoStagesYet(STAGES, o);
    }
  }
}
