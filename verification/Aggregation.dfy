/** The unit loop of the aggregation and its trust rule (legal_rag/experiment_aggregation.py). */
module Aggregation {
  // Which turns of a work unit are trusted, what becomes of the others, and the audit of the trusted
  // attempts, during aggregation and recomputed from what it published.

  import opened Common
  import opened Audit

  type CaseId = string

  datatype StoreState =
    | StoreSucceeded | StoreFailed | StoreMissing | StoreCorrupt | StoreNotRun | StoreInterrupted | StoreExhausted

  datatype CaseStatus = Succeeded | Failed | Interrupted | Exhausted | Pending | NeverRun | Corrupt

  function PublicStatus(state: StoreState): CaseStatus {
    match state
    case StoreSucceeded => Succeeded
    case StoreFailed => Failed
    case StoreMissing => Pending
    case StoreCorrupt => Corrupt
    case StoreNotRun => NeverRun
    case StoreInterrupted => Interrupted
    case StoreExhausted => Exhausted
  }

  /** What the store holds for one case: its attempt files, and how many attempts were read from them. */
  datatype Persisted = Persisted(state: StoreState, files: nat, readable: bool, attempts: nat)

  /** A history the runner validated: one entry for every persisted attempt. */
  datatype History = History(attempts: seq<Attempt>)

  datatype ScoredRecord = ScoredRecord(caseId: CaseId, body: string)

  datatype MarkerProof = MarkerUnreadable | MarkerDiffers | MarkerMatches

  /** What decoding finds for the latest attempt of a case, when that attempt succeeded. */
  datatype Proof = Proof(hasOutput: bool, decoded: Option<ScoredRecord>, marker: MarkerProof)

  datatype Problem =
    | InvalidRunnerHistory | UntrustedSessionPredecessor | MissingValidatedHistory | AttemptCountMismatch
    | StatusMismatch | MissingOutput | InvalidOutput | MarkerProblem | PayloadMismatch | IdentityMismatch | UnreadableHistory

  const SUCCEEDED := "succeeded"

  /** The digest of a redacted environment, treated as injective. */
  datatype EnvironmentDigest = Sha256(environment: string)

  /** A published attempt: everything but its environment, of which only the digest is kept. */
  datatype AttemptRow = AttemptRow(facts: Attempt, environmentDigest: EnvironmentDigest)

  datatype Row = Row(
    status: CaseStatus, attemptCount: nat, trustedCount: nat, attempts: seq<AttemptRow>,
    markerValid: bool, record: Option<ScoredRecord>, problems: seq<Problem>)

  /** Everything the loop reads: the store, the runner's validation of a prefix of a work unit (None when
      it raises), and the decoding of the latest outputs. */
  datatype World = World(
    cases: map<CaseId, Persisted>, accept: seq<CaseId> -> Option<map<CaseId, History>>, proofs: map<CaseId, Proof>)

  datatype Unit = Unit(cases: seq<CaseId>, session: bool)

  predicate Distinct(ids: seq<CaseId>) {
    forall i, j | 0 <= i < j < |ids| :: ids[i] != ids[j]
  }

  predicate Known(w: World, ids: seq<CaseId>) {
    forall id | id in ids :: id in w.cases && id in w.proofs
  }

  /** Facts of the store: nothing is read of a case never run or not readable, and a case is found succeeded,
      or succeeded without its marker, only if it has attempts. */
  predicate StoreContract(w: World) {
    forall id | id in w.cases ::
      var c := w.cases[id];
      && (!c.readable || c.state.StoreNotRun? ==> c.attempts == 0)
      && (c.readable && (c.state.StoreSucceeded? || c.state.StoreMissing?) ==> c.attempts > 0)
  }

  /** Every attempt file of a readable case was read, and nothing else: no file came in between looking at the
      files and reading the attempts. */
  predicate FilesRead(c: Persisted) {
    c.readable ==> c.attempts == c.files
  }

  /** A fact of the runner: histories it returns are not empty. */
  predicate HistoriesNotEmpty(histories: map<CaseId, History>) {
    forall id | id in histories :: histories[id].attempts != []
  }

  ghost predicate RunnerContract(w: World) {
    forall ids: seq<CaseId> :: w.accept(ids).Some? ==> HistoriesNotEmpty(w.accept(ids).value)
  }

  // ----- rows -----

  function CorruptRow(row: Row, problem: Problem): Row {
    row.(status := Corrupt, markerValid := false, record := None, problems := row.problems + [problem])
  }

  /** The row of a case before any work unit is looked at. */
  function FirstRow(c: Persisted): Row {
    var row := Row(PublicStatus(c.state), c.attempts, 0, [], false, None, []);
    if c.readable then row else CorruptRow(row, UnreadableHistory).(attemptCount := c.files)
  }

  function RowOf(a: Attempt): AttemptRow {
    AttemptRow(a.(environment := ""), Sha256(a.environment))
  }

  function RowsOf(attempts: seq<Attempt>): seq<AttemptRow> {
    if attempts == [] then [] else [RowOf(attempts[0])] + RowsOf(attempts[1..])
  }

  // ----- the trusted prefix -----

  function ReadableLimit(w: World, ids: seq<CaseId>): (n: nat)
    requires Known(w, ids)
    ensures n <= |ids|
    ensures forall i | 0 <= i < n :: w.cases[ids[i]].readable
    ensures n < |ids| ==> !w.cases[ids[n]].readable
  {
    if ids == [] || !w.cases[ids[0]].readable then 0 else 1 + ReadableLimit(w, ids[1..])
  }

  /** How long the accepted prefixes grow, one case at a time from n on, up to limit. */
  function AcceptedLength(w: World, ids: seq<CaseId>, n: nat, limit: nat): (k: nat)
    requires n <= limit <= |ids|
    ensures n <= k <= limit
    ensures forall i | n < i <= k :: w.accept(ids[..i]).Some?
    ensures k < limit ==> w.accept(ids[..k + 1]).None?
    decreases limit - n
  {
    if n == limit || w.accept(ids[..n + 1]).None? then n else AcceptedLength(w, ids, n + 1, limit)
  }

  function TrustedLength(w: World, ids: seq<CaseId>): (k: nat)
    requires Known(w, ids)
    ensures k <= ReadableLimit(w, ids)
    ensures k > 0 ==> w.accept(ids[..k]).Some?
  {
    var limit := ReadableLimit(w, ids);
    if limit == 0 then 0
    else if w.accept(ids[..limit]).Some? then limit
    else AcceptedLength(w, ids, 0, limit)
  }

  /** The full readable prefix was looked at and rejected. */
  predicate Rejected(w: World, ids: seq<CaseId>)
    requires Known(w, ids)
  {
    ReadableLimit(w, ids) > 0 && w.accept(ids[..ReadableLimit(w, ids)]).None?
  }

  function HistoriesOf(w: World, ids: seq<CaseId>): map<CaseId, History>
    requires Known(w, ids)
  {
    if TrustedLength(w, ids) == 0 then map[] else w.accept(ids[..TrustedLength(w, ids)]).value
  }

  /** _validate_work_unit_trust_prefix */
  method TrustPrefix(w: World, ids: seq<CaseId>) returns (histories: map<CaseId, History>, length: nat, rejected: bool)
    requires Known(w, ids)
    ensures length == TrustedLength(w, ids) && rejected == Rejected(w, ids) && histories == HistoriesOf(w, ids)
  {
    var limit := 0;
    while limit < |ids| && w.cases[ids[limit]].readable
      invariant limit <= |ids|
      invariant ReadableLimit(w, ids) == limit + ReadableLimit(w, ids[limit..])
    {
      assert ids[limit..][1..] == ids[limit + 1..];
      limit := limit + 1;
    }
    assert ReadableLimit(w, ids) == limit;
    if limit == 0 {
      return map[], 0, false;
    }
    var full := w.accept(ids[..limit]);
    if full.Some? {
      return full.value, limit, false;
    }
    histories, length, rejected := map[], 0, true;
    while length < limit
      invariant length <= limit
      invariant AcceptedLength(w, ids, 0, limit) == AcceptedLength(w, ids, length, limit)
      invariant histories == if length == 0 then map[] else w.accept(ids[..length]).value
      invariant length > 0 ==> w.accept(ids[..length]).Some?
    {
      var next := w.accept(ids[..length + 1]);
      if next.None? {
        break;
      }
      histories, length := next.value, length + 1;
    }
  }

  // ----- what becomes of each case -----

  /** A case behind the trusted prefix. */
  function SuffixRow(c: Persisted, first: bool): Row {
    if !c.readable || c.attempts == 0 then FirstRow(c)
    else CorruptRow(FirstRow(c), if first then InvalidRunnerHistory else UntrustedSessionPredecessor)
  }

  /** The verdict on the latest attempt of a case whose whole history is trusted. */
  function VerdictRow(id: CaseId, c: Persisted, h: History, proof: Proof, row: Row): Row
    requires h.attempts != []
  {
    if h.attempts[|h.attempts| - 1].status != SUCCEEDED then
      if c.state.StoreFailed? || c.state.StoreInterrupted? || c.state.StoreExhausted? then row.(status := PublicStatus(c.state))
      else CorruptRow(row, StatusMismatch)
    else if !proof.hasOutput then CorruptRow(row, MissingOutput)
    else if proof.decoded.None? then CorruptRow(row, InvalidOutput)
    else if c.state.StoreMissing? then row.(status := Pending)
    else if !c.state.StoreSucceeded? then CorruptRow(row, StatusMismatch)
    else if proof.marker.MarkerUnreadable? then CorruptRow(row, MarkerProblem)
    else if proof.marker.MarkerDiffers? then CorruptRow(row, PayloadMismatch)
    else if proof.decoded.value.caseId != id then CorruptRow(row, IdentityMismatch)
    else row.(status := Succeeded, markerValid := true, record := proof.decoded)
  }

  predicate Counted(c: Persisted, histories: map<CaseId, History>, id: CaseId) {
    id in histories && |histories[id].attempts| == c.attempts
  }

  /** A case inside the trusted prefix, before its predecessors are considered. */
  function PrefixRow(id: CaseId, c: Persisted, histories: map<CaseId, History>, proof: Proof): Row
    requires HistoriesNotEmpty(histories)
  {
    var row := FirstRow(c);
    if id !in histories then
      if c.attempts > 0 then CorruptRow(row, MissingValidatedHistory) else row
    else if |histories[id].attempts| != c.attempts then CorruptRow(row, AttemptCountMismatch)
    else
      var h := histories[id];
      VerdictRow(id, c, h, proof, row.(trustedCount := |h.attempts|, attempts := RowsOf(h.attempts)))
  }

  function SettledRow(w: World, ids: seq<CaseId>, j: nat): Row
    requires Known(w, ids) && j < |ids| && HistoriesNotEmpty(HistoriesOf(w, ids))
  {
    var c := w.cases[ids[j]];
    if j < TrustedLength(w, ids) then PrefixRow(ids[j], c, HistoriesOf(w, ids), w.proofs[ids[j]])
    else SuffixRow(c, Rejected(w, ids) && j == TrustedLength(w, ids))
  }

  predicate CorruptBefore(w: World, ids: seq<CaseId>, j: nat)
    requires Known(w, ids) && j <= |ids| && HistoriesNotEmpty(HistoriesOf(w, ids))
  {
    exists i | 0 <= i < j :: SettledRow(w, ids, i).status.Corrupt?
  }

  /** The published row of the j-th case of a work unit. */
  function FinalRow(w: World, u: Unit, j: nat): Row
    requires Known(w, u.cases) && j < |u.cases| && HistoriesNotEmpty(HistoriesOf(w, u.cases))
  {
    var row := SettledRow(w, u.cases, j);
    if u.session && j < TrustedLength(w, u.cases) && CorruptBefore(w, u.cases, j) && row.attemptCount > 0
    then CorruptRow(row, UntrustedSessionPredecessor) else row
  }

  /** Attempts of the j-th case the unit loop declares untrusted. */
  function UntrustedIn(w: World, ids: seq<CaseId>, j: nat): nat
    requires Known(w, ids) && j < |ids|
  {
    var c := w.cases[ids[j]];
    if j < TrustedLength(w, ids) && Counted(c, HistoriesOf(w, ids), ids[j]) then 0 else c.attempts
  }

  function TrustedIn(w: World, ids: seq<CaseId>, j: nat): seq<Attempt>
    requires Known(w, ids) && j < |ids|
  {
    if j < TrustedLength(w, ids) && Counted(w.cases[ids[j]], HistoriesOf(w, ids), ids[j])
    then HistoriesOf(w, ids)[ids[j]].attempts else []
  }

  // ----- trust is prefix closed -----

  lemma {:induction false} RowsOfLength(attempts: seq<Attempt>)
    ensures |RowsOf(attempts)| == |attempts|
  {
    if attempts != [] {
      RowsOfLength(attempts[1..]);
    }
  }

  lemma SettledShape(w: World, ids: seq<CaseId>, j: nat)
    requires StoreContract(w) && Known(w, ids) && j < |ids| && HistoriesNotEmpty(HistoriesOf(w, ids))
    ensures var row, c := SettledRow(w, ids, j), w.cases[ids[j]];
            && row.attemptCount == (if c.readable then c.attempts else c.files)
            && (!c.readable ==> row.status.Corrupt?)
            && (j >= TrustedLength(w, ids) && row.attemptCount > 0 ==> row.status.Corrupt?)
            && (row.record.Some? ==> row.status.Succeeded?)
            && (row.status.Corrupt? ==> row.record.None? && !row.markerValid)
            && row.attempts == RowsOf(TrustedIn(w, ids, j))
            && row.trustedCount == |row.attempts|
            && row.trustedCount + UntrustedIn(w, ids, j) == c.attempts
  {
    RowsOfLength(TrustedIn(w, ids, j));
    if j < TrustedLength(w, ids) {
      assert w.cases[ids[j]].readable;
    }
    hide TrustedLength, ReadableLimit, HistoriesOf, Rejected;
  }

  /** Main theorem: in a session, once a turn ends up corrupt, for whatever reason, every later turn that
      has attempts is corrupt too, and no corrupt turn publishes a scored record. */
  lemma TrustIsPrefixClosed(w: World, u: Unit, i: nat, j: nat)
    requires StoreContract(w) && Known(w, u.cases) && HistoriesNotEmpty(HistoriesOf(w, u.cases))
    requires u.session && i < j < |u.cases|
    requires FinalRow(w, u, i).status.Corrupt?
    ensures FinalRow(w, u, j).attemptCount > 0 ==> FinalRow(w, u, j).status.Corrupt?
    ensures FinalRow(w, u, j).status.Corrupt? ==> FinalRow(w, u, j).record.None?
    ensures FinalRow(w, u, j).attemptCount > 0 ==> FinalRow(w, u, j).record.None?
  {
    SettledShape(w, u.cases, i);
    SettledShape(w, u.cases, j);
    hide SettledRow, TrustedLength;
    if j < TrustedLength(w, u.cases) {
      if !SettledRow(w, u.cases, i).status.Corrupt? {
        assert CorruptBefore(w, u.cases, i);
        var k :| 0 <= k < i && SettledRow(w, u.cases, k).status.Corrupt?;
        assert CorruptBefore(w, u.cases, j);
      } else {
        assert CorruptBefore(w, u.cases, j);
      }
    }
  }

  /** A turn keeps a scored record only if every earlier turn of its session kept clear of corruption. */
  lemma ScoredTurnsHaveCleanPredecessors(w: World, u: Unit, i: nat, j: nat)
    requires StoreContract(w) && Known(w, u.cases) && HistoriesNotEmpty(HistoriesOf(w, u.cases))
    requires u.session && i < j < |u.cases|
    requires FinalRow(w, u, j).record.Some?
    ensures !FinalRow(w, u, i).status.Corrupt?
    ensures w.cases[u.cases[j]].attempts > 0 && j < TrustedLength(w, u.cases)
  {
    SettledShape(w, u.cases, j);
    if FinalRow(w, u, i).status.Corrupt? {
      TrustIsPrefixClosed(w, u, i, j);
    }
    RecordsHaveAttempts(w, u.cases, j);
  }

  /** The latest attempt of a row is a trusted one that succeeded. */
  predicate LatestSucceeded(row: Row) {
    row.attempts != [] && row.attempts[|row.attempts| - 1].facts.status == SUCCEEDED
  }

  /** What the bundle validator demands of the status of a row: a succeeded row has a succeeded latest attempt,
      its marker and its own record, no other row carries a record, a pending row has a succeeded latest
      attempt, a case never run has none, a public status agrees with the store and trusted attempts are part
      of the attempts. */
  predicate StatusAccepted(id: CaseId, c: Persisted, row: Row) {
    && row.trustedCount == |row.attempts| <= row.attemptCount
    && (row.record.Some? <==> row.status.Succeeded?)
    && (row.status.Succeeded? ==> c.state.StoreSucceeded? && row.markerValid && row.record.value.caseId == id && LatestSucceeded(row))
    && (row.status.Pending? ==> LatestSucceeded(row))
    && (!row.status.Corrupt? ==> row.status == PublicStatus(c.state))
    && (row.status.NeverRun? ==> row.attemptCount == 0)
  }

  /** With the rule that a row counts as many attempts as its case has attempt files. */
  predicate RowAccepted(id: CaseId, c: Persisted, row: Row) {
    StatusAccepted(id, c, row) && row.attemptCount == c.files
  }

  lemma {:induction false} RowsOfAt(attempts: seq<Attempt>, k: nat)
    requires k < |attempts|
    ensures k < |RowsOf(attempts)| && RowsOf(attempts)[k] == RowOf(attempts[k])
  {
    RowsOfLength(attempts);
    if k > 0 {
      RowsOfAt(attempts[1..], k - 1);
    }
  }

  lemma LastAttemptRow(w: World, ids: seq<CaseId>, j: nat)
    requires Known(w, ids) && j < |ids| && TrustedIn(w, ids, j) != []
    ensures var a, rows := TrustedIn(w, ids, j), RowsOf(TrustedIn(w, ids, j));
            rows != [] && rows[|rows| - 1].facts.status == a[|a| - 1].status
  {
    hide TrustedIn, RowsOf;
    RowsOfLength(TrustedIn(w, ids, j));
    RowsOfAt(TrustedIn(w, ids, j), |TrustedIn(w, ids, j)| - 1);
  }

  lemma SettledRowAccepted(w: World, ids: seq<CaseId>, j: nat)
    requires StoreContract(w) && Known(w, ids) && HistoriesNotEmpty(HistoriesOf(w, ids)) && j < |ids|
    ensures StatusAccepted(ids[j], w.cases[ids[j]], SettledRow(w, ids, j))
  {
    hide TrustedLength, HistoriesOf, Rejected, RowsOf;
    SettledShape(w, ids, j);
    if TrustedIn(w, ids, j) != [] {
      LastAttemptRow(w, ids, j);
    }
  }

  /** Every published row satisfies the validator's rules on statuses, and satisfies its rule on counts exactly
      when the attempts read of the case are as many as its attempt files. */
  lemma RowsAreAccepted(w: World, u: Unit, j: nat)
    requires StoreContract(w) && Known(w, u.cases) && HistoriesNotEmpty(HistoriesOf(w, u.cases)) && j < |u.cases|
    ensures StatusAccepted(u.cases[j], w.cases[u.cases[j]], FinalRow(w, u, j))
    ensures RowAccepted(u.cases[j], w.cases[u.cases[j]], FinalRow(w, u, j)) <==> FilesRead(w.cases[u.cases[j]])
  {
    hide TrustedLength, HistoriesOf, SettledRow, CorruptBefore;
    SettledShape(w, u.cases, j);
    SettledRowAccepted(w, u.cases, j);
  }

  lemma RecordsHaveAttempts(w: World, ids: seq<CaseId>, j: nat)
    requires Known(w, ids) && j < |ids| && HistoriesNotEmpty(HistoriesOf(w, ids))
    ensures SettledRow(w, ids, j).record.Some? ==> w.cases[ids[j]].attempts > 0 && j < TrustedLength(w, ids)
  {
    hide TrustedLength, HistoriesOf, Rejected;
  }

  // ----- nothing is lost -----

  function TrustedAttemptsOf(w: World, ids: seq<CaseId>, n: nat): seq<Attempt>
    requires Known(w, ids) && n <= |ids|
  {
    if n == 0 then [] else TrustedAttemptsOf(w, ids, n - 1) + TrustedIn(w, ids, n - 1)
  }

  function UntrustedCount(w: World, ids: seq<CaseId>, n: nat): nat
    requires Known(w, ids) && n <= |ids|
  {
    if n == 0 then 0 else UntrustedCount(w, ids, n - 1) + UntrustedIn(w, ids, n - 1)
  }

  /** The attempts read. */
  function AttemptsRead(w: World, ids: seq<CaseId>): nat
    requires Known(w, ids)
  {
    if ids == [] then 0 else w.cases[ids[0]].attempts + AttemptsRead(w, ids[1..])
  }

  /** The attempt files present, of all cases or of those whose history is not readable. */
  function FilesOf(w: World, ids: seq<CaseId>, unreadableOnly: bool): nat
    requires Known(w, ids)
  {
    if ids == [] then 0
    else (if unreadableOnly && w.cases[ids[0]].readable then 0 else w.cases[ids[0]].files) + FilesOf(w, ids[1..], unreadableOnly)
  }

  lemma {:induction false} AttemptsReadSnoc(w: World, ids: seq<CaseId>, n: nat)
    requires Known(w, ids) && n < |ids|
    ensures AttemptsRead(w, ids[..n + 1]) == AttemptsRead(w, ids[..n]) + w.cases[ids[n]].attempts
    decreases n
  {
    if n > 0 {
      AttemptsReadSnoc(w, ids[1..], n - 1);
      assert ids[1..][..n] == ids[..n + 1][1..] && ids[1..][..n - 1] == ids[..n][1..];
    }
  }

  /** Every attempt read from a unit is either folded into the audit or counted as untrusted, once. */
  lemma {:induction false} UnitAccountsForAttempts(w: World, ids: seq<CaseId>, n: nat)
    requires StoreContract(w) && Known(w, ids) && n <= |ids| && HistoriesNotEmpty(HistoriesOf(w, ids))
    ensures |TrustedAttemptsOf(w, ids, n)| + UntrustedCount(w, ids, n) == AttemptsRead(w, ids[..n])
  {
    if n > 0 {
      UnitAccountsForAttempts(w, ids, n - 1);
      AttemptsReadSnoc(w, ids, n - 1);
      SettledShape(w, ids, n - 1);
      RowsOfLength(TrustedIn(w, ids, n - 1));
    }
  }

  // ----- the aggregator -----

  class Aggregator {
    const world: World
    const audit: AttemptAudit
    const persisted: nat
    var rows: map<CaseId, Row>
    var scored: map<CaseId, ScoredRecord>
    var untrusted: int

    ghost predicate Valid()
      reads this
    {
      rows.Keys == world.cases.Keys && StoreContract(world) && RunnerContract(world)
    }

    function Now(): Snapshot
      reads this, audit
    {
      Snapshot(rows, scored, untrusted, audit.Value())
    }

    /** A unit not yet processed. */
    ghost predicate Pristine(ids: seq<CaseId>)
      reads this
    {
      forall id | id in ids :: id in rows && id in world.cases && rows[id] == FirstRow(world.cases[id]) && id !in scored
    }

    /** The audit starts with the attempt files of all cases as persisted, and those of unreadable histories
        as untrusted. */
    constructor (world: World, order: seq<CaseId>)
      requires StoreContract(world) && RunnerContract(world) && Known(world, order)
      ensures Valid() && this.world == world && fresh(audit) && audit.Value() == BLANK
      ensures rows == (map id | id in world.cases :: FirstRow(world.cases[id])) && scored == map[]
      ensures persisted == FilesOf(world, order, false) && untrusted == FilesOf(world, order, true)
    {
      this.world := world;
      audit := new AttemptAudit();
      rows := map id | id in world.cases :: FirstRow(world.cases[id]);
      scored := map[];
      persisted := FilesOf(world, order, false);
      untrusted := FilesOf(world, order, true);
    }

    /** _set_corrupt */
    method SetCorrupt(id: CaseId, problem: Problem)
      requires id in rows
      modifies this`rows
      ensures rows == old(rows)[id := CorruptRow(old(rows)[id], problem)]
    {
      rows := rows[id := CorruptRow(rows[id], problem)];
    }

    /** The loop over the cases behind the trusted prefix. */
    method SettleSuffix(ids: seq<CaseId>, length: nat, rejected: bool)
      requires Valid() && Known(world, ids) && Distinct(ids) && Pristine(ids)
      requires length == TrustedLength(world, ids) <= |ids| && rejected == Rejected(world, ids)
      requires HistoriesNotEmpty(HistoriesOf(world, ids))
      modifies this`rows, this`untrusted
      ensures Valid()
      ensures rows == Overlay(old(rows), ids, SettledRows(world, ids), length, |ids|)
      ensures untrusted == old(untrusted) + UntrustedCount(world, ids, |ids|) - UntrustedCount(world, ids, length)
    {
      hide TrustedLength, HistoriesOf, Rejected, SettledRow, StoreContract, RunnerContract, HistoriesNotEmpty, UntrustedIn,
           SuffixRow, FirstRow, Overlay;
      ghost var settled := SettledRows(world, ids);
      assert Overlay(rows, ids, settled, length, length) == rows by { OverlayStep(rows, ids, settled, length, length); }
      var j := length;
      while j < |ids|
        invariant length <= j <= |ids| && Valid()
        invariant rows == Overlay(old(rows), ids, settled, length, j)
        invariant untrusted == old(untrusted) + UntrustedCount(world, ids, j) - UntrustedCount(world, ids, length)
      {
        var id := ids[j];
        var c := world.cases[id];
        OverlayOther(old(rows), ids, settled, length, j, id);
        OverlayStep(old(rows), ids, settled, length, j + 1);
        SuffixSettled(world, ids, j);
        ghost var before := rows;
        if c.readable && c.attempts > 0 {
          SetCorrupt(id, if rejected && j == length then InvalidRunnerHistory else UntrustedSessionPredecessor);
          untrusted := untrusted + c.attempts;
        }
        assert rows == before[id := settled[j]];
        j := j + 1;
      }
    }

    /** One case of the trusted prefix: its attempts go into its row and into the audit together. */
    method SettleTrusted(ids: seq<CaseId>, j: nat, histories: map<CaseId, History>) returns (ok: bool)
      requires Valid() && Known(world, ids) && Distinct(ids)
      requires histories == HistoriesOf(world, ids) && HistoriesNotEmpty(histories)
      requires j < TrustedLength(world, ids) && j < |ids|
      requires rows[ids[j]] == FirstRow(world.cases[ids[j]])
      modifies this, audit
      ensures Valid()
      ensures match TrustedStep(world, ids, j, old(Now()))
              case Some(next) => ok && Now() == next
              case None => !ok
    {
      hide TrustedLength, HistoriesOf, Rejected, Folded, StoreContract, RunnerContract;
      NothingFolded(audit.Value());
      var id := ids[j];
      var c, proof := world.cases[id], world.proofs[id];
      if id !in histories {
        if c.attempts > 0 {
          SetCorrupt(id, MissingValidatedHistory);
          untrusted := untrusted + c.attempts;
        }
        return true;
      }
      var h := histories[id];
      if |h.attempts| != c.attempts {
        SetCorrupt(id, AttemptCountMismatch);
        untrusted := untrusted + c.attempts;
        return true;
      }
      ok := audit.AddAttempts(h.attempts);
      if !ok {
        return;
      }
      rows := rows[id := rows[id].(trustedCount := |h.attempts|, attempts := RowsOf(h.attempts))];
      var row := VerdictRow(id, c, h, proof, rows[id]);
      rows := rows[id := row];
      if row.record.Some? {
        scored := scored[id := row.record.value];
      }
    }

    /** The loop over the trusted prefix. */
    method SettlePrefix(ids: seq<CaseId>, length: nat, histories: map<CaseId, History>) returns (ok: bool)
      requires Valid() && Known(world, ids) && Distinct(ids)
      requires length == TrustedLength(world, ids) <= |ids|
      requires histories == HistoriesOf(world, ids) && HistoriesNotEmpty(histories)
      requires forall j: nat | j < length :: rows[ids[j]] == FirstRow(world.cases[ids[j]])
      modifies this, audit
      ensures Valid()
      ensures match TrustedSteps(world, ids, 0, length, old(Now()))
              case Some(next) => ok && Now() == next
              case None => !ok
    {
      hide TrustedLength, HistoriesOf, TrustedStep, FirstRow, StoreContract, RunnerContract;
      var j := 0;
      while j < length
        invariant j <= length && Valid()
        invariant forall k: nat | j <= k < length :: rows[ids[k]] == FirstRow(world.cases[ids[k]])
        invariant TrustedSteps(world, ids, 0, length, old(Now())) == TrustedSteps(world, ids, j, length, Now())
      {
        OnlyOneRow(world, ids, j, Now());
        ok := SettleTrusted(ids, j, histories);
        if !ok {
          return;
        }
        j := j + 1;
      }
      ok := true;
    }

    /** The last pass over a session: whatever follows a corrupt turn is withdrawn. */
    method WithdrawFollowers(u: Unit, length: nat)
      requires Valid() && Known(world, u.cases) && Distinct(u.cases) && HistoriesNotEmpty(HistoriesOf(world, u.cases))
      requires u.session && length == TrustedLength(world, u.cases) <= |u.cases|
      requires forall j: nat | j < length :: rows[u.cases[j]] == SettledRow(world, u.cases, j)
      modifies this`rows, this`scored
      ensures Valid()
      ensures rows == Overlay(old(rows), u.cases, FinalRows(world, u), 0, length)
      ensures scored == WithoutWithdrawn(old(scored), world, u, length)
    {
      hide TrustedLength, HistoriesOf, Rejected, SettledRow, FinalRow, CorruptBefore, Distinct, Overlay, CorruptRow,
           StoreContract, RunnerContract, HistoriesNotEmpty;
      var ids := u.cases;
      ghost var final := FinalRows(world, u);
      OverlayNothing(rows, ids, final);
      CorruptBeforeNothing(world, ids);
      var predecessorCorrupt := false;
      var j := 0;
      while j < length
        invariant j <= length && Valid()
        invariant predecessorCorrupt == CorruptBefore(world, ids, j)
        invariant rows == Overlay(old(rows), ids, final, 0, j)
        invariant scored == WithoutWithdrawn(old(scored), world, u, j)
      {
        var id := ids[j];
        OverlayNext(old(rows), ids, final, j);
        assert rows[id] == SettledRow(world, ids, j);
        CorruptBeforeNext(world, ids, j);
        FinalRowIs(world, u, j);
        assert final[j] == FinalRow(world, u, j);
        if predecessorCorrupt && rows[id].attemptCount > 0 {
          scored := scored - {id};
          SetCorrupt(id, UntrustedSessionPredecessor);
        } else if rows[id].status.Corrupt? {
          predecessorCorrupt := true;
        }
        assert rows == Overlay(old(rows), ids, final, 0, j)[id := final[j]];
        j := j + 1;
      }
    }

    /** The two loops over the cases of a work unit. */
    method SettleCases(ids: seq<CaseId>, histories: map<CaseId, History>, length: nat, rejected: bool) returns (ok: bool)
      requires Valid() && Known(world, ids) && Distinct(ids) && Pristine(ids)
      requires length == TrustedLength(world, ids) <= |ids| && rejected == Rejected(world, ids)
      requires histories == HistoriesOf(world, ids) && HistoriesNotEmpty(histories)
      modifies this, audit
      ensures Valid()
      ensures match TrustedSteps(world, ids, 0, length, AfterSuffix(world, ids, old(Now())))
              case Some(next) => ok && Now() == next && forall j: nat | j < length :: rows[ids[j]] == SettledRow(world, ids, j)
              case None => !ok
    {
      hide TrustedLength, HistoriesOf, Rejected, TrustedSteps, StoreContract, RunnerContract, Overlay, FirstRow,
           UntrustedCount, HistoriesNotEmpty, SettledRow, Folded;
      SuffixKeepsPrefix(world, ids, Now());
      ghost var suffix := AfterSuffix(world, ids, Now());
      PrefixRowsSettled(world, ids, length, suffix);
      SettleSuffix(ids, length, rejected);
      assert Now() == suffix;
      hide Pristine, Distinct;
      ok := SettlePrefix(ids, length, histories);
    }

    /** One work unit.  false stands for the contract error an environment conflict raises, which
        abandons the whole aggregation. */
    method ProcessUnit(u: Unit) returns (ok: bool)
      requires Valid() && Known(world, u.cases) && Distinct(u.cases) && Pristine(u.cases)
      modifies this, audit
      ensures Valid()
      ensures HistoriesNotEmpty(HistoriesOf(world, u.cases))
      ensures match UnitStep(world, u, old(Now()))
              case Some(next) => ok && Now() == next
              case None => !ok
    {
      HistoriesFromRunner(world, u.cases);
      PrefixHoldsAll(world, u.cases);
      var histories, length, rejected := TrustPrefix(world, u.cases);
      ok := SettleCases(u.cases, histories, length, rejected);
      hide *;
      if ok && u.session {
        WithdrawFollowers(u, length);
      }
    }

    /** The loop over all work units, which raises as a whole when one of them does. */
    method Aggregate(units: seq<Unit>) returns (ok: bool)
      requires Valid() && UnitsKnown(world, units) && Distinct(Flat(units)) && Pristine(Flat(units))
      modifies this, audit
      ensures Valid() && Histories(world, units)
      ensures match UnitSteps(world, units, old(Now()))
              case Some(next) => ok && Now() == next
              case None => !ok
    {
      var i := 0;
      ghost var start := Now();
      HistoriesOfAll(world, units);
      while i < |units|
        invariant i <= |units| && Valid()
        invariant UnitsKnown(world, units[i..]) && Histories(world, units[i..])
        invariant Distinct(Flat(units[i..])) && Pristine(Flat(units[i..]))
        invariant UnitSteps(world, units, start) == UnitSteps(world, units[i..], Now())
      {
        assert units[i..][0] == units[i] && units[i..][1..] == units[i + 1..];
        FlatFront(units[i..]);
        UnitOutcome(world, units[i], Now());
        hide HistoriesNotEmpty, HistoriesOf, UnitStep, FinalRow, RecordsSettled, Folded, FirstRow, StoreContract, RunnerContract;
        ghost var before := Now();
        ok := ProcessUnit(units[i]);
        if !ok {
          return;
        }
        OthersStay(world, units[i], before, Now(), Flat(units[i + 1..]));
        i := i + 1;
      }
      ok := true;
    }
  }

  /** The aggregation from its start: rows of all cases, a blank audit, and the files of unreadable histories
      counted as untrusted; false when it raises. */
  method AggregateExperiment(w: World, order: seq<CaseId>, units: seq<Unit>) returns (ok: bool, result: Aggregator)
    requires StoreContract(w) && RunnerContract(w) && UnitsKnown(w, units) && Distinct(Flat(units))
    requires multiset(order) == multiset(Flat(units)) && Known(w, order)
    ensures fresh(result) && Histories(w, units)
    ensures ok <==> Folded(BLANK, AllTrusted(w, units)).Some?
    ensures ok ==>
              && Folded(BLANK, AllTrusted(w, units)) == Some(result.audit.Value())
              && AllRowsSettled(w, units, map id | id in w.cases :: FirstRow(w.cases[id]), result.rows)
              && AllRecordsSettled(w, units, map[], result.scored)
              && result.persisted == FilesOf(w, order, false)
              && ((forall id | id in order :: FilesRead(w.cases[id])) ==>
                    At(result.audit.Value().cells, TrustedAttempts) + (result.untrusted as real) == result.persisted as real)
  {
    result := new Aggregator(w, order);
    HistoriesOfAll(w, units);
    forall id | id in Flat(units) ensures id in w.cases {
      assert id in multiset(order);
    }
    AggregationOutcome(w, units, result.Now());
    AggregationAccountsForAttempts(w, units, order, result.Now());
    hide HistoriesNotEmpty, HistoriesOf, UnitSteps, Folded, FirstRow, StoreContract, RunnerContract, AllRowsSettled, AllRecordsSettled,
         FilesOf, FilesRead, AllTrusted, AttemptsRead, ReadableFiles, Distinct;
    ok := result.Aggregate(units);
  }

  // ----- the trusted prefix as a value -----

  /** Everything the loop writes. */
  datatype Snapshot = Snapshot(rows: map<CaseId, Row>, scored: map<CaseId, ScoredRecord>, untrusted: int, ledger: Ledger)

  /** One case of the trusted prefix; None when the audit finds an environment conflict. */
  function TrustedStep(w: World, ids: seq<CaseId>, j: nat, s: Snapshot): Option<Snapshot>
    requires Known(w, ids) && j < |ids| && HistoriesNotEmpty(HistoriesOf(w, ids))
  {
    var row := SettledRow(w, ids, j);
    match Folded(s.ledger, TrustedIn(w, ids, j))
    case None => None
    case Some(ledger) =>
      Some(Snapshot(s.rows[ids[j] := row], if row.record.Some? then s.scored[ids[j] := row.record.value] else s.scored,
                    s.untrusted + UntrustedIn(w, ids, j), ledger))
  }

  function TrustedSteps(w: World, ids: seq<CaseId>, lo: nat, hi: nat, s: Snapshot): Option<Snapshot>
    requires Known(w, ids) && lo <= hi <= |ids| && HistoriesNotEmpty(HistoriesOf(w, ids))
    decreases hi - lo
  {
    if lo == hi then Some(s)
    else match TrustedStep(w, ids, lo, s)
      case None => None
      case Some(next) => TrustedSteps(w, ids, lo + 1, hi, next)
  }

  lemma OnlyOneRow(w: World, ids: seq<CaseId>, j: nat, s: Snapshot)
    requires Known(w, ids) && j < |ids| && HistoriesNotEmpty(HistoriesOf(w, ids)) && Distinct(ids)
    ensures TrustedStep(w, ids, j, s).Some? ==>
              forall k: nat | j < k < |ids| && ids[k] in s.rows ::
                ids[k] in TrustedStep(w, ids, j, s).value.rows && TrustedStep(w, ids, j, s).value.rows[ids[k]] == s.rows[ids[k]]
  {
    hide SettledRow, HistoriesOf, Folded;
  }

  lemma {:induction false} StepsSnoc(w: World, ids: seq<CaseId>, lo: nat, hi: nat, s: Snapshot)
    requires Known(w, ids) && lo <= hi < |ids| && HistoriesNotEmpty(HistoriesOf(w, ids))
    ensures TrustedSteps(w, ids, lo, hi + 1, s) ==
            (match TrustedSteps(w, ids, lo, hi, s) case None => None case Some(t) => TrustedStep(w, ids, hi, t))
    decreases hi - lo
  {
    hide TrustedStep, HistoriesOf;
    if lo < hi && TrustedStep(w, ids, lo, s).Some? {
      StepsSnoc(w, ids, lo + 1, hi, TrustedStep(w, ids, lo, s).value);
    } else if lo == hi && TrustedStep(w, ids, lo, s).Some? {
      assert TrustedSteps(w, ids, lo + 1, hi + 1, TrustedStep(w, ids, lo, s).value) == TrustedStep(w, ids, lo, s);
    }
  }

  /** The whole prefix at once: it fails exactly when folding its attempts does, and otherwise settles
      the rows, the records and the count of every case in it. */
  lemma {:induction false} PrefixOutcome(w: World, ids: seq<CaseId>, n: nat, s: Snapshot)
    requires Known(w, ids) && n <= |ids| && HistoriesNotEmpty(HistoriesOf(w, ids))
    ensures TrustedSteps(w, ids, 0, n, s) ==
            match Folded(s.ledger, TrustedAttemptsOf(w, ids, n))
            case None => None
            case Some(ledger) =>
              Some(Snapshot(Overlay(s.rows, ids, SettledRows(w, ids), 0, n), WithRecords(s.scored, ids, SettledRows(w, ids), n),
                            s.untrusted + UntrustedCount(w, ids, n), ledger))
  {
    hide SettledRow, HistoriesOf, Folded, TrustedIn, UntrustedIn;
    if n == 0 {
      NothingFolded(s.ledger);
    } else {
      PrefixOutcome(w, ids, n - 1, s);
      StepsSnoc(w, ids, 0, n - 1, s);
      FoldedAppend(s.ledger, TrustedAttemptsOf(w, ids, n - 1), TrustedIn(w, ids, n - 1));
    }
  }

  lemma PrefixRowsSettled(w: World, ids: seq<CaseId>, n: nat, s: Snapshot)
    requires Known(w, ids) && n <= |ids| && Distinct(ids) && HistoriesNotEmpty(HistoriesOf(w, ids))
    requires forall id | id in ids :: id in s.rows
    ensures TrustedSteps(w, ids, 0, n, s).Some? ==>
              forall j: nat | j < n :: ids[j] in TrustedSteps(w, ids, 0, n, s).value.rows &&
                TrustedSteps(w, ids, 0, n, s).value.rows[ids[j]] == SettledRow(w, ids, j)
  {
    PrefixOutcome(w, ids, n, s);
    OverlayAt(s.rows, ids, SettledRows(w, ids), 0, n);
    hide TrustedSteps, Folded, SettledRow, HistoriesOf, Overlay, WithRecords;
  }

  // ----- a whole unit as a value -----

  /** The cases behind the trusted prefix are settled first. */
  function AfterSuffix(w: World, ids: seq<CaseId>, s: Snapshot): Snapshot
    requires Known(w, ids) && HistoriesNotEmpty(HistoriesOf(w, ids))
  {
    var length := TrustedLength(w, ids);
    s.(rows := Overlay(s.rows, ids, SettledRows(w, ids), length, |ids|),
       untrusted := s.untrusted + UntrustedCount(w, ids, |ids|) - UntrustedCount(w, ids, length))
  }

  lemma SuffixKeepsPrefix(w: World, ids: seq<CaseId>, s: Snapshot)
    requires Known(w, ids) && HistoriesNotEmpty(HistoriesOf(w, ids)) && Distinct(ids)
    requires forall id | id in ids :: id in s.rows && s.rows[id] == FirstRow(w.cases[id])
    ensures forall id | id in ids :: id in AfterSuffix(w, ids, s).rows
    ensures forall j: nat | j < TrustedLength(w, ids) :: AfterSuffix(w, ids, s).rows[ids[j]] == FirstRow(w.cases[ids[j]])
  {
    OverlayAt(s.rows, ids, SettledRows(w, ids), TrustedLength(w, ids), |ids|);
    hide TrustedLength, HistoriesOf, SettledRow, FirstRow, Overlay, UntrustedCount;
  }

  /** One round of the unit loop; None when it raises. */
  function UnitStep(w: World, u: Unit, s: Snapshot): Option<Snapshot>
    requires Known(w, u.cases) && HistoriesNotEmpty(HistoriesOf(w, u.cases))
  {
    var ids, length := u.cases, TrustedLength(w, u.cases);
    match TrustedSteps(w, ids, 0, length, AfterSuffix(w, ids, s))
    case None => None
    case Some(t) =>
      if !u.session then Some(t)
      else Some(t.(rows := Overlay(t.rows, ids, FinalRows(w, u), 0, length), scored := WithoutWithdrawn(t.scored, w, u, length)))
  }

  /** A case whose unit has not been processed. */
  predicate Untouched(w: World, ids: seq<CaseId>, s: Snapshot) {
    forall id | id in ids :: id in s.rows && id in w.cases && s.rows[id] == FirstRow(w.cases[id]) && id !in s.scored
  }

  /** The rows after a unit: its own cases have their final row, all others keep theirs. */
  ghost predicate RowsSettled(w: World, u: Unit, before: map<CaseId, Row>, after: map<CaseId, Row>)
    requires Known(w, u.cases) && HistoriesNotEmpty(HistoriesOf(w, u.cases))
  {
    && (forall id | id in before && id !in u.cases :: id in after && after[id] == before[id])
    && (forall j: nat | j < |u.cases| :: u.cases[j] in after && after[u.cases[j]] == FinalRow(w, u, j))
  }

  /** The scored records after a unit: of its own cases exactly those whose final row carries one. */
  ghost predicate RecordsSettled(w: World, u: Unit, before: map<CaseId, ScoredRecord>, after: map<CaseId, ScoredRecord>)
    requires Known(w, u.cases) && HistoriesNotEmpty(HistoriesOf(w, u.cases))
  {
    && (forall id | id !in u.cases :: id in after <==> id in before)
    && (forall id | id in before && id !in u.cases :: after[id] == before[id])
    && (forall j: nat | j < |u.cases| ::
          if FinalRow(w, u, j).record.Some? then u.cases[j] in after && after[u.cases[j]] == FinalRow(w, u, j).record.value
          else u.cases[j] !in after)
  }

  /** What one round of the loop does: it fails exactly when folding the unit's trusted attempts does, and
      otherwise folds those, counts the other attempts as untrusted, and settles rows and records. */
  lemma UnitOutcome(w: World, u: Unit, s: Snapshot)
    requires Known(w, u.cases) && HistoriesNotEmpty(HistoriesOf(w, u.cases)) && Distinct(u.cases) && Untouched(w, u.cases, s)
    ensures match UnitStep(w, u, s)
            case None => Folded(s.ledger, TrustedAttemptsOf(w, u.cases, |u.cases|)).None?
            case Some(t) =>
              && Folded(s.ledger, TrustedAttemptsOf(w, u.cases, |u.cases|)) == Some(t.ledger)
              && t.untrusted == s.untrusted + UntrustedCount(w, u.cases, |u.cases|)
              && RowsSettled(w, u, s.rows, t.rows)
              && RecordsSettled(w, u, s.scored, t.scored)
  {
    var ids, n := u.cases, |u.cases|;
    var length := TrustedLength(w, ids);
    PrefixHoldsAll(w, ids);
    var suffix := AfterSuffix(w, ids, s);
    PrefixOutcome(w, ids, length, suffix);
    RowsOutcome(w, u, s.rows);
    RecordsOutcome(w, u, s.scored);
    hide TrustedLength, HistoriesOf, TrustedSteps, Folded, SettledRow, Overlay, WithRecords, WithoutWithdrawn, TrustedAttemptsOf,
         UntrustedCount, RowsSettled, RecordsSettled;
  }

  // ----- all units -----

  function Flat(units: seq<Unit>): seq<CaseId> {
    if units == [] then [] else units[0].cases + Flat(units[1..])
  }

  predicate UnitsKnown(w: World, units: seq<Unit>) {
    forall u | u in units :: Known(w, u.cases)
  }

  predicate Histories(w: World, units: seq<Unit>)
    requires UnitsKnown(w, units)
  {
    forall u | u in units :: HistoriesNotEmpty(HistoriesOf(w, u.cases))
  }

  lemma DistinctParts(a: seq<CaseId>, b: seq<CaseId>)
    requires Distinct(a + b)
    ensures Distinct(a) && Distinct(b)
    ensures forall id | id in a :: id !in b
  {
    var s := a + b;
    assert forall i | 0 <= i < |a| :: s[i] == a[i];
    forall i, j | 0 <= i < j < |b| ensures b[i] != b[j] {
      assert s[|a| + i] == b[i] && s[|a| + j] == b[j];
    }
    forall i, j | 0 <= i < |a| && 0 <= j < |b| ensures a[i] != b[j] {
      assert s[|a| + j] == b[j];
    }
  }

  lemma FlatFront(units: seq<Unit>)
    requires units != [] && Distinct(Flat(units))
    ensures Distinct(units[0].cases) && Distinct(Flat(units[1..]))
    ensures forall id | id in units[0].cases :: id in Flat(units) && id !in Flat(units[1..])
    ensures forall id | id in Flat(units[1..]) :: id in Flat(units)
  {
    assert Flat(units) == units[0].cases + Flat(units[1..]);
    DistinctParts(units[0].cases, Flat(units[1..]));
    hide Flat, Distinct;
  }

  lemma OthersStay(w: World, u: Unit, before: Snapshot, after: Snapshot, ids: seq<CaseId>)
    requires Known(w, u.cases) && HistoriesNotEmpty(HistoriesOf(w, u.cases))
    requires RowsSettled(w, u, before.rows, after.rows) && RecordsSettled(w, u, before.scored, after.scored)
    requires Untouched(w, ids, before) && forall id | id in ids :: id !in u.cases
    ensures Untouched(w, ids, after)
  {
    hide HistoriesOf, FinalRow, FirstRow;
  }

  function UnitSteps(w: World, units: seq<Unit>, s: Snapshot): Option<Snapshot>
    requires UnitsKnown(w, units) && Histories(w, units)
    decreases |units|
  {
    if units == [] then Some(s)
    else match UnitStep(w, units[0], s)
      case None => None
      case Some(next) => UnitSteps(w, units[1..], next)
  }

  /** The trusted attempts of all units, in the order the aggregation folds them. */
  function AllTrusted(w: World, units: seq<Unit>): seq<Attempt>
    requires UnitsKnown(w, units)
  {
    if units == [] then [] else TrustedAttemptsOf(w, units[0].cases, |units[0].cases|) + AllTrusted(w, units[1..])
  }

  function AllUntrusted(w: World, units: seq<Unit>): nat
    requires UnitsKnown(w, units)
  {
    if units == [] then 0 else UntrustedCount(w, units[0].cases, |units[0].cases|) + AllUntrusted(w, units[1..])
  }

  /** Every case of the units has its final row, all others keep theirs. */
  ghost predicate AllRowsSettled(w: World, units: seq<Unit>, before: map<CaseId, Row>, after: map<CaseId, Row>)
    requires UnitsKnown(w, units) && Histories(w, units)
  {
    && (forall id | id in before && id !in Flat(units) :: id in after && after[id] == before[id])
    && (forall k: nat, j: nat | k < |units| && j < |units[k].cases| ::
          units[k].cases[j] in after && after[units[k].cases[j]] == FinalRow(w, units[k], j))
  }

  ghost predicate AllRecordsSettled(w: World, units: seq<Unit>, before: map<CaseId, ScoredRecord>, after: map<CaseId, ScoredRecord>)
    requires UnitsKnown(w, units) && Histories(w, units)
  {
    && (forall id | id !in Flat(units) :: id in after <==> id in before)
    && (forall id | id in before && id !in Flat(units) :: after[id] == before[id])
    && (forall k: nat, j: nat | k < |units| && j < |units[k].cases| ::
          if FinalRow(w, units[k], j).record.Some?
          then units[k].cases[j] in after && after[units[k].cases[j]] == FinalRow(w, units[k], j).record.value
          else units[k].cases[j] !in after)
  }

  /** Main theorem: the aggregation fails exactly when two trusted attempts disagree about one environment.
      Otherwise its audit is the fold of all trusted attempts, every other attempt it read is counted as
      untrusted, and rows and scored records are those of the trust rule. */
  lemma {:induction false} AggregationOutcome(w: World, units: seq<Unit>, s: Snapshot)
    requires UnitsKnown(w, units) && Histories(w, units) && Distinct(Flat(units))
    requires Untouched(w, Flat(units), s)
    ensures match UnitSteps(w, units, s)
            case None => Folded(s.ledger, AllTrusted(w, units)).None?
            case Some(t) =>
              && Folded(s.ledger, AllTrusted(w, units)) == Some(t.ledger)
              && t.untrusted == s.untrusted + AllUntrusted(w, units)
              && AllRowsSettled(w, units, s.rows, t.rows)
              && AllRecordsSettled(w, units, s.scored, t.scored)
    decreases |units|
  {
    if units == [] {
      NothingFolded(s.ledger);
    } else {
      var u, rest := units[0], units[1..];
      FlatFront(units);
      UnitOutcome(w, u, s);
      FoldedAppend(s.ledger, TrustedAttemptsOf(w, u.cases, |u.cases|), AllTrusted(w, rest));
      if UnitStep(w, u, s).Some? {
        var mid := UnitStep(w, u, s).value;
        OthersStay(w, u, s, mid, Flat(rest));
        AggregationOutcome(w, rest, mid);
        if UnitSteps(w, rest, mid).Some? {
          var t := UnitSteps(w, rest, mid).value;
          RowsCompose(w, units, s.rows, mid.rows, t.rows);
          RecordsCompose(w, units, s.scored, mid.scored, t.scored);
        }
      }
      hide HistoriesNotEmpty, HistoriesOf, UnitStep, FinalRow, Folded, FirstRow, TrustedAttemptsOf, UntrustedCount,
           RowsSettled, RecordsSettled, AllRowsSettled, AllRecordsSettled, Untouched, Distinct;
    }
  }

  lemma RowsCompose(w: World, units: seq<Unit>, before: map<CaseId, Row>, mid: map<CaseId, Row>, after: map<CaseId, Row>)
    requires units != [] && UnitsKnown(w, units) && Histories(w, units) && Distinct(Flat(units))
    requires RowsSettled(w, units[0], before, mid) && AllRowsSettled(w, units[1..], mid, after)
    ensures AllRowsSettled(w, units, before, after)
  {
    hide HistoriesOf, FinalRow, HistoriesNotEmpty, Distinct, Known;
    FlatFront(units);
    forall k: nat, j: nat | k < |units| && j < |units[k].cases|
      ensures units[k].cases[j] in after && after[units[k].cases[j]] == FinalRow(w, units[k], j)
    {
      if k > 0 {
        assert units[1..][k - 1] == units[k];
      }
    }
  }

  lemma RecordsCompose(w: World, units: seq<Unit>, before: map<CaseId, ScoredRecord>, mid: map<CaseId, ScoredRecord>,
                       after: map<CaseId, ScoredRecord>)
    requires units != [] && UnitsKnown(w, units) && Histories(w, units) && Distinct(Flat(units))
    requires RecordsSettled(w, units[0], before, mid) && AllRecordsSettled(w, units[1..], mid, after)
    ensures AllRecordsSettled(w, units, before, after)
  {
    hide HistoriesOf, FinalRow, HistoriesNotEmpty, Distinct, Known;
    FlatFront(units);
    forall k: nat, j: nat | k < |units| && j < |units[k].cases|
      ensures if FinalRow(w, units[k], j).record.Some?
              then units[k].cases[j] in after && after[units[k].cases[j]] == FinalRow(w, units[k], j).record.value
              else units[k].cases[j] !in after
    {
      if k > 0 {
        assert units[1..][k - 1] == units[k];
      }
    }
  }

  // ----- recomputing the audit from published rows -----

  datatype CatalogEntry = CatalogEntry(environment: string, digest: EnvironmentDigest)

  /** The environment catalog a finished audit publishes. */
  function CatalogOf(l: Ledger): map<string, CatalogEntry> {
    map f | f in l.environments :: CatalogEntry(l.environments[f], Sha256(l.environments[f]))
  }

  /** The attempt a published row stands for; None when its environment is missing or its digest differs. */
  function Restored(row: AttemptRow, catalog: map<string, CatalogEntry>): Option<Attempt> {
    if row.facts.fingerprint !in catalog then None
    else
      var entry := catalog[row.facts.fingerprint];
      var digest := Sha256(entry.environment);
      if row.environmentDigest != digest || entry.digest != digest then None
      else Some(row.facts.(environment := entry.environment))
  }

  function RestoredAll(rows: seq<AttemptRow>, catalog: map<string, CatalogEntry>): Option<seq<Attempt>> {
    if rows == [] then Some([])
    else match Restored(rows[0], catalog)
      case None => None
      case Some(a) =>
        match RestoredAll(rows[1..], catalog)
        case None => None
        case Some(rest) => Some([a] + rest)
  }

  /** The attempt rows of cases, in the given order of cases. */
  function AttemptRowsOf(ids: seq<CaseId>, rows: map<CaseId, Row>): seq<AttemptRow>
    requires forall id | id in ids :: id in rows
  {
    if ids == [] then [] else rows[ids[0]].attempts + AttemptRowsOf(ids[1..], rows)
  }

  /** Restoring and folding row by row. */
  function Recomputed(rows: seq<AttemptRow>, catalog: map<string, CatalogEntry>, l: Ledger): Option<Ledger>
    decreases |rows|
  {
    if rows == [] then Some(l)
    else match Restored(rows[0], catalog)
      case None => None
      case Some(a) =>
        match Added(l, a)
        case None => None
        case Some(next) => Recomputed(rows[1..], catalog, next)
  }

  /** The audit rebuilt from published attempt rows against a published catalog. */
  method RecomputeAudit(attempts: seq<AttemptRow>, catalog: map<string, CatalogEntry>) returns (ok: bool, audit: AttemptAudit)
    ensures fresh(audit)
    ensures match Recomputed(attempts, catalog, BLANK)
            case Some(l) => ok && audit.Value() == l
            case None => !ok
  {
    hide Restored, Added;
    audit := new AttemptAudit();
    var i := 0;
    while i < |attempts|
      invariant i <= |attempts| && fresh(audit)
      invariant Recomputed(attempts, catalog, BLANK) == Recomputed(attempts[i..], catalog, audit.Value())
    {
      assert attempts[i..][0] == attempts[i] && attempts[i..][1..] == attempts[i + 1..];
      var next := Restored(attempts[i], catalog);
      if next.None? {
        return false, audit;
      }
      ok := audit.AddAttempt(next.value);
      if !ok {
        return;
      }
      i := i + 1;
    }
    ok := true;
  }

  lemma {:induction false} RecomputedIsFold(rows: seq<AttemptRow>, catalog: map<string, CatalogEntry>, l: Ledger)
    ensures Recomputed(rows, catalog, l) ==
            match RestoredAll(rows, catalog)
            case None => None
            case Some(attempts) => Folded(l, attempts)
    decreases |rows|
  {
    hide Restored, Added;
    if rows == [] {
      NothingFolded(l);
    } else if Restored(rows[0], catalog).Some? {
      var a := Restored(rows[0], catalog).value;
      if Added(l, a).Some? {
        RecomputedIsFold(rows[1..], catalog, Added(l, a).value);
      }
      if RestoredAll(rows[1..], catalog).Some? {
        FoldedCons(l, a, RestoredAll(rows[1..], catalog).value);
      }
    }
  }

  lemma {:induction false} RowsRestore(attempts: seq<Attempt>, catalog: map<string, CatalogEntry>)
    requires forall a | a in attempts ::
               a.fingerprint in catalog && catalog[a.fingerprint] == CatalogEntry(a.environment, Sha256(a.environment))
    ensures RestoredAll(RowsOf(attempts), catalog) == Some(attempts)
  {
    if attempts != [] {
      assert attempts[0] in attempts;
      RowsRestore(attempts[1..], catalog);
      assert RowsOf(attempts)[1..] == RowsOf(attempts[1..]);
      assert [attempts[0]] + attempts[1..] == attempts;
    }
  }

  lemma {:induction false} RowsOfAppend(a: seq<Attempt>, b: seq<Attempt>)
    ensures RowsOf(a + b) == RowsOf(a) + RowsOf(b)
  {
    if a == [] {
      assert a + b == b;
    } else {
      assert (a + b)[1..] == a[1..] + b;
      RowsOfAppend(a[1..], b);
    }
  }

  lemma {:induction false} RestoredAppend(a: seq<AttemptRow>, b: seq<AttemptRow>, catalog: map<string, CatalogEntry>)
    ensures RestoredAll(a + b, catalog) ==
            match (RestoredAll(a, catalog), RestoredAll(b, catalog))
            case (Some(x), Some(y)) => Some(x + y)
            case _ => None
  {
    hide Restored;
    if a == [] {
      assert a + b == b;
      assert RestoredAll(b, catalog).Some? ==> [] + RestoredAll(b, catalog).value == RestoredAll(b, catalog).value;
    } else {
      assert (a + b)[1..] == a[1..] + b;
      RestoredAppend(a[1..], b, catalog);
      if Restored(a[0], catalog).Some? && RestoredAll(a[1..], catalog).Some? && RestoredAll(b, catalog).Some? {
        var x, y, h := RestoredAll(a[1..], catalog).value, RestoredAll(b, catalog).value, Restored(a[0], catalog).value;
        assert [h] + (x + y) == ([h] + x) + y;
      }
    }
  }

  lemma RestoredOne(row: AttemptRow, catalog: map<string, CatalogEntry>)
    ensures RestoredAll([row], catalog) == match Restored(row, catalog) case None => None case Some(a) => Some([a])
  {
    hide Restored;
    assert [row][1..] == [];
    assert Restored(row, catalog).Some? ==> [Restored(row, catalog).value] + [] == [Restored(row, catalog).value];
  }

  lemma NothingRestored(catalog: map<string, CatalogEntry>)
    ensures RestoredAll([], catalog) == Some([])
  {
  }

  /** Rows in another order stand for the same attempts in another order. */
  lemma {:induction false} RestoredPermutes(a: seq<AttemptRow>, b: seq<AttemptRow>, catalog: map<string, CatalogEntry>)
    requires multiset(a) == multiset(b) && RestoredAll(a, catalog).Some?
    ensures RestoredAll(b, catalog).Some?
    ensures multiset(RestoredAll(a, catalog).value) == multiset(RestoredAll(b, catalog).value)
    decreases |a|
  {
    hide Restored, RestoredAll;
    if a == [] {
      assert |multiset(b)| == 0;
      assert b == [];
      NothingRestored(catalog);
    } else {
      var k := SplitAtMember(a, b);
      var one, left, right := [a[0]], b[..k], b[k + 1..];
      assert a == one + a[1..] && b == left + (one + right);
      RestoredOne(a[0], catalog);
      RestoredAppend(one, a[1..], catalog);
      RestoredPermutes(a[1..], left + right, catalog);
      RestoredAppend(left, right, catalog);
      RestoredAppend(one, right, catalog);
      RestoredAppend(left, one + right, catalog);
      MiddleToFront(RestoredAll(left, catalog).value, Restored(a[0], catalog).value, RestoredAll(right, catalog).value);
    }
  }

  lemma MiddleToFront<T>(l: seq<T>, h: T, r: seq<T>)
    ensures multiset(l + ([h] + r)) == multiset([h] + (l + r))
  {
    assert multiset(l + ([h] + r)) == multiset(l) + multiset([h]) + multiset(r);
    assert multiset([h] + (l + r)) == multiset([h]) + (multiset(l) + multiset(r));
  }

  /** Whatever order rows are published in, as long as they are the rows of exactly the attempts that were
      folded, the recomputed audit is the one built during aggregation. */
  lemma RecomputedAuditAgrees(folded: seq<Attempt>, published: seq<AttemptRow>, l: Ledger)
    requires Folded(BLANK, folded) == Some(l) && multiset(published) == multiset(RowsOf(folded))
    ensures Recomputed(published, CatalogOf(l), BLANK) == Some(l)
  {
    FoldFailsOnConflict(BLANK, folded);
    forall a | a in folded ensures a.fingerprint in CatalogOf(l) &&
      CatalogOf(l)[a.fingerprint] == CatalogEntry(a.environment, Sha256(a.environment))
    {
      var i :| 0 <= i < |folded| && folded[i] == a;
    }
    hide Folded, OneEnvironmentEach;
    RowsRestore(folded, CatalogOf(l));
    RestoredPermutes(RowsOf(folded), published, CatalogOf(l));
    AuditIgnoresOrder(BLANK, RestoredAll(published, CatalogOf(l)).value, folded);
    RecomputedIsFold(published, CatalogOf(l), BLANK);
  }

  lemma {:induction false} AttemptRowsAppend(a: seq<CaseId>, b: seq<CaseId>, rows: map<CaseId, Row>)
    requires forall id | id in a + b :: id in rows
    ensures (forall id | id in a :: id in rows) && (forall id | id in b :: id in rows)
    ensures AttemptRowsOf(a + b, rows) == AttemptRowsOf(a, rows) + AttemptRowsOf(b, rows)
  {
    assert (forall id | id in a :: id in a + b) && (forall id | id in b :: id in a + b);
    if a == [] {
      assert a + b == b;
    } else {
      assert (a + b)[1..] == a[1..] + b;
      AttemptRowsAppend(a[1..], b, rows);
    }
  }

  lemma {:induction false} AttemptRowsPermute(a: seq<CaseId>, b: seq<CaseId>, rows: map<CaseId, Row>)
    requires multiset(a) == multiset(b) && forall id | id in a :: id in rows
    ensures forall id | id in b :: id in rows
    ensures multiset(AttemptRowsOf(a, rows)) == multiset(AttemptRowsOf(b, rows))
    decreases |a|
  {
    forall id | id in b ensures id in rows {
      assert id in multiset(b);
      assert id in a;
    }
    if a == [] {
      assert |multiset(b)| == 0;
      assert b == [];
    } else {
      var k := SplitAtMember(a, b);
      var one, left, right := [a[0]], b[..k], b[k + 1..];
      assert b == left + (one + right);
      AttemptRowsPermute(a[1..], left + right, rows);
      AttemptRowsAppend(left, right, rows);
      AttemptRowsAppend(one, right, rows);
      AttemptRowsAppend(left, one + right, rows);
      assert one[1..] == [];
      BlockToFront(AttemptRowsOf(left, rows), rows[a[0]].attempts, AttemptRowsOf(right, rows));
      assert AttemptRowsOf(one, rows) == rows[a[0]].attempts;
    }
  }

  lemma BlockToFront<T>(l: seq<T>, h: seq<T>, r: seq<T>)
    ensures multiset(l + (h + r)) == multiset(h) + multiset(l + r)
  {
    assert multiset(l + (h + r)) == multiset(l) + (multiset(h) + multiset(r));
  }

  lemma FinalAttempts(w: World, u: Unit, j: nat)
    requires StoreContract(w) && Known(w, u.cases) && HistoriesNotEmpty(HistoriesOf(w, u.cases)) && j < |u.cases|
    ensures FinalRow(w, u, j).attempts == RowsOf(TrustedIn(w, u.cases, j))
  {
    SettledShape(w, u.cases, j);
    hide HistoriesOf, SettledRow, TrustedIn, TrustedLength, CorruptBefore;
  }

  lemma AttemptRowsSnoc(ids: seq<CaseId>, n: nat, rows: map<CaseId, Row>)
    requires n < |ids| && forall id | id in ids :: id in rows
    ensures AttemptRowsOf(ids[..n + 1], rows) == AttemptRowsOf(ids[..n], rows) + rows[ids[n]].attempts
  {
    assert ids[..n + 1] == ids[..n] + [ids[n]];
    AttemptRowsAppend(ids[..n], [ids[n]], rows);
    assert AttemptRowsOf([ids[n]], rows) == rows[ids[n]].attempts + AttemptRowsOf([ids[n]][1..], rows);
  }

  lemma NoAttemptRows(rows: map<CaseId, Row>)
    ensures AttemptRowsOf([], rows) == [] && RowsOf([]) == []
  {
  }

  /** The published rows of one unit hold the rows of exactly its trusted attempts. */
  lemma {:induction false} UnitRowsHoldTrusted(w: World, u: Unit, n: nat, rows: map<CaseId, Row>)
    requires StoreContract(w) && Known(w, u.cases) && HistoriesNotEmpty(HistoriesOf(w, u.cases)) && n <= |u.cases|
    requires forall id | id in u.cases :: id in rows
    requires forall j: nat | j < |u.cases| :: rows[u.cases[j]] == FinalRow(w, u, j)
    ensures AttemptRowsOf(u.cases[..n], rows) == RowsOf(TrustedAttemptsOf(w, u.cases, n))
  {
    hide HistoriesOf, TrustedIn, FinalRow, RowsOf, StoreContract, HistoriesNotEmpty, Known, AttemptRowsOf;
    assert u.cases[..0] == [];
    if n == 0 {
      NoAttemptRows(rows);
    } else {
      UnitRowsHoldTrusted(w, u, n - 1, rows);
      FinalAttempts(w, u, n - 1);
      AttemptRowsSnoc(u.cases, n - 1, rows);
      RowsOfAppend(TrustedAttemptsOf(w, u.cases, n - 1), TrustedIn(w, u.cases, n - 1));
      assert u.cases[n - 1] in u.cases;
    }
  }

  lemma {:induction false} RowsHoldTrusted(w: World, units: seq<Unit>, rows: map<CaseId, Row>)
    requires StoreContract(w) && UnitsKnown(w, units) && Histories(w, units)
    requires forall k: nat, j: nat | k < |units| && j < |units[k].cases| ::
               units[k].cases[j] in rows && rows[units[k].cases[j]] == FinalRow(w, units[k], j)
    ensures forall id | id in Flat(units) :: id in rows
    ensures AttemptRowsOf(Flat(units), rows) == RowsOf(AllTrusted(w, units))
  {
    hide HistoriesOf, HistoriesNotEmpty, StoreContract, Known;
    if units != [] {
      var u, rest := units[0], units[1..];
      forall k: nat, j: nat | k < |rest| && j < |rest[k].cases|
        ensures rest[k].cases[j] in rows && rows[rest[k].cases[j]] == FinalRow(w, rest[k], j)
      {
        assert rest[k] == units[k + 1];
      }
      RowsHoldTrusted(w, rest, rows);
      UnitRowsHoldTrusted(w, u, |u.cases|, rows);
      assert u.cases[..|u.cases|] == u.cases;
      AttemptRowsAppend(u.cases, Flat(rest), rows);
      RowsOfAppend(TrustedAttemptsOf(w, u.cases, |u.cases|), AllTrusted(w, rest));
    }
  }

  /** Main theorem: a finished aggregation publishes case rows and an environment catalog from which anyone
      recomputes its audit, whatever order the case rows are listed in. */
  lemma PublishedRowsRecompute(w: World, units: seq<Unit>, order: seq<CaseId>, s: Snapshot)
    requires StoreContract(w) && UnitsKnown(w, units) && Histories(w, units) && Distinct(Flat(units))
    requires Untouched(w, Flat(units), s) && s.ledger == BLANK && multiset(order) == multiset(Flat(units))
    ensures match UnitSteps(w, units, s)
            case None => true
            case Some(t) =>
              && (forall id | id in order :: id in t.rows)
              && Recomputed(AttemptRowsOf(order, t.rows), CatalogOf(t.ledger), BLANK) == Some(t.ledger)
  {
    AggregationOutcome(w, units, s);
    if UnitSteps(w, units, s).Some? {
      var t := UnitSteps(w, units, s).value;
      hide UnitSteps, HistoriesOf, FinalRow, Folded, HistoriesNotEmpty, StoreContract, Known;
      RowsHoldTrusted(w, units, t.rows);
      AttemptRowsPermute(Flat(units), order, t.rows);
      RecomputedAuditAgrees(AllTrusted(w, units), AttemptRowsOf(order, t.rows), t.ledger);
    }
  }

  // ----- nothing is lost overall -----

  /** The files of readable histories, and of the others, make up all files. */
  function ReadableFiles(w: World, ids: seq<CaseId>): nat
    requires Known(w, ids)
  {
    if ids == [] then 0 else (if w.cases[ids[0]].readable then w.cases[ids[0]].files else 0) + ReadableFiles(w, ids[1..])
  }

  lemma {:induction false} FilesSplit(w: World, ids: seq<CaseId>)
    requires Known(w, ids)
    ensures FilesOf(w, ids, false) == FilesOf(w, ids, true) + ReadableFiles(w, ids)
    ensures StoreContract(w) && (forall id | id in ids :: FilesRead(w.cases[id])) ==> AttemptsRead(w, ids) == ReadableFiles(w, ids)
  {
    if ids != [] {
      FilesSplit(w, ids[1..]);
      assert ids[0] in ids;
    }
  }

  lemma {:induction false} FilesAppend(w: World, a: seq<CaseId>, b: seq<CaseId>, unreadableOnly: bool)
    requires Known(w, a) && Known(w, b)
    ensures FilesOf(w, a + b, unreadableOnly) == FilesOf(w, a, unreadableOnly) + FilesOf(w, b, unreadableOnly)
  {
    if a == [] {
      assert a + b == b;
    } else {
      assert (a + b)[1..] == a[1..] + b;
      FilesAppend(w, a[1..], b, unreadableOnly);
    }
  }

  /** In whatever order the cases are listed, they have as many files. */
  lemma {:induction false} FilesPermute(w: World, a: seq<CaseId>, b: seq<CaseId>, unreadableOnly: bool)
    requires Known(w, a) && multiset(a) == multiset(b)
    ensures Known(w, b) && FilesOf(w, a, unreadableOnly) == FilesOf(w, b, unreadableOnly)
    decreases |a|
  {
    forall id | id in b ensures id in w.cases && id in w.proofs {
      assert id in multiset(a);
    }
    if a == [] {
      assert |multiset(b)| == 0;
      assert b == [];
    } else {
      var k := SplitAtMember(a, b);
      var one, left, right := [a[0]], b[..k], b[k + 1..];
      assert b == left + (one + right);
      FilesPermute(w, a[1..], left + right, unreadableOnly);
      FilesAppend(w, left, right, unreadableOnly);
      FilesAppend(w, one, right, unreadableOnly);
      FilesAppend(w, left, one + right, unreadableOnly);
      assert one[1..] == [];
    }
  }

  /** Trusted and untrusted attempts add up to the attempts read plus the files counted at the start. */
  lemma AttemptsAddUp(w: World, units: seq<Unit>, s: Snapshot)
    requires StoreContract(w) && UnitsKnown(w, units) && Histories(w, units) && Distinct(Flat(units))
    requires Untouched(w, Flat(units), s) && s.ledger == BLANK
    ensures Known(w, Flat(units))
    ensures match UnitSteps(w, units, s)
            case None => true
            case Some(t) =>
              At(t.ledger.cells, TrustedAttempts) + (t.untrusted as real) == (AttemptsRead(w, Flat(units)) + s.untrusted) as real
  {
    AggregationOutcome(w, units, s);
    AllAccounted(w, units);
    hide Folded, UnitSteps, HistoriesOf, HistoriesNotEmpty, AllTrusted, AllUntrusted, StoreContract, Known, AttemptsRead,
         AllRowsSettled, AllRecordsSettled, Untouched, Distinct;
    var attempts := AllTrusted(w, units);
    assert At(BLANK.cells, TrustedAttempts) == 0.0;
    if Folded(BLANK, attempts).Some? {
      FoldCounts(BLANK, attempts);
      assert (|attempts| + AllUntrusted(w, units)) as real == |attempts| as real + AllUntrusted(w, units) as real;
    }
  }

  /** Main theorem: an aggregation that starts with the attempt files of unreadable histories as untrusted ends
      with trusted plus untrusted attempts equal to all persisted attempt files exactly when the attempts read
      are as many as the files of the readable histories; so whenever every such file was read. */
  lemma AggregationAccountsForAttempts(w: World, units: seq<Unit>, order: seq<CaseId>, s: Snapshot)
    requires StoreContract(w) && UnitsKnown(w, units) && Histories(w, units) && Distinct(Flat(units))
    requires multiset(order) == multiset(Flat(units)) && Known(w, order)
    requires Untouched(w, Flat(units), s) && s.ledger == BLANK && s.untrusted == FilesOf(w, order, true)
    ensures Known(w, Flat(units))
    ensures match UnitSteps(w, units, s)
            case None => true
            case Some(t) =>
              var balanced := At(t.ledger.cells, TrustedAttempts) + (t.untrusted as real) == FilesOf(w, order, false) as real;
              && (balanced <==> AttemptsRead(w, Flat(units)) == ReadableFiles(w, Flat(units)))
              && ((forall id | id in order :: FilesRead(w.cases[id])) ==> balanced)
  {
    AttemptsAddUp(w, units, s);
    hide StoreContract, UnitSteps, HistoriesOf, HistoriesNotEmpty, Known, Distinct, AttemptsRead, ReadableFiles, FilesRead;
    var all := Flat(units);
    FilesPermute(w, order, all, true);
    FilesPermute(w, order, all, false);
    FilesSplit(w, all);
    if forall id | id in order :: FilesRead(w.cases[id]) {
      forall id | id in all ensures FilesRead(w.cases[id]) {
        assert id in multiset(order);
      }
    }
  }

  lemma {:induction false} FlatPlace(units: seq<Unit>, id: CaseId) returns (k: nat, j: nat)
    requires id in Flat(units)
    ensures k < |units| && j < |units[k].cases| && units[k].cases[j] == id
  {
    if id in units[0].cases {
      k, j :| k == 0 && 0 <= j < |units[0].cases| && units[0].cases[j] == id;
    } else {
      k, j := FlatPlace(units[1..], id);
      k := k + 1;
    }
  }

  /** Published rows that all satisfy the validator, count rule included, make its totals agree too. */
  lemma AcceptedRowsBalance(w: World, units: seq<Unit>, order: seq<CaseId>, s: Snapshot)
    requires StoreContract(w) && UnitsKnown(w, units) && Histories(w, units) && Distinct(Flat(units))
    requires multiset(order) == multiset(Flat(units)) && Known(w, order)
    requires Untouched(w, Flat(units), s) && s.ledger == BLANK && s.untrusted == FilesOf(w, order, true)
    requires forall k: nat, j: nat | k < |units| && j < |units[k].cases| ::
               RowAccepted(units[k].cases[j], w.cases[units[k].cases[j]], FinalRow(w, units[k], j))
    ensures match UnitSteps(w, units, s)
            case None => true
            case Some(t) =>
              At(t.ledger.cells, TrustedAttempts) + (t.untrusted as real) == FilesOf(w, order, false) as real
  {
    hide RowAccepted, FilesRead, FinalRow, UnitSteps, HistoriesOf, StoreContract, HistoriesNotEmpty, FilesOf;
    AggregationAccountsForAttempts(w, units, order, s);
    forall id | id in order ensures FilesRead(w.cases[id]) {
      assert id in multiset(Flat(units));
      var k, j := FlatPlace(units, id);
      RowsAreAccepted(w, units[k], j);
    }
  }

  lemma {:induction false} AttemptsReadAppend(w: World, a: seq<CaseId>, b: seq<CaseId>)
    requires Known(w, a) && Known(w, b)
    ensures AttemptsRead(w, a + b) == AttemptsRead(w, a) + AttemptsRead(w, b)
  {
    if a == [] {
      assert a + b == b;
    } else {
      assert (a + b)[1..] == a[1..] + b;
      AttemptsReadAppend(w, a[1..], b);
    }
  }

  lemma {:induction false} AllAccounted(w: World, units: seq<Unit>)
    requires StoreContract(w) && UnitsKnown(w, units) && Histories(w, units)
    ensures Known(w, Flat(units))
    ensures |AllTrusted(w, units)| + AllUntrusted(w, units) == AttemptsRead(w, Flat(units))
  {
    hide HistoriesOf, HistoriesNotEmpty, StoreContract;
    if units != [] {
      var ids := units[0].cases;
      AllAccounted(w, units[1..]);
      UnitAccountsForAttempts(w, ids, |ids|);
      assert ids[..|ids|] == ids;
      AttemptsReadAppend(w, ids, Flat(units[1..]));
    }
  }

  function RowsAfter(w: World, u: Unit, rows: map<CaseId, Row>): map<CaseId, Row>
    requires Known(w, u.cases) && HistoriesNotEmpty(HistoriesOf(w, u.cases))
  {
    var length := TrustedLength(w, u.cases);
    var prefix := Overlay(Overlay(rows, u.cases, SettledRows(w, u.cases), length, |u.cases|), u.cases, SettledRows(w, u.cases), 0, length);
    if u.session then Overlay(prefix, u.cases, FinalRows(w, u), 0, length) else prefix
  }

  lemma RowOutcome(w: World, u: Unit, rows: map<CaseId, Row>, j: nat)
    requires Known(w, u.cases) && HistoriesNotEmpty(HistoriesOf(w, u.cases)) && Distinct(u.cases)
    requires j < |u.cases| && forall id | id in u.cases :: id in rows
    ensures u.cases[j] in RowsAfter(w, u, rows) && RowsAfter(w, u, rows)[u.cases[j]] == FinalRow(w, u, j)
  {
    hide TrustedLength, HistoriesOf, SettledRow, Overlay, CorruptBefore, CorruptRow, Distinct, Known, HistoriesNotEmpty;
    var ids, length := u.cases, TrustedLength(w, u.cases);
    var settled, final := SettledRows(w, ids), FinalRows(w, u);
    var suffix := Overlay(rows, ids, settled, length, |ids|);
    var prefix := Overlay(suffix, ids, settled, 0, length);
    OverlayAt(rows, ids, settled, length, |ids|);
    OverlayAt(suffix, ids, settled, 0, length);
    OverlayAt(prefix, ids, final, 0, length);
    assert settled[j] == SettledRow(w, ids, j) && final[j] == FinalRow(w, u, j);
  }

  lemma OtherRowsStay(w: World, u: Unit, rows: map<CaseId, Row>)
    requires Known(w, u.cases) && HistoriesNotEmpty(HistoriesOf(w, u.cases)) && Distinct(u.cases)
    requires forall id | id in u.cases :: id in rows
    ensures forall id | id in rows && id !in u.cases :: id in RowsAfter(w, u, rows) && RowsAfter(w, u, rows)[id] == rows[id]
  {
    hide TrustedLength, HistoriesOf, SettledRow, FinalRow, Overlay, Distinct, Known, HistoriesNotEmpty;
    var ids, length := u.cases, TrustedLength(w, u.cases);
    var settled := SettledRows(w, ids);
    var suffix := Overlay(rows, ids, settled, length, |ids|);
    OverlayAt(rows, ids, settled, length, |ids|);
    OverlayAt(suffix, ids, settled, 0, length);
    OverlayAt(Overlay(suffix, ids, settled, 0, length), ids, FinalRows(w, u), 0, length);
  }

  lemma RowsOutcome(w: World, u: Unit, rows: map<CaseId, Row>)
    requires Known(w, u.cases) && HistoriesNotEmpty(HistoriesOf(w, u.cases)) && Distinct(u.cases)
    requires forall id | id in u.cases :: id in rows
    ensures RowsSettled(w, u, rows, RowsAfter(w, u, rows))
  {
    hide HistoriesOf, FinalRow, RowsAfter, Distinct, HistoriesNotEmpty;
    forall j: nat | j < |u.cases|
      ensures u.cases[j] in RowsAfter(w, u, rows) && RowsAfter(w, u, rows)[u.cases[j]] == FinalRow(w, u, j)
    {
      RowOutcome(w, u, rows, j);
    }
    OtherRowsStay(w, u, rows);
  }

  function RecordsAfter(w: World, u: Unit, scored: map<CaseId, ScoredRecord>): map<CaseId, ScoredRecord>
    requires Known(w, u.cases) && HistoriesNotEmpty(HistoriesOf(w, u.cases))
  {
    var length := TrustedLength(w, u.cases);
    var kept := WithRecords(scored, u.cases, SettledRows(w, u.cases), length);
    if u.session then WithoutWithdrawn(kept, w, u, length) else kept
  }

  lemma RecordOutcome(w: World, u: Unit, scored: map<CaseId, ScoredRecord>, j: nat)
    requires Known(w, u.cases) && HistoriesNotEmpty(HistoriesOf(w, u.cases)) && Distinct(u.cases) && j < |u.cases|
    requires forall id | id in u.cases :: id !in scored
    ensures var after, id := RecordsAfter(w, u, scored), u.cases[j];
            if FinalRow(w, u, j).record.Some? then id in after && after[id] == FinalRow(w, u, j).record.value
            else id !in after
  {
    var ids, length := u.cases, TrustedLength(w, u.cases);
    var settled := SettledRows(w, ids);
    var kept := WithRecords(scored, ids, settled, length);
    RecordsAt(scored, ids, settled, length);
    SettledRecords(w, ids, j);
    FinalRecords(w, u, j);
    WithdrawnAt(kept, w, u, length);
    assert settled[j] == SettledRow(w, ids, j);
    assert forall k: nat | k < length && k != j :: ids[k] != ids[j];
    hide TrustedLength, HistoriesOf, SettledRow, WithRecords, WithoutWithdrawn, Withdrawn, FinalRow, Known, Distinct;
    assert ids[j] in kept <==> j < length && settled[j].record.Some?;
    assert ids[j] in kept ==> kept[ids[j]] == settled[j].record.value;
  }

  lemma RecordsOutcome(w: World, u: Unit, scored: map<CaseId, ScoredRecord>)
    requires Known(w, u.cases) && HistoriesNotEmpty(HistoriesOf(w, u.cases)) && Distinct(u.cases)
    requires forall id | id in u.cases :: id !in scored
    ensures RecordsSettled(w, u, scored, RecordsAfter(w, u, scored))
  {
    forall j: nat | j < |u.cases|
      ensures var after, id := RecordsAfter(w, u, scored), u.cases[j];
              if FinalRow(w, u, j).record.Some? then id in after && after[id] == FinalRow(w, u, j).record.value
              else id !in after
    {
      RecordOutcome(w, u, scored, j);
    }
    OtherRecords(w, u, scored);
    hide RecordsAfter, FinalRow, HistoriesOf, Distinct;
  }

  lemma OtherRecords(w: World, u: Unit, scored: map<CaseId, ScoredRecord>)
    requires Known(w, u.cases) && HistoriesNotEmpty(HistoriesOf(w, u.cases)) && Distinct(u.cases)
    requires forall id | id in u.cases :: id !in scored
    ensures forall id | id !in u.cases :: id in RecordsAfter(w, u, scored) <==> id in scored
    ensures forall id | id in scored && id !in u.cases :: RecordsAfter(w, u, scored)[id] == scored[id]
  {
    var ids, length := u.cases, TrustedLength(w, u.cases);
    var settled := SettledRows(w, ids);
    var kept := WithRecords(scored, ids, settled, length);
    RecordsAt(scored, ids, settled, length);
    WithdrawnAt(kept, w, u, length);
    hide TrustedLength, HistoriesOf, SettledRow, WithRecords, WithoutWithdrawn, Withdrawn, FinalRow, Distinct;
  }

  // ----- updating maps case by case -----

  function Overlay(rows: map<CaseId, Row>, ids: seq<CaseId>, values: seq<Row>, lo: nat, hi: nat): (r: map<CaseId, Row>)
    requires lo <= hi <= |ids| == |values|
    ensures r.Keys == rows.Keys + set k: nat | lo <= k < hi :: ids[k]
    decreases hi
  {
    if hi == lo then rows else Overlay(rows, ids, values, lo, hi - 1)[ids[hi - 1] := values[hi - 1]]
  }

  lemma OverlayStep(rows: map<CaseId, Row>, ids: seq<CaseId>, values: seq<Row>, lo: nat, hi: nat)
    requires lo <= hi <= |ids| == |values|
    ensures Overlay(rows, ids, values, lo, hi) ==
            if hi == lo then rows else Overlay(rows, ids, values, lo, hi - 1)[ids[hi - 1] := values[hi - 1]]
  {
  }

  lemma OverlayNothing(rows: map<CaseId, Row>, ids: seq<CaseId>, values: seq<Row>)
    requires |ids| == |values|
    ensures Overlay(rows, ids, values, 0, 0) == rows
  {
  }

  lemma OverlayNext(rows: map<CaseId, Row>, ids: seq<CaseId>, values: seq<Row>, j: nat)
    requires j < |ids| == |values| && Distinct(ids) && ids[j] in rows
    ensures ids[j] in Overlay(rows, ids, values, 0, j) && Overlay(rows, ids, values, 0, j)[ids[j]] == rows[ids[j]]
    ensures Overlay(rows, ids, values, 0, j + 1) == Overlay(rows, ids, values, 0, j)[ids[j] := values[j]]
  {
    OverlayOther(rows, ids, values, 0, j, ids[j]);
  }

  lemma SuffixSettled(w: World, ids: seq<CaseId>, j: nat)
    requires StoreContract(w) && Known(w, ids) && HistoriesNotEmpty(HistoriesOf(w, ids))
    requires TrustedLength(w, ids) <= j < |ids|
    ensures var c := w.cases[ids[j]];
            && UntrustedIn(w, ids, j) == c.attempts
            && (if c.readable && c.attempts > 0
                then SettledRow(w, ids, j) == CorruptRow(FirstRow(c), if Rejected(w, ids) && j == TrustedLength(w, ids)
                                                                      then InvalidRunnerHistory else UntrustedSessionPredecessor)
                else SettledRow(w, ids, j) == FirstRow(c) && c.attempts == 0)
  {
    hide TrustedLength, HistoriesOf, Rejected, FirstRow, CorruptRow;
  }

  lemma {:induction false} OverlayOther(rows: map<CaseId, Row>, ids: seq<CaseId>, values: seq<Row>, lo: nat, hi: nat, id: CaseId)
    requires lo <= hi <= |ids| == |values| && id in rows
    requires forall k | lo <= k < hi :: ids[k] != id
    ensures id in Overlay(rows, ids, values, lo, hi) && Overlay(rows, ids, values, lo, hi)[id] == rows[id]
    decreases hi
  {
    if hi > lo {
      OverlayOther(rows, ids, values, lo, hi - 1, id);
    }
  }

  lemma {:induction false} OverlayPlace(rows: map<CaseId, Row>, ids: seq<CaseId>, values: seq<Row>, lo: nat, hi: nat, k: nat)
    requires lo <= hi <= |ids| == |values| && k < |ids| && Distinct(ids) && ids[k] in rows
    ensures ids[k] in Overlay(rows, ids, values, lo, hi)
    ensures Overlay(rows, ids, values, lo, hi)[ids[k]] == if lo <= k < hi then values[k] else rows[ids[k]]
    decreases hi
  {
    hide Distinct;
    if hi > lo {
      OverlayPlace(rows, ids, values, lo, hi - 1, k);
      if k != hi - 1 { DistinctIds(ids, k, hi - 1); }
    }
  }

  lemma OverlayAt(rows: map<CaseId, Row>, ids: seq<CaseId>, values: seq<Row>, lo: nat, hi: nat)
    requires lo <= hi <= |ids| == |values| && Distinct(ids) && forall id | id in ids :: id in rows
    ensures forall k: nat | k < |ids| :: ids[k] in Overlay(rows, ids, values, lo, hi) &&
              Overlay(rows, ids, values, lo, hi)[ids[k]] == if lo <= k < hi then values[k] else rows[ids[k]]
    ensures forall id | id in rows && id !in ids :: id in Overlay(rows, ids, values, lo, hi) &&
              Overlay(rows, ids, values, lo, hi)[id] == rows[id]
  {
    hide Overlay, Distinct;
    forall k: nat | k < |ids|
      ensures ids[k] in Overlay(rows, ids, values, lo, hi)
      ensures Overlay(rows, ids, values, lo, hi)[ids[k]] == if lo <= k < hi then values[k] else rows[ids[k]]
    {
      OverlayPlace(rows, ids, values, lo, hi, k);
    }
    forall id | id in rows && id !in ids
      ensures id in Overlay(rows, ids, values, lo, hi) && Overlay(rows, ids, values, lo, hi)[id] == rows[id]
    {
      OverlayOther(rows, ids, values, lo, hi, id);
    }
  }

  lemma DistinctIds(ids: seq<CaseId>, i: nat, j: nat)
    requires Distinct(ids) && i < |ids| && j < |ids| && i != j
    ensures ids[i] != ids[j]
  {
  }

  function WithRecords(scored: map<CaseId, ScoredRecord>, ids: seq<CaseId>, values: seq<Row>, n: nat): map<CaseId, ScoredRecord>
    requires n <= |ids| == |values|
  {
    if n == 0 then scored
    else
      var before := WithRecords(scored, ids, values, n - 1);
      if values[n - 1].record.Some? then before[ids[n - 1] := values[n - 1].record.value] else before
  }

  lemma {:induction false} RecordsAt(scored: map<CaseId, ScoredRecord>, ids: seq<CaseId>, values: seq<Row>, n: nat)
    requires n <= |ids| == |values| && Distinct(ids) && forall id | id in ids :: id !in scored
    ensures forall k: nat | k < |ids| ::
              if k < n && values[k].record.Some?
              then ids[k] in WithRecords(scored, ids, values, n) && WithRecords(scored, ids, values, n)[ids[k]] == values[k].record.value
              else ids[k] !in WithRecords(scored, ids, values, n)
    ensures forall id | id !in ids :: id in WithRecords(scored, ids, values, n) <==> id in scored
    ensures forall id | id in scored && id !in ids :: WithRecords(scored, ids, values, n)[id] == scored[id]
  {
    if n > 0 {
      RecordsAt(scored, ids, values, n - 1);
    }
  }

  function WithoutWithdrawn(scored: map<CaseId, ScoredRecord>, w: World, u: Unit, n: nat): map<CaseId, ScoredRecord>
    requires Known(w, u.cases) && n <= |u.cases| && HistoriesNotEmpty(HistoriesOf(w, u.cases))
  {
    if n == 0 then scored
    else
      var before := WithoutWithdrawn(scored, w, u, n - 1);
      if Withdrawn(w, u, n - 1) then before - {u.cases[n - 1]} else before
  }

  lemma {:induction false} WithdrawnAt(scored: map<CaseId, ScoredRecord>, w: World, u: Unit, n: nat)
    requires Known(w, u.cases) && n <= |u.cases| && HistoriesNotEmpty(HistoriesOf(w, u.cases)) && Distinct(u.cases)
    ensures var after := WithoutWithdrawn(scored, w, u, n);
            && (forall id :: id in after <==> id in scored && forall k: nat | k < n && Withdrawn(w, u, k) :: u.cases[k] != id)
            && (forall id | id in after :: after[id] == scored[id])
  {
    hide Withdrawn, HistoriesOf;
    if n > 0 {
      WithdrawnAt(scored, w, u, n - 1);
    }
  }

  function SettledRows(w: World, ids: seq<CaseId>): (rows: seq<Row>)
    requires Known(w, ids) && HistoriesNotEmpty(HistoriesOf(w, ids))
    ensures |rows| == |ids| && forall j: nat | j < |ids| :: rows[j] == SettledRow(w, ids, j)
  {
    seq(|ids|, j requires 0 <= j < |ids| => SettledRow(w, ids, j))
  }

  function FinalRows(w: World, u: Unit): (rows: seq<Row>)
    requires Known(w, u.cases) && HistoriesNotEmpty(HistoriesOf(w, u.cases))
    ensures |rows| == |u.cases| && forall j: nat | j < |u.cases| :: rows[j] == FinalRow(w, u, j)
  {
    seq(|u.cases|, j requires 0 <= j < |u.cases| => FinalRow(w, u, j))
  }

  lemma CorruptBeforeNothing(w: World, ids: seq<CaseId>)
    requires Known(w, ids) && HistoriesNotEmpty(HistoriesOf(w, ids))
    ensures !CorruptBefore(w, ids, 0)
  {
  }

  lemma FinalRowIs(w: World, u: Unit, j: nat)
    requires Known(w, u.cases) && j < |u.cases| && HistoriesNotEmpty(HistoriesOf(w, u.cases))
    ensures var row := SettledRow(w, u.cases, j);
            FinalRow(w, u, j) ==
            if u.session && j < TrustedLength(w, u.cases) && CorruptBefore(w, u.cases, j) && row.attemptCount > 0
            then CorruptRow(row, UntrustedSessionPredecessor) else row
  {
    hide TrustedLength, HistoriesOf, SettledRow, CorruptBefore, CorruptRow;
  }

  lemma CorruptBeforeNext(w: World, ids: seq<CaseId>, j: nat)
    requires Known(w, ids) && j < |ids| && HistoriesNotEmpty(HistoriesOf(w, ids))
    ensures CorruptBefore(w, ids, j + 1) <==> CorruptBefore(w, ids, j) || SettledRow(w, ids, j).status.Corrupt?
  {
    hide SettledRow, HistoriesOf;
  }

  /** The turns the last pass withdraws. */
  predicate Withdrawn(w: World, u: Unit, j: nat)
    requires Known(w, u.cases) && j < |u.cases| && HistoriesNotEmpty(HistoriesOf(w, u.cases))
  {
    CorruptBefore(w, u.cases, j) && SettledRow(w, u.cases, j).attemptCount > 0
  }

  lemma NothingFolded(l: Ledger)
    ensures Folded(l, []) == Some(l)
  {
  }

  lemma HistoriesOfAll(w: World, units: seq<Unit>)
    requires UnitsKnown(w, units) && RunnerContract(w)
    ensures Histories(w, units)
  {
    hide HistoriesOf, RunnerContract, HistoriesNotEmpty;
    forall u | u in units ensures HistoriesNotEmpty(HistoriesOf(w, u.cases)) {
      HistoriesFromRunner(w, u.cases);
    }
  }

  lemma HistoriesFromRunner(w: World, ids: seq<CaseId>)
    requires Known(w, ids) && RunnerContract(w)
    ensures HistoriesNotEmpty(HistoriesOf(w, ids))
  {
  }

  /** Behind the trusted prefix nothing is folded. */
  lemma {:induction false} PrefixHoldsAllFrom(w: World, ids: seq<CaseId>, n: nat)
    requires Known(w, ids) && TrustedLength(w, ids) <= n <= |ids|
    ensures TrustedAttemptsOf(w, ids, n) == TrustedAttemptsOf(w, ids, TrustedLength(w, ids))
    decreases n
  {
    hide TrustedLength, HistoriesOf;
    if n > TrustedLength(w, ids) {
      PrefixHoldsAllFrom(w, ids, n - 1);
    }
  }

  lemma PrefixHoldsAll(w: World, ids: seq<CaseId>)
    requires Known(w, ids)
    ensures TrustedLength(w, ids) <= |ids|
    ensures TrustedAttemptsOf(w, ids, |ids|) == TrustedAttemptsOf(w, ids, TrustedLength(w, ids))
  {
    PrefixHoldsAllFrom(w, ids, |ids|);
  }

  lemma SettledRecords(w: World, ids: seq<CaseId>, j: nat)
    requires Known(w, ids) && HistoriesNotEmpty(HistoriesOf(w, ids)) && j < |ids|
    ensures TrustedLength(w, ids) <= j ==> SettledRow(w, ids, j).record.None?
  {
    hide TrustedLength, HistoriesOf, Rejected;
  }

  lemma FinalRecords(w: World, u: Unit, j: nat)
    requires Known(w, u.cases) && HistoriesNotEmpty(HistoriesOf(w, u.cases)) && j < |u.cases|
    ensures FinalRow(w, u, j).record == if u.session && j < TrustedLength(w, u.cases) && Withdrawn(w, u, j) then None
                                        else SettledRow(w, u.cases, j).record
  {
    hide TrustedLength, HistoriesOf, SettledRow;
  }
}
