/** What the aggregation says of each case, in terms of the store, the runner and the decoder
    (legal_rag/experiment_aggregation.py). */
module Verdicts {
  import opened Common
  import opened Audit
  import opened Aggregation

  // ----- the trusted prefix -----

  /** Main theorem: the trusted prefix is the whole readable prefix if the runner accepts that, and otherwise the
      longest one of which the runner accepts every prefix. */
  lemma TrustedLengthMeans(w: World, ids: seq<CaseId>, k: nat, limit: nat)
    requires Known(w, ids) && k <= limit <= |ids|
    requires (forall i | 0 <= i < limit :: w.cases[ids[i]].readable) && (limit < |ids| ==> !w.cases[ids[limit]].readable)
    ensures k == TrustedLength(w, ids) <==>
            if limit == 0 || w.accept(ids[..limit]).Some? then k == limit
            else (forall i | 0 < i <= k :: w.accept(ids[..i]).Some?) && w.accept(ids[..k + 1]).None?
  {
    assert ReadableLimit(w, ids) == limit;
    if limit > 0 && w.accept(ids[..limit]).None? {
      assert TrustedLength(w, ids) == AcceptedLength(w, ids, 0, limit);
    }
  }

  // ----- one case -----

  /** The runner vouches for every attempt that was read of the case. */
  predicate HistoryTrusted(w: World, ids: seq<CaseId>, j: nat)
    requires Known(w, ids) && j < |ids|
  {
    j < TrustedLength(w, ids) && ids[j] in HistoriesOf(w, ids) && |HistoriesOf(w, ids)[ids[j]].attempts| == w.cases[ids[j]].attempts
  }

  predicate LatestHasSucceeded(w: World, ids: seq<CaseId>, j: nat)
    requires Known(w, ids) && j < |ids| && HistoryTrusted(w, ids, j) && HistoriesNotEmpty(HistoriesOf(w, ids))
  {
    var attempts := HistoriesOf(w, ids)[ids[j]].attempts;
    attempts[|attempts| - 1].status == "succeeded"
  }

  /** The store found it readable, read no attempt, and the runner knows none. */
  predicate Unattempted(w: World, ids: seq<CaseId>, j: nat)
    requires Known(w, ids) && j < |ids|
  {
    var c := w.cases[ids[j]];
    c.readable && c.attempts == 0 && (j < TrustedLength(w, ids) ==> ids[j] !in HistoriesOf(w, ids))
  }

  predicate Ended(state: StoreState) {
    state.StoreFailed? || state.StoreInterrupted? || state.StoreExhausted?
  }

  /** The output of the latest attempt, which succeeded, decodes. */
  predicate OutputDecodes(w: World, ids: seq<CaseId>, j: nat)
    requires Known(w, ids) && j < |ids| && HistoriesNotEmpty(HistoriesOf(w, ids))
  {
    HistoryTrusted(w, ids, j) && LatestHasSucceeded(w, ids, j) && w.proofs[ids[j]].hasOutput && w.proofs[ids[j]].decoded.Some?
  }

  /** Everything a scored case needs besides its session. */
  predicate Proven(w: World, ids: seq<CaseId>, j: nat)
    requires Known(w, ids) && j < |ids| && HistoriesNotEmpty(HistoriesOf(w, ids))
  {
    && OutputDecodes(w, ids, j) && w.cases[ids[j]].state.StoreSucceeded?
    && w.proofs[ids[j]].marker.MarkerMatches? && w.proofs[ids[j]].decoded.value.caseId == ids[j]
  }

  /** The status the case deserves by itself. */
  lemma SettledStatusMeans(w: World, ids: seq<CaseId>, j: nat)
    requires StoreContract(w) && Known(w, ids) && j < |ids| && HistoriesNotEmpty(HistoriesOf(w, ids))
    ensures var c, row := w.cases[ids[j]], SettledRow(w, ids, j);
            && (row.status.Succeeded? <==> Proven(w, ids, j) || (Unattempted(w, ids, j) && c.state.StoreSucceeded?))
            && (row.status.Pending? <==> (OutputDecodes(w, ids, j) || Unattempted(w, ids, j)) && c.state.StoreMissing?)
            && (row.status.NeverRun? <==> Unattempted(w, ids, j) && c.state.StoreNotRun?)
            && (row.status.Failed? || row.status.Interrupted? || row.status.Exhausted? <==>
                  Ended(c.state) && (Unattempted(w, ids, j) || (HistoryTrusted(w, ids, j) && !LatestHasSucceeded(w, ids, j))))
            && (!row.status.Corrupt? ==> row.status == PublicStatus(c.state))
            && (row.record == if Proven(w, ids, j) then w.proofs[ids[j]].decoded else None)
            && (row.markerValid <==> Proven(w, ids, j))
  {
    if j < TrustedLength(w, ids) { assert w.cases[ids[j]].readable; }
    hide TrustedLength, ReadableLimit, HistoriesOf, Rejected, RowsOf;
  }

  /** Under the store's contract nothing succeeded or unmarked is without attempts. */
  lemma UnattemptedStates(w: World, ids: seq<CaseId>, j: nat)
    requires StoreContract(w) && Known(w, ids) && j < |ids| && Unattempted(w, ids, j)
    ensures !w.cases[ids[j]].state.StoreSucceeded? && !w.cases[ids[j]].state.StoreMissing?
  {
    hide TrustedLength, HistoriesOf;
  }

  // ----- its session -----

  /** No earlier turn of the session is published as corrupt. */
  ghost predicate CleanBefore(w: World, u: Unit, j: nat)
    requires Known(w, u.cases) && j <= |u.cases| && HistoriesNotEmpty(HistoriesOf(w, u.cases))
  {
    u.session ==> forall i: nat | i < j :: !FinalRow(w, u, i).status.Corrupt?
  }

  lemma CleanMeans(w: World, u: Unit, j: nat)
    requires Known(w, u.cases) && j <= |u.cases| && HistoriesNotEmpty(HistoriesOf(w, u.cases)) && u.session
    ensures CleanBefore(w, u, j) <==> !CorruptBefore(w, u.cases, j)
  {
    hide SettledRow, TrustedLength, HistoriesOf;
    if i :| 0 <= i < j && SettledRow(w, u.cases, i).status.Corrupt? {
      assert FinalRow(w, u, i).status.Corrupt?;
    }
    if !CleanBefore(w, u, j) {
      var i: nat :| i < j && FinalRow(w, u, i).status.Corrupt?;
      if !SettledRow(w, u.cases, i).status.Corrupt? {
        var k :| 0 <= k < i && SettledRow(w, u.cases, k).status.Corrupt?;
      }
    }
  }

  /** Main theorem: a case is published as succeeded, with the record its output decodes to, exactly when all its
      attempts are vouched for, the latest one succeeded with an output that decodes to a record of this very
      case, the store counts it as succeeded, its completion marker matches, and no earlier turn of its session
      is corrupt. */
  lemma ScoredIff(w: World, u: Unit, j: nat)
    requires StoreContract(w) && Known(w, u.cases) && j < |u.cases| && HistoriesNotEmpty(HistoriesOf(w, u.cases))
    ensures var row, scored := FinalRow(w, u, j), Proven(w, u.cases, j) && CleanBefore(w, u, j);
            && (row.status.Succeeded? <==> scored) && (row.markerValid <==> scored)
            && row.record == if scored then w.proofs[u.cases[j]].decoded else None
  {
    SettledStatusMeans(w, u.cases, j);
    if Unattempted(w, u.cases, j) { UnattemptedStates(w, u.cases, j); }
    if u.session { CleanMeans(w, u, j); }
    SettledShape(w, u.cases, j);
    hide SettledRow, TrustedLength, HistoriesOf, CleanBefore, CorruptBefore, Unattempted, StoreContract, HistoriesNotEmpty;
    if Proven(w, u.cases, j) { ProvenHasAttempts(w, u.cases, j); }
  }

  lemma ProvenHasAttempts(w: World, ids: seq<CaseId>, j: nat)
    requires Known(w, ids) && j < |ids| && HistoriesNotEmpty(HistoriesOf(w, ids)) && HistoryTrusted(w, ids, j)
    ensures j < TrustedLength(w, ids) && w.cases[ids[j]].attempts > 0 && w.cases[ids[j]].readable
  {
    assert w.cases[ids[j]].readable;
    hide TrustedLength, ReadableLimit, HistoriesOf;
  }

  /** Main theorem: when exactly a case is published as pending, as never run, as failed, interrupted or exhausted;
      every other case that is not scored is corrupt. */
  lemma OtherStatusIff(w: World, u: Unit, j: nat)
    requires StoreContract(w) && Known(w, u.cases) && j < |u.cases| && HistoriesNotEmpty(HistoriesOf(w, u.cases))
    ensures var row, c := FinalRow(w, u, j), w.cases[u.cases[j]];
            && (row.status.Pending? <==> OutputDecodes(w, u.cases, j) && c.state.StoreMissing? && CleanBefore(w, u, j))
            && (row.status.NeverRun? <==> Unattempted(w, u.cases, j) && c.state.StoreNotRun?)
            && (row.status.Failed? || row.status.Interrupted? || row.status.Exhausted? <==>
                  && Ended(c.state)
                  && (|| Unattempted(w, u.cases, j)
                      || (HistoryTrusted(w, u.cases, j) && !LatestHasSucceeded(w, u.cases, j) && CleanBefore(w, u, j))))
            && (!row.status.Corrupt? ==> row.status == PublicStatus(c.state))
  {
    SettledStatusMeans(w, u.cases, j);
    if Unattempted(w, u.cases, j) { UnattemptedStates(w, u.cases, j); }
    if u.session { CleanMeans(w, u, j); }
    SettledShape(w, u.cases, j);
    if HistoryTrusted(w, u.cases, j) { ProvenHasAttempts(w, u.cases, j); }
    hide SettledRow, TrustedLength, HistoriesOf, CleanBefore, CorruptBefore, StoreContract, HistoriesNotEmpty;
  }

  // ----- the outcome of the loop -----

  /** Main theorem: after the loop over all work units, exactly the scored cases have a scored record, theirs. */
  lemma RecordsOfTheLoop(w: World, units: seq<Unit>, s: Snapshot, k: nat, j: nat)
    requires StoreContract(w) && UnitsKnown(w, units) && Histories(w, units) && Distinct(Flat(units)) && Untouched(w, Flat(units), s)
    requires k < |units| && j < |units[k].cases| && UnitSteps(w, units, s).Some?
    ensures var t, id, u := UnitSteps(w, units, s).value, units[k].cases[j], units[k];
            && (id in t.scored <==> Proven(w, u.cases, j) && CleanBefore(w, u, j))
            && (id in t.scored ==> t.scored[id] == w.proofs[id].decoded.value)
            && id in t.rows && t.rows[id] == FinalRow(w, u, j)
  {
    hide UnitSteps, FinalRow, HistoriesOf, HistoriesNotEmpty, StoreContract, Distinct, Untouched, CleanBefore;
    AggregationOutcome(w, units, s);
    ScoredIff(w, units[k], j);
  }

  // ----- why a case is corrupt -----

  datatype Check = Check(passed: bool, otherwise: Problem)

  /** The problem of the first check that fails. */
  function FirstFailing(checks: seq<Check>): Option<Problem> {
    if checks == [] then None else if !checks[0].passed then Some(checks[0].otherwise) else FirstFailing(checks[1..])
  }

  /** What a vouched-for case has to pass, in order; one whose latest attempt failed only has to be found so by the
      store, and one that is pending has no marker to check. */
  function ChecksOf(id: CaseId, state: StoreState, succeeded: bool, proof: Proof): seq<Check> {
    if !succeeded then [Check(Ended(state), StatusMismatch)]
    else
      [Check(proof.hasOutput, MissingOutput), Check(proof.decoded.Some?, InvalidOutput),
       Check(state.StoreMissing? || state.StoreSucceeded?, StatusMismatch),
       Check(state.StoreMissing? || !proof.marker.MarkerUnreadable?, MarkerProblem),
       Check(state.StoreMissing? || !proof.marker.MarkerDiffers?, PayloadMismatch),
       Check(state.StoreMissing? || (proof.decoded.Some? && proof.decoded.value.caseId == id), IdentityMismatch)]
  }

  /** Main theorem: a vouched-for case that is corrupt by itself reports the first check it fails, and nothing else. */
  lemma ProblemMeans(w: World, ids: seq<CaseId>, j: nat)
    requires Known(w, ids) && j < |ids| && HistoriesNotEmpty(HistoriesOf(w, ids)) && HistoryTrusted(w, ids, j)
    ensures var problem := FirstFailing(ChecksOf(ids[j], w.cases[ids[j]].state, LatestHasSucceeded(w, ids, j), w.proofs[ids[j]]));
            && SettledRow(w, ids, j).problems == (match problem case None => [] case Some(p) => [p])
            && (SettledRow(w, ids, j).status.Corrupt? <==> problem.Some?)
  {
    ProvenHasAttempts(w, ids, j);
    var checks := ChecksOf(ids[j], w.cases[ids[j]].state, LatestHasSucceeded(w, ids, j), w.proofs[ids[j]]);
    SixChecks(checks);
    hide TrustedLength, HistoriesOf, RowsOf, FirstFailing;
  }

  lemma SixChecks(c: seq<Check>)
    ensures |c| == 1 ==> FirstFailing(c) == if c[0].passed then None else Some(c[0].otherwise)
    ensures |c| == 6 ==>
              FirstFailing(c) == if !c[0].passed then Some(c[0].otherwise) else if !c[1].passed then Some(c[1].otherwise)
                                 else if !c[2].passed then Some(c[2].otherwise) else if !c[3].passed then Some(c[3].otherwise)
                                 else if !c[4].passed then Some(c[4].otherwise) else if !c[5].passed then Some(c[5].otherwise) else None
  {
    hide FirstFailing;
    assert c[0..] == c;
    if |c| == 1 {
      NextCheck(c, 0);
    }
    if |c| == 6 {
      NextCheck(c, 0);
      NextCheck(c, 1);
      NextCheck(c, 2);
      NextCheck(c, 3);
      NextCheck(c, 4);
      NextCheck(c, 5);
    }
  }

  lemma NextCheck(c: seq<Check>, k: nat)
    requires k < |c|
    ensures FirstFailing(c[k..]) == if !c[k].passed then Some(c[k].otherwise) else FirstFailing(c[k + 1..])
    ensures FirstFailing([]) == None && (k + 1 == |c| ==> c[k + 1..] == [])
  {
    assert c[k..][1..] == c[k + 1..];
  }

  /** Main theorem: what else makes a case corrupt, and the problem it then reports. */
  lemma UntrustedProblemMeans(w: World, ids: seq<CaseId>, j: nat)
    requires StoreContract(w) && Known(w, ids) && j < |ids| && HistoriesNotEmpty(HistoriesOf(w, ids))
    requires !HistoryTrusted(w, ids, j) && !Unattempted(w, ids, j)
    ensures var row, c := SettledRow(w, ids, j), w.cases[ids[j]];
            && row.status.Corrupt?
            && row.problems ==
               [if !c.readable then UnreadableHistory
                else if j < TrustedLength(w, ids) then
                  (if ids[j] in HistoriesOf(w, ids) then AttemptCountMismatch else MissingValidatedHistory)
                else if Rejected(w, ids) && j == TrustedLength(w, ids) then InvalidRunnerHistory
                else UntrustedSessionPredecessor]
  {
    if j < TrustedLength(w, ids) { assert w.cases[ids[j]].readable; }
    hide TrustedLength, ReadableLimit, HistoriesOf, Rejected, RowsOf;
  }
}
