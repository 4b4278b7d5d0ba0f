/**
 * The append-only processing ledger: its insert trigger
 * (services/api/alembic/versions/20260716_05_artifact_processing_ledger.py) and the scan
 * verdict that workers append (services/api/netops_api/application/artifact_processing.py).
 * Rows are kept in the order in which they were committed.
 */
module ArtifactLedger {
  import opened Base
  import opened Tables

  type Ledger = seq<LedgerRow>

  // ---------------------------------------------------------------- the queries

  /** `SELECT max(attempt)`. */
  function HighestAttempt(ledger: Ledger, artifact: Uuid): Option<int> {
    if ledger == [] then None
    else
      var last := ledger[|ledger| - 1];
      var before := HighestAttempt(ledger[..|ledger| - 1], artifact);
      if last.artifactId != artifact then before
      else if before.None? || before.value < last.attempt then Some(last.attempt)
      else before
  }

  /** `ORDER BY occurred_at DESC, id DESC`: whether `a` comes before `b`. */
  predicate Later(a: LedgerRow, b: LedgerRow) {
    a.occurredAt > b.occurredAt || (a.occurredAt == b.occurredAt && a.id > b.id)
  }

  /** The first row of an attempt in that order. */
  function LatestRow(ledger: Ledger, artifact: Uuid, attempt: int): Option<LedgerRow> {
    if ledger == [] then None
    else
      var last := ledger[|ledger| - 1];
      var before := LatestRow(ledger[..|ledger| - 1], artifact, attempt);
      if last.artifactId != artifact || last.attempt != attempt then before
      else if before.None? || Later(last, before.value) then Some(last)
      else before
  }

  // ---------------------------------------------------------------- the guard on INSERT

  predicate TransitionValid(prior: ProcessingState, next: ProcessingState) {
    || (next.Verified? && prior.Quarantined?)
    || (next.RedactedState? && prior.Verified?)
    || (next.Failed? && (prior.Quarantined? || prior.Verified?))
  }

  predicate TriggerAccepts(ledger: Ledger, row: LedgerRow) {
    var highest := HighestAttempt(ledger, row.artifactId);
    if row.state.Quarantined? then
      if highest.None? then row.attempt == 1 else row.attempt == highest.value + 1
    else
      && highest.Some? && row.attempt == highest.value
      && var prior := LatestRow(ledger, row.artifactId, row.attempt);
         prior.Some? && TransitionValid(prior.value.state, row.state)
  }

  predicate LedgerInsertable(ledger: Ledger, row: LedgerRow) {
    && TriggerAccepts(ledger, row)
    && row.attempt >= 1
    && (row.state.Failed? <==> row.failureCode.Some?)
    && (forall i :: 0 <= i < |ledger| ==> ledger[i].id != row.id)
    && (forall i :: 0 <= i < |ledger| ==>
          !(ledger[i].artifactId == row.artifactId && ledger[i].attempt == row.attempt
            && ledger[i].state == row.state))
  }

  function AppendRow(ledger: Ledger, row: LedgerRow): Result<Ledger, DbError> {
    if LedgerInsertable(ledger, row) then Success(ledger + [row]) else Failure(IntegrityViolation)
  }

  /** The ledgers that any run can produce: every row was accepted after the rows before it. */
  ghost predicate Reachable(ledger: Ledger) {
    forall k :: 0 <= k < |ledger| ==> LedgerInsertable(ledger[..k], ledger[k])
  }

  lemma AppendKeepsReachable(ledger: Ledger, row: LedgerRow)
    requires Reachable(ledger) && LedgerInsertable(ledger, row)
    ensures Reachable(ledger + [row])
  {
    var next := ledger + [row];
    forall k | 0 <= k < |next|
      ensures LedgerInsertable(next[..k], next[k])
    {
      assert next[..k] == ledger[..k];
      assert ledger[..|ledger|] == ledger;
    }
  }

  lemma PrefixReachable(ledger: Ledger, k: nat)
    requires Reachable(ledger) && k <= |ledger|
    ensures Reachable(ledger[..k])
  {
    forall j | 0 <= j < k
      ensures LedgerInsertable(ledger[..k][..j], ledger[..k][j])
    {
      assert ledger[..k][..j] == ledger[..j];
    }
  }

  // ---------------------------------------------------------------- the scan verdict

  /** `ORDER BY attempt DESC, occurred_at DESC, id DESC LIMIT 1`. */
  function ActiveRow(ledger: Ledger, artifact: Uuid): Option<LedgerRow> {
    if ledger == [] then None
    else
      var last := ledger[|ledger| - 1];
      var before := ActiveRow(ledger[..|ledger| - 1], artifact);
      if last.artifactId != artifact then before
      else if before.None? || before.value.attempt < last.attempt
              || (before.value.attempt == last.attempt && Later(last, before.value)) then Some(last)
      else before
  }

  datatype ScanVerdict = ScanVerdict(artifactId: Uuid, clean: bool, reasonCode: string, occurredAt: Time)

  function VerdictRow(id: Uuid, verdict: ScanVerdict, active: LedgerRow): LedgerRow {
    LedgerRow(id, verdict.artifactId, active.attempt,
              if verdict.clean then Verified else Failed,
              if verdict.clean then None else Some(verdict.reasonCode),
              active.correlationId, verdict.occurredAt)
  }

  function RecordScanOutcome(ledger: Ledger, verdict: ScanVerdict, id: Uuid): Result<(Ledger, LedgerRow), DbError> {
    var active := ActiveRow(ledger, verdict.artifactId);
    if active.None? || !active.value.state.Quarantined? then Failure(LedgerConflict)
    else
      var row := VerdictRow(id, verdict, active.value);
      var next :- AppendRow(ledger, row);
      Success((next, row))
  }

  // ---------------------------------------------------------------- facts about the queries

  predicate InAttempt(row: LedgerRow, artifact: Uuid, attempt: int) {
    row.artifactId == artifact && row.attempt == attempt
  }

  lemma {:induction false} HighestAttemptIsMaximum(ledger: Ledger, artifact: Uuid)
    ensures var h := HighestAttempt(ledger, artifact);
            && (h.None? <==> forall i :: 0 <= i < |ledger| ==> ledger[i].artifactId != artifact)
            && (h.Some? ==> exists i :: 0 <= i < |ledger| && InAttempt(ledger[i], artifact, h.value))
            && (h.Some? ==> forall i :: 0 <= i < |ledger| && ledger[i].artifactId == artifact
                              ==> ledger[i].attempt <= h.value)
  {
    if ledger != [] {
      var n := |ledger| - 1;
      var front := ledger[..n];
      HighestAttemptIsMaximum(front, artifact);
      var h := HighestAttempt(ledger, artifact);
      if ledger[n].artifactId == artifact && h == Some(ledger[n].attempt) {
        assert InAttempt(ledger[n], artifact, h.value);
      } else if h.Some? {
        var i :| 0 <= i < n && InAttempt(front[i], artifact, h.value);
        assert ledger[i] == front[i];
      }
      assert forall i :: 0 <= i < n ==> ledger[i] == front[i];
    }
  }

  ghost predicate IsLatest(ledger: Ledger, artifact: Uuid, attempt: int, row: LedgerRow) {
    && (exists i :: 0 <= i < |ledger| && ledger[i] == row && InAttempt(row, artifact, attempt))
    && forall i :: 0 <= i < |ledger| && InAttempt(ledger[i], artifact, attempt) ==>
         ledger[i] == row || Later(row, ledger[i])
  }

  lemma {:induction false} LatestRowIsLatest(ledger: Ledger, artifact: Uuid, attempt: int)
    requires forall i, j :: 0 <= i < j < |ledger| ==> ledger[i].id != ledger[j].id
    ensures var r := LatestRow(ledger, artifact, attempt);
            && (r.None? <==> forall i :: 0 <= i < |ledger| ==> !InAttempt(ledger[i], artifact, attempt))
            && (r.Some? ==> IsLatest(ledger, artifact, attempt, r.value))
  {
    if ledger != [] {
      var n := |ledger| - 1;
      var front := ledger[..n];
      LatestRowIsLatest(front, artifact, attempt);
      assert forall i :: 0 <= i < n ==> ledger[i] == front[i];
      var r := LatestRow(ledger, artifact, attempt);
      var before := LatestRow(front, artifact, attempt);
      if before.Some? {
        var j :| 0 <= j < n && front[j] == before.value;
        assert ledger[j] == before.value && ledger[j].id != ledger[n].id;
      }
      if r.Some? && r.value == ledger[n] {
        assert ledger[n] == r.value;
      }
    }
  }

  lemma ReachableIdsDistinct(ledger: Ledger)
    requires Reachable(ledger)
    ensures forall i, j :: 0 <= i < j < |ledger| ==> ledger[i].id != ledger[j].id
  {
    forall i, j | 0 <= i < j < |ledger|
      ensures ledger[i].id != ledger[j].id
    {
      assert LedgerInsertable(ledger[..j], ledger[j]);
      assert ledger[..j][i] == ledger[i];
    }
  }

  /** The active row is the latest row of the highest attempt. */
  lemma {:induction false} ActiveRowIsLatestOfHighest(ledger: Ledger, artifact: Uuid)
    ensures ActiveRow(ledger, artifact).Some? <==> HighestAttempt(ledger, artifact).Some?
    ensures HighestAttempt(ledger, artifact).Some? ==>
      ActiveRow(ledger, artifact) == LatestRow(ledger, artifact, HighestAttempt(ledger, artifact).value)
  {
    if ledger != [] {
      var n := |ledger| - 1;
      var front := ledger[..n];
      ActiveRowIsLatestOfHighest(front, artifact);
      ActiveAttemptIsHighest(front, artifact);
      HighestAttemptIsMaximum(front, artifact);
      if ledger[n].artifactId == artifact && HighestAttempt(ledger, artifact) != HighestAttempt(front, artifact) {
        NoRowsNoLatest(front, artifact, ledger[n].attempt);
      }
    }
  }

  lemma {:induction false} ActiveAttemptIsHighest(ledger: Ledger, artifact: Uuid)
    ensures ActiveRow(ledger, artifact).Some? <==> HighestAttempt(ledger, artifact).Some?
    ensures ActiveRow(ledger, artifact).Some? ==>
      ActiveRow(ledger, artifact).value.attempt == HighestAttempt(ledger, artifact).value
  {
    if ledger != [] {
      ActiveAttemptIsHighest(ledger[..|ledger| - 1], artifact);
    }
  }

  lemma {:induction false} NoRowsNoLatest(ledger: Ledger, artifact: Uuid, attempt: int)
    requires forall i :: 0 <= i < |ledger| ==> !InAttempt(ledger[i], artifact, attempt)
    ensures LatestRow(ledger, artifact, attempt).None?
  {
    if ledger != [] {
      NoRowsNoLatest(ledger[..|ledger| - 1], artifact, attempt);
    }
  }

  // ---------------------------------------------------------------- safety whatever the timestamps

  ghost predicate Occurs(ledger: Ledger, artifact: Uuid, attempt: int) {
    exists i :: 0 <= i < |ledger| && InAttempt(ledger[i], artifact, attempt)
  }

  ghost predicate Opened(ledger: Ledger, artifact: Uuid, attempt: int) {
    exists i :: 0 <= i < |ledger| && InAttempt(ledger[i], artifact, attempt) && ledger[i].state.Quarantined?
  }

  lemma OccursAppend(front: Ledger, row: LedgerRow, artifact: Uuid, attempt: int)
    ensures Occurs(front + [row], artifact, attempt)
            <==> Occurs(front, artifact, attempt) || InAttempt(row, artifact, attempt)
    ensures Opened(front + [row], artifact, attempt)
            <==> Opened(front, artifact, attempt) || (InAttempt(row, artifact, attempt) && row.state.Quarantined?)
  {
    var ledger := front + [row];
    assert ledger[|front|] == row;
    assert forall i :: 0 <= i < |front| ==> ledger[i] == front[i];
  }

  lemma AcceptedAttempt(front: Ledger, row: LedgerRow)
    requires LedgerInsertable(front, row)
    ensures var h := HighestAttempt(front, row.artifactId);
            && row.attempt >= 1
            && (row.state.Quarantined? ==> row.attempt == if h.None? then 1 else h.value + 1)
            && (!row.state.Quarantined? ==> h == Some(row.attempt))
  {
    hide HighestAttempt, LatestRow;
  }

  /** The attempts of an artifact are exactly 1..n, each opened by a quarantined row. */
  lemma {:induction false} AttemptsAreContiguous(ledger: Ledger, artifact: Uuid, attempt: int)
    requires Reachable(ledger)
    ensures Occurs(ledger, artifact, attempt) <==>
      HighestAttempt(ledger, artifact).Some? && 1 <= attempt <= HighestAttempt(ledger, artifact).value
    ensures Opened(ledger, artifact, attempt) <==> Occurs(ledger, artifact, attempt)
  {
    if ledger != [] {
      var n := |ledger| - 1;
      var front := ledger[..n];
      PrefixReachable(ledger, n);
      AttemptsAreContiguous(front, artifact, attempt);
      assert LedgerInsertable(front, ledger[n]);
      AcceptedAttempt(front, ledger[n]);
      assert ledger == front + [ledger[n]];
      OccursAppend(front, ledger[n], artifact, attempt);
      hide Occurs, Opened, Reachable, LedgerInsertable;
    }
  }

  /** A row that does not open an attempt was accepted while its attempt was the highest. */
  lemma LaterRowsBelongToHighestAttempt(ledger: Ledger, i: nat)
    requires Reachable(ledger) && i < |ledger| && !ledger[i].state.Quarantined?
    ensures HighestAttempt(ledger[..i], ledger[i].artifactId) == Some(ledger[i].attempt)
    ensures Opened(ledger[..i], ledger[i].artifactId, ledger[i].attempt)
    ensures ledger[i].state.RedactedState? ==>
      exists v :: 0 <= v < i && InAttempt(ledger[v], ledger[i].artifactId, ledger[i].attempt)
                  && ledger[v].state.Verified?
  {
    var front := ledger[..i];
    var row := ledger[i];
    assert LedgerInsertable(front, row);
    PrefixReachable(ledger, i);
    AttemptsAreContiguous(front, row.artifactId, row.attempt);
    if row.state.RedactedState? {
      ReachableIdsDistinct(front);
      LatestRowIsLatest(front, row.artifactId, row.attempt);
      var prior := LatestRow(front, row.artifactId, row.attempt).value;
      var v :| 0 <= v < i && front[v] == prior;
      assert ledger[v] == front[v];
    }
  }

  /** Each state occurs at most once in an attempt. */
  lemma StatesOncePerAttempt(ledger: Ledger, i: nat, j: nat)
    requires Reachable(ledger) && i < j < |ledger|
    requires InAttempt(ledger[j], ledger[i].artifactId, ledger[i].attempt)
    ensures ledger[i].state != ledger[j].state
  {
    assert LedgerInsertable(ledger[..j], ledger[j]);
    assert ledger[..j][i] == ledger[i];
  }

  // ---------------------------------------------------------------- histories under ordered clocks

  /** The rows of this attempt are stamped in commit order; nothing is said of any other. */
  ghost predicate OrderedIn(ledger: Ledger, artifact: Uuid, attempt: int) {
    forall i, j :: 0 <= i < j < |ledger| ==>
      InAttempt(ledger[i], artifact, attempt) && InAttempt(ledger[j], artifact, attempt) ==>
        ledger[i].occurredAt < ledger[j].occurredAt
  }

  /** The states that one attempt went through. */
  function History(ledger: Ledger, artifact: Uuid, attempt: int): seq<ProcessingState> {
    if ledger == [] then []
    else
      var last := ledger[|ledger| - 1];
      var before := History(ledger[..|ledger| - 1], artifact, attempt);
      if InAttempt(last, artifact, attempt) then before + [last.state] else before
  }

  predicate WellFormedHistory(h: seq<ProcessingState>) {
    h <= [Quarantined, Verified, RedactedState]
    || h <= [Quarantined, Verified, Failed]
    || h <= [Quarantined, Failed]
  }

  /** Stamped in commit order, the latest row of an attempt is the one committed last. */
  lemma {:induction false} LatestIsLastCommitted(ledger: Ledger, artifact: Uuid, attempt: int)
    requires OrderedIn(ledger, artifact, attempt)
    ensures var h := History(ledger, artifact, attempt);
            var r := LatestRow(ledger, artifact, attempt);
            && (r.None? <==> h == [])
            && (r.Some? ==> r.value.state == h[|h| - 1])
            && (r.Some? ==> exists i :: 0 <= i < |ledger| && ledger[i] == r.value
                                        && InAttempt(r.value, artifact, attempt))
  {
    if ledger != [] {
      var n := |ledger| - 1;
      var front := ledger[..n];
      assert forall i :: 0 <= i < n ==> ledger[i] == front[i];
      assert OrderedIn(front, artifact, attempt);
      LatestIsLastCommitted(front, artifact, attempt);
      var before := LatestRow(front, artifact, attempt);
      if before.Some? {
        var j :| 0 <= j < n && front[j] == before.value && InAttempt(before.value, artifact, attempt);
        assert ledger[j] == before.value;
      }
      if InAttempt(ledger[n], artifact, attempt) {
        assert LatestRow(ledger, artifact, attempt) == Some(ledger[n]);
      }
    }
  }

  predicate Continues(h: seq<ProcessingState>, next: ProcessingState) {
    if h == [] then next.Quarantined? else TransitionValid(h[|h| - 1], next)
  }

  lemma HistoryStep(h: seq<ProcessingState>, next: ProcessingState)
    requires WellFormedHistory(h) && Continues(h, next)
    ensures WellFormedHistory(h + [next])
  {
  }

  lemma {:induction false} HistoryMembers(ledger: Ledger, artifact: Uuid, attempt: int)
    ensures History(ledger, artifact, attempt) == []
            <==> forall i :: 0 <= i < |ledger| ==> !InAttempt(ledger[i], artifact, attempt)
  {
    if ledger != [] {
      var n := |ledger| - 1;
      assert forall i :: 0 <= i < n ==> ledger[i] == ledger[..n][i];
      HistoryMembers(ledger[..n], artifact, attempt);
    }
  }

  lemma AcceptedRowContinues(front: Ledger, row: LedgerRow)
    requires Reachable(front) && OrderedIn(front, row.artifactId, row.attempt) && LedgerInsertable(front, row)
    ensures Continues(History(front, row.artifactId, row.attempt), row.state)
  {
    LatestIsLastCommitted(front, row.artifactId, row.attempt);
    HistoryMembers(front, row.artifactId, row.attempt);
    HighestAttemptIsMaximum(front, row.artifactId);
  }

  /** An attempt whose rows are stamped in commit order is a prefix of q-v-r, q-v-f or q-f. */
  lemma {:induction false} OrderedHistoriesAreWellFormed(ledger: Ledger, artifact: Uuid, attempt: int)
    requires Reachable(ledger) && OrderedIn(ledger, artifact, attempt)
    ensures WellFormedHistory(History(ledger, artifact, attempt))
  {
    if ledger != [] {
      var n := |ledger| - 1;
      var front := ledger[..n];
      assert OrderedIn(front, artifact, attempt) by {
        assert forall i :: 0 <= i < n ==> ledger[i] == front[i];
      }
      PrefixReachable(ledger, n);
      OrderedHistoriesAreWellFormed(front, artifact, attempt);
      assert LedgerInsertable(front, ledger[n]);
      if InAttempt(ledger[n], artifact, attempt) {
        AcceptedRowContinues(front, ledger[n]);
        HistoryStep(History(front, artifact, attempt), ledger[n].state);
      }
    }
  }

  // ---------------------------------------------------------------- one verdict per attempt

  /** The attempt is the highest, and its quarantined row is the latest of its rows. */
  ghost predicate AwaitsVerdict(ledger: Ledger, artifact: Uuid, quarantined: LedgerRow) {
    && quarantined.state.Quarantined?
    && HighestAttempt(ledger, artifact) == Some(quarantined.attempt)
    && IsLatest(ledger, artifact, quarantined.attempt, quarantined)
  }

  lemma ActiveAwaitsVerdict(ledger: Ledger, artifact: Uuid)
    requires Reachable(ledger)
    ensures (ActiveRow(ledger, artifact).Some? && ActiveRow(ledger, artifact).value.state.Quarantined?)
            <==> exists q :: AwaitsVerdict(ledger, artifact, q)
    ensures forall q :: AwaitsVerdict(ledger, artifact, q) ==> ActiveRow(ledger, artifact) == Some(q)
  {
    ActiveRowIsLatestOfHighest(ledger, artifact);
    ReachableIdsDistinct(ledger);
    if HighestAttempt(ledger, artifact).Some? {
      LatestRowIsLatest(ledger, artifact, HighestAttempt(ledger, artifact).value);
      var r := LatestRow(ledger, artifact, HighestAttempt(ledger, artifact).value);
      HighestAttemptIsMaximum(ledger, artifact);
      if r.value.state.Quarantined? {
        assert AwaitsVerdict(ledger, artifact, r.value);
      }
    }
  }

  /** A verdict is accepted exactly when some quarantined row awaits it and it was not given before. */
  lemma VerdictAcceptedIff(ledger: Ledger, verdict: ScanVerdict, id: Uuid)
    requires Reachable(ledger)
    requires forall i :: 0 <= i < |ledger| ==> ledger[i].id != id
    ensures RecordScanOutcome(ledger, verdict, id).Success? <==>
      exists q :: AwaitsVerdict(ledger, verdict.artifactId, q)
                  && forall i :: 0 <= i < |ledger| && InAttempt(ledger[i], verdict.artifactId, q.attempt)
                       ==> ledger[i].state != (if verdict.clean then Verified else Failed)
  {
    var a := verdict.artifactId;
    ActiveAwaitsVerdict(ledger, a);
    var active := ActiveRow(ledger, a);
    if active.Some? && active.value.state.Quarantined? {
      ActiveRowIsLatestOfHighest(ledger, a);
      AttemptsAreContiguous(ledger, a, active.value.attempt);
      assert TriggerAccepts(ledger, VerdictRow(id, verdict, active.value));
      assert AwaitsVerdict(ledger, a, active.value);
    }
  }

  lemma {:induction false} HighestGrows(ledger: Ledger, more: Ledger, artifact: Uuid)
    requires ledger <= more && HighestAttempt(ledger, artifact).Some?
    ensures HighestAttempt(more, artifact).Some?
    ensures HighestAttempt(more, artifact).value >= HighestAttempt(ledger, artifact).value
  {
    if |more| > |ledger| {
      HighestGrows(ledger, more[..|more| - 1], artifact);
    } else {
      assert more == ledger;
    }
  }

  /** In an attempt stamped in commit order, at most one verdict is ever recorded. */
  lemma OneVerdictPerAttempt(
      before: Ledger, verdict: ScanVerdict, id: Uuid,
      later: Ledger, verdict': ScanVerdict, id': Uuid)
    requires RecordScanOutcome(before, verdict, id).Success?
    requires RecordScanOutcome(before, verdict, id).value.0 <= later
    requires Reachable(later)
    requires OrderedIn(later, verdict.artifactId, RecordScanOutcome(before, verdict, id).value.1.attempt)
    requires RecordScanOutcome(later, verdict', id').Success?
    requires verdict'.artifactId == verdict.artifactId
    ensures RecordScanOutcome(later, verdict', id').value.1.attempt
            > RecordScanOutcome(before, verdict, id).value.1.attempt
  {
    var a := verdict.artifactId;
    var row := RecordScanOutcome(before, verdict, id).value.1;
    var row' := RecordScanOutcome(later, verdict', id').value.1;
    var k := |before|;
    assert later[k] == row;
    HighestAttemptIsMaximum(later, a);
    ActiveRowIsLatestOfHighest(later, a);
    ActiveAttemptIsHighest(later, a);
    assert row'.attempt >= row.attempt;
    if row'.attempt == row.attempt {
      ReachableIdsDistinct(later);
      LatestRowIsLatest(later, a, row.attempt);
      var q := ActiveRow(later, a).value;
      var j :| 0 <= j < |later| && later[j] == q;
      assert InAttempt(later[k], a, row.attempt) && Later(q, later[k]);
      LaterRowsBelongToHighestAttempt(later, k);
      var p :| 0 <= p < k && InAttempt(later[..k][p], a, row.attempt) && later[..k][p].state.Quarantined?;
      if p < j {
        StatesOncePerAttempt(later, p, j);
      }
      assert false;
    }
  }

  /** Without that assumption a second verdict can be recorded in the same attempt. */
  lemma SkewedClockAdmitsSecondVerdict()
    ensures var quarantined := LedgerRow(1, 7, 1, Quarantined, None, 9, 10);
            var first := RecordScanOutcome([quarantined], ScanVerdict(7, true, "scan.clean", 5), 2);
            && Reachable([quarantined]) && first.Success?
            && RecordScanOutcome(first.value.0, ScanVerdict(7, false, "scan.malware_detected", 6), 3).Success?
            && first.value.1.attempt == 1
  {
    var quarantined := LedgerRow(1, 7, 1, Quarantined, None, 9, 10);
    var verified := LedgerRow(2, 7, 1, Verified, None, 9, 5);
    var ledger := [quarantined];
    assert ledger[..0] == [];
    assert Reachable(ledger);
    assert ActiveRow(ledger, 7) == Some(quarantined);
    assert LatestRow(ledger, 7, 1) == Some(quarantined) && HighestAttempt(ledger, 7) == Some(1);
    var next := ledger + [verified];
    assert next[..1] == ledger;
    assert ActiveRow(next, 7) == Some(quarantined);
    assert LatestRow(next, 7, 1) == Some(quarantined) && HighestAttempt(next, 7) == Some(1);
  }

  lemma ActiveAfterVerdict(ledger: Ledger, row: LedgerRow)
    requires ActiveRow(ledger, row.artifactId).Some? && ActiveRow(ledger, row.artifactId).value.attempt == row.attempt
    ensures var active := ActiveRow(ledger, row.artifactId).value;
            ActiveRow(ledger + [row], row.artifactId) == Some(if Later(row, active) then row else active)
  {
    assert (ledger + [row])[..|ledger|] == ledger;
  }

  lemma {:induction false} ActiveRowIsRow(ledger: Ledger, artifact: Uuid)
    requires ActiveRow(ledger, artifact).Some?
    ensures ActiveRow(ledger, artifact).value in ledger
  {
    if ActiveRow(ledger, artifact).value != ledger[|ledger| - 1] {
      ActiveRowIsRow(ledger[..|ledger| - 1], artifact);
    }
  }

  ghost predicate GivenInAttempt(ledger: Ledger, verdict: ScanVerdict, attempt: int) {
    exists i :: 0 <= i < |ledger| && InAttempt(ledger[i], verdict.artifactId, attempt)
                && ledger[i].state == (if verdict.clean then Verified else Failed)
  }

  lemma AcceptedIffAwaited(ledger: Ledger, verdict: ScanVerdict, id: Uuid, active: LedgerRow)
    requires Reachable(ledger) && ActiveRow(ledger, verdict.artifactId) == Some(active)
    requires forall i :: 0 <= i < |ledger| ==> ledger[i].id != id
    ensures RecordScanOutcome(ledger, verdict, id).Success?
            <==> active.state.Quarantined? && !GivenInAttempt(ledger, verdict, active.attempt)
  {
    hide Reachable, ActiveRow, RecordScanOutcome, AwaitsVerdict, InAttempt;
    VerdictAcceptedIff(ledger, verdict, id);
    ActiveAwaitsVerdict(ledger, verdict.artifactId);
  }

  /**
   * The exact condition: directly after a verdict a second one is accepted in the same attempt
   * if and only if that verdict was not given in the attempt and the first one was not stamped
   * after the quarantined row that it answered.
   */
  lemma SecondVerdictIff(ledger: Ledger, verdict: ScanVerdict, id: Uuid, verdict': ScanVerdict, id': Uuid)
    requires Reachable(ledger) && RecordScanOutcome(ledger, verdict, id).Success?
    requires verdict'.artifactId == verdict.artifactId
    requires id' != id && forall i :: 0 <= i < |ledger| ==> ledger[i].id != id'
    ensures ActiveRow(ledger, verdict.artifactId).Some?
    ensures var first := RecordScanOutcome(ledger, verdict, id).value;
            var quarantined := ActiveRow(ledger, verdict.artifactId).value;
            RecordScanOutcome(first.0, verdict', id').Success?
            <==> Later(quarantined, first.1) && !GivenInAttempt(first.0, verdict', first.1.attempt)
  {
    hide Reachable, ActiveRow, GivenInAttempt, TriggerAccepts;
    var active := ActiveRow(ledger, verdict.artifactId).value;
    var row := VerdictRow(id, verdict, active);
    AppendKeepsReachable(ledger, row);
    ActiveRowIsRow(ledger, verdict.artifactId);
    ActiveAfterVerdict(ledger, row);
    AcceptedIffAwaited(ledger + [row], verdict', id', if Later(row, active) then row else active);
  }

  /** What a recorded verdict says: verified when clean, failed with the given code when not, on the row it answers. */
  lemma RecordedVerdict(ledger: Ledger, verdict: ScanVerdict, id: Uuid)
    requires RecordScanOutcome(ledger, verdict, id).Success?
    ensures ActiveRow(ledger, verdict.artifactId).Some?
    ensures var (ledger', row) := RecordScanOutcome(ledger, verdict, id).value;
            var answered := ActiveRow(ledger, verdict.artifactId).value;
            && ledger' == ledger + [row]
            && row.id == id && row.artifactId == verdict.artifactId && row.attempt == answered.attempt
            && row.correlationId == answered.correlationId && row.occurredAt == verdict.occurredAt
            && (row.state == Verified <==> verdict.clean) && (row.state == Failed <==> !verdict.clean)
            && row.failureCode == (if verdict.clean then None else Some(verdict.reasonCode))
  {
    hide ActiveRow, LedgerInsertable;
  }

  lemma {:induction false} StateInHistory(ledger: Ledger, artifact: Uuid, attempt: int, i: nat)
    requires i < |ledger| && InAttempt(ledger[i], artifact, attempt)
    ensures ledger[i].state in History(ledger, artifact, attempt)
  {
    var n := |ledger| - 1;
    if i < n {
      assert ledger[..n][i] == ledger[i];
      StateInHistory(ledger[..n], artifact, attempt, i);
    }
  }

  lemma HistoryExtends(h: seq<ProcessingState>, next: ProcessingState)
    requires h != [] && WellFormedHistory(h)
    ensures TransitionValid(h[|h| - 1], next) <==> WellFormedHistory(h + [next])
    ensures WellFormedHistory(h + [next]) ==> next !in h
  {
    var more := h + [next];
    if |h| == 1 {
      assert h == [Quarantined];
      assert more == [Quarantined, next];
      var verified, failed := [Quarantined, Verified], [Quarantined, Failed];
      assert [Quarantined, Verified, RedactedState][..2] == verified;
      assert [Quarantined, Verified, Failed][..2] == verified;
      assert failed[..2] == failed;
      assert more[1] == next;
    } else if |h| == 2 {
      assert h == [Quarantined, h[1]] && (h[1] == Verified || h[1] == Failed);
      assert more == [Quarantined, h[1], next];
      var redacted, failed := [Quarantined, Verified, RedactedState], [Quarantined, Verified, Failed];
      assert redacted[..3] == redacted && failed[..3] == failed;
      assert more[1] == h[1] && more[2] == next;
    } else {
      assert |h| == 3 && |more| == 4;
      assert h[2] == RedactedState || h[2] == Failed;
    }
  }

  lemma OpeningAcceptedIff(ledger: Ledger, row: LedgerRow)
    requires Reachable(ledger) && row.state == Quarantined
    ensures TriggerAccepts(ledger, row) && row.attempt >= 1
            <==> && !Occurs(ledger, row.artifactId, row.attempt)
                 && (row.attempt == 1 || (row.attempt > 1 && Occurs(ledger, row.artifactId, row.attempt - 1)))
  {
    hide Reachable, HighestAttempt, Occurs;
    var a, n := row.artifactId, row.attempt;
    if HighestAttempt(ledger, a).Some? {
      HighestOccurs(ledger, a);
    }
    AttemptsAreContiguous(ledger, a, n);
    AttemptsAreContiguous(ledger, a, n - 1);
    AttemptsAreContiguous(ledger, a, 1);
  }

  lemma HighestOccurs(ledger: Ledger, artifact: Uuid)
    requires Reachable(ledger) && HighestAttempt(ledger, artifact).Some?
    ensures HighestAttempt(ledger, artifact).value >= 1
  {
    hide Reachable, HighestAttempt, Occurs;
    HighestAttemptIsMaximum(ledger, artifact);
    var h := HighestAttempt(ledger, artifact).value;
    OccursAtHighest(ledger, artifact, h);
    AttemptsAreContiguous(ledger, artifact, h);
  }

  lemma OccursAtHighest(ledger: Ledger, artifact: Uuid, h: int)
    requires exists i :: 0 <= i < |ledger| && InAttempt(ledger[i], artifact, h)
    ensures Occurs(ledger, artifact, h)
  {
  }

  lemma ContinuationAcceptedIff(ledger: Ledger, row: LedgerRow)
    requires Reachable(ledger) && OrderedIn(ledger, row.artifactId, row.attempt) && row.state != Quarantined
    ensures TriggerAccepts(ledger, row) && row.attempt >= 1
            <==> && Occurs(ledger, row.artifactId, row.attempt)
                 && !Occurs(ledger, row.artifactId, row.attempt + 1)
                 && WellFormedHistory(History(ledger, row.artifactId, row.attempt) + [row.state])
  {
    hide Reachable, OrderedIn, HighestAttempt, LatestRow, History, WellFormedHistory, TransitionValid, Occurs,
      InAttempt;
    var a, n := row.artifactId, row.attempt;
    var h := History(ledger, a, n);
    AttemptsAreContiguous(ledger, a, n);
    AttemptsAreContiguous(ledger, a, n + 1);
    LatestIsLastCommitted(ledger, a, n);
    if HighestAttempt(ledger, a).Some? {
      HighestOccurs(ledger, a);
    }
    OccursIffHistory(ledger, a, n);
    if h != [] {
      OrderedHistoriesAreWellFormed(ledger, a, n);
      HistoryExtends(h, row.state);
    }
  }

  lemma OccursIffHistory(ledger: Ledger, artifact: Uuid, attempt: int)
    ensures Occurs(ledger, artifact, attempt) <==> History(ledger, artifact, attempt) != []
  {
    hide History;
    HistoryMembers(ledger, artifact, attempt);
  }

  lemma NewStateIffFree(ledger: Ledger, row: LedgerRow)
    requires Reachable(ledger) && OrderedIn(ledger, row.artifactId, row.attempt)
    requires TriggerAccepts(ledger, row) && row.attempt >= 1
    ensures forall i :: 0 <= i < |ledger| ==>
      !(ledger[i].artifactId == row.artifactId && ledger[i].attempt == row.attempt && ledger[i].state == row.state)
  {
    hide Reachable, OrderedIn, TriggerAccepts, History, WellFormedHistory, TransitionValid;
    var a, n := row.artifactId, row.attempt;
    var h := History(ledger, a, n);
    if row.state == Quarantined {
      OpeningAcceptedIff(ledger, row);
    } else {
      ContinuationAcceptedIff(ledger, row);
      OccursIffHistory(ledger, a, n);
      OrderedHistoriesAreWellFormed(ledger, a, n);
      HistoryExtends(h, row.state);
    }
    forall i | 0 <= i < |ledger| && InAttempt(ledger[i], a, n)
      ensures ledger[i].state in h
    {
      StateInHistory(ledger, a, n, i);
    }
  }

  /**
   * What the table accepts for an attempt stamped in commit order: a first row opens the next
   * attempt, and a later one extends the history of the highest attempt to another prefix of
   * quarantined-verified-redacted, quarantined-verified-failed or quarantined-failed.
   */
  lemma RowAcceptedIff(ledger: Ledger, row: LedgerRow)
    requires Reachable(ledger) && OrderedIn(ledger, row.artifactId, row.attempt)
    ensures LedgerInsertable(ledger, row)
            <==> && (forall i :: 0 <= i < |ledger| ==> ledger[i].id != row.id)
                 && (row.failureCode.Some? <==> row.state == Failed)
                 && if row.state == Quarantined
                    then
                      && !Occurs(ledger, row.artifactId, row.attempt)
                      && (row.attempt == 1 || (row.attempt > 1 && Occurs(ledger, row.artifactId, row.attempt - 1)))
                    else
                      && Occurs(ledger, row.artifactId, row.attempt)
                      && !Occurs(ledger, row.artifactId, row.attempt + 1)
                      && WellFormedHistory(History(ledger, row.artifactId, row.attempt) + [row.state])
  {
    hide Reachable, OrderedIn, TriggerAccepts, History, WellFormedHistory, Occurs;
    if row.state == Quarantined {
      OpeningAcceptedIff(ledger, row);
    } else {
      ContinuationAcceptedIff(ledger, row);
    }
    if TriggerAccepts(ledger, row) && row.attempt >= 1 {
      NewStateIffFree(ledger, row);
    }
  }

  /** The row that a verdict answers is the artifact's last by attempt, then by time, then by id. */
  lemma ActiveRowIsLast(ledger: Ledger, artifact: Uuid, i: nat)
    requires Reachable(ledger) && i < |ledger| && ledger[i].artifactId == artifact
    ensures ActiveRow(ledger, artifact).Some?
    ensures var active, row := ActiveRow(ledger, artifact).value, ledger[i];
            || row == active
            || row.attempt < active.attempt
            || (row.attempt == active.attempt && row.occurredAt < active.occurredAt)
            || (row.attempt == active.attempt && row.occurredAt == active.occurredAt && row.id < active.id)
  {
    hide Reachable, ActiveRow, LatestRow, HighestAttempt;
    HighestAttemptIsMaximum(ledger, artifact);
    ActiveRowIsLatestOfHighest(ledger, artifact);
    ActiveAttemptIsHighest(ledger, artifact);
    ReachableIdsDistinct(ledger);
    LatestRowIsLatest(ledger, artifact, HighestAttempt(ledger, artifact).value);
  }
}
