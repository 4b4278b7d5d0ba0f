/**
 * What ties a case projection to its immutable history, its events and the snapshots that
 * clients hold, and why every write keeps it.
 */
module CaseInvariants {
  import opened Base
  import opened CaseDomain
  import opened Tables
  import opened CaseSpine
  import opened Machine
  import opened DeliveryInvariants

  type CaseTable = map<Uuid, CaseRow>

  // ---------------------------------------------------------------- history of one case

  /** The transitions of one case, in commit order. */
  function HistoryOf(transitions: seq<TransitionRow>, caseId: Uuid): seq<TransitionRow> {
    if transitions == [] then []
    else
      var last := transitions[|transitions| - 1];
      var before := HistoryOf(transitions[..|transitions| - 1], caseId);
      if last.caseId == caseId then before + [last] else before
  }

  /** The projection that replaying a history yields, if its rows fit together. */
  function Replay(history: seq<TransitionRow>): Option<(CaseState, nat)> {
    if history == [] then Some((New, 0))
    else
      var last := history[|history| - 1];
      var before := Replay(history[..|history| - 1]);
      if before.Some? && last.fromState == before.value.0 && last.version == before.value.1 + 1
      then Some((last.toState, last.version))
      else None
  }

  lemma HistoryAppend(transitions: seq<TransitionRow>, row: TransitionRow, caseId: Uuid)
    ensures HistoryOf(transitions + [row], caseId)
            == if row.caseId == caseId then HistoryOf(transitions, caseId) + [row] else HistoryOf(transitions, caseId)
  {
    assert (transitions + [row])[..|transitions|] == transitions;
  }

  lemma {:induction false} HistoryRowIsCommitted(transitions: seq<TransitionRow>, caseId: Uuid, j: nat)
    requires j < |HistoryOf(transitions, caseId)|
    ensures exists i :: 0 <= i < |transitions| && transitions[i] == HistoryOf(transitions, caseId)[j]
    ensures HistoryOf(transitions, caseId)[j].caseId == caseId
  {
    var n := |transitions| - 1;
    var front := transitions[..n];
    if j < |HistoryOf(front, caseId)| {
      HistoryRowIsCommitted(front, caseId, j);
      var i :| 0 <= i < n && front[i] == HistoryOf(front, caseId)[j];
      assert transitions[i] == HistoryOf(transitions, caseId)[j];
    } else {
      assert transitions[n] == HistoryOf(transitions, caseId)[j];
    }
  }

  lemma {:induction false} HistoryEmpty(transitions: seq<TransitionRow>, caseId: Uuid)
    requires forall i :: 0 <= i < |transitions| ==> transitions[i].caseId != caseId
    ensures HistoryOf(transitions, caseId) == []
  {
    if transitions != [] {
      HistoryEmpty(transitions[..|transitions| - 1], caseId);
    }
  }

  predicate Follows(history: seq<TransitionRow>, i: nat)
    requires i < |history|
  {
    && history[i].version == i + 1
    && history[i].fromState == (if i == 0 then New else history[i - 1].toState)
  }

  /** In a history that replays, versions are exactly 1..n and each row starts where the last ended. */
  lemma {:induction false} ReplayIsLinked(history: seq<TransitionRow>)
    requires Replay(history).Some?
    ensures Replay(history).value.1 == |history|
    ensures Replay(history).value.0 == if history == [] then New else history[|history| - 1].toState
    ensures forall i :: 0 <= i < |history| ==> Follows(history, i)
  {
    if history != [] {
      var n := |history| - 1;
      var front := history[..n];
      ReplayIsLinked(front);
      forall i | 0 <= i < n
        ensures Follows(history, i)
      {
        assert Follows(front, i);
      }
      if n > 0 {
        assert front[n - 1] == history[n - 1];
      }
      assert Follows(history, n);
    }
  }

  // ---------------------------------------------------------------- the invariants

  /** Every projection is the replay of its history, and histories are of existing cases. */
  ghost predicate ProjectionsReplay(cases: CaseTable, transitions: seq<TransitionRow>) {
    && (forall id :: id in cases ==>
          && cases[id].id == id
          && Replay(HistoryOf(transitions, id)) == Some((cases[id].state, cases[id].version)))
    && (forall i :: 0 <= i < |transitions| ==> transitions[i].caseId in cases)
  }

  /** The decision behind a row: the command was valid and accepted from the row's own starting point. */
  ghost predicate DecidedBy(row: TransitionRow, command: TransitionCommand) {
    && row.version > 0
    && command.Valid()
    && var decision := ApplyTransition(CaseSnapshot(row.caseId, row.fromState, row.version - 1), command);
       decision.Success? && row == NewTransitionRow(decision.value.transition, command.actor)
  }

  ghost predicate DecisionsMatch(transitions: seq<TransitionRow>, accepted: seq<TransitionCommand>) {
    && |transitions| == |accepted|
    && forall i :: 0 <= i < |transitions| ==> DecidedBy(transitions[i], accepted[i])
  }

  /** A held snapshot may be old, but one whose version is still current has the current state. */
  ghost predicate SnapshotsSound(cases: CaseTable, snapshots: map<Uuid, CaseSnapshot>) {
    forall c :: c in snapshots ==>
      var s := snapshots[c];
      && s.caseId in cases
      && s.version <= cases[s.caseId].version
      && (s.version == cases[s.caseId].version ==> s.state == cases[s.caseId].state)
  }

  predicate Records(event: EventRow, row: TransitionRow) {
    && event.transitionId == Some(row.id)
    && event.caseId == row.caseId
    && event.eventType == EventTypeOf(row.toState)
    && event.aggregateVersion == row.version
    && event.occurredAt == row.occurredAt
  }

  predicate Creates(event: EventRow, caseId: Uuid) {
    event.eventType.CaseCreated? && event.caseId == caseId && event.aggregateVersion == 0 && event.transitionId.None?
  }

  ghost predicate HasCreation(events: EventTable, caseId: Uuid) {
    exists e :: e in events && Creates(events[e], caseId)
  }

  ghost predicate HasRecord(events: EventTable, row: TransitionRow) {
    exists e :: e in events && Records(events[e], row)
  }

  ghost predicate HasTransition(transitions: seq<TransitionRow>, event: EventRow) {
    exists i :: 0 <= i < |transitions| && Records(event, transitions[i])
  }

  /** Each case has exactly one creation event, and creation events are of cases. */
  ghost predicate CreationEvents(cases: CaseTable, events: EventTable) {
    && (forall c :: c in cases ==> HasCreation(events, c))
    && (forall e :: e in events && events[e].eventType.CaseCreated? ==>
          events[e].caseId in cases && Creates(events[e], events[e].caseId))
    && (forall e, f :: e in events && f in events ==>
          events[e].eventType.CaseCreated? && events[f].eventType.CaseCreated? ==>
          events[e].caseId == events[f].caseId ==> e == f)
  }

  /** Each transition has exactly one event that records it, and every transition event records one. */
  ghost predicate TransitionEvents(transitions: seq<TransitionRow>, events: EventTable) {
    && (forall i :: 0 <= i < |transitions| ==> HasRecord(events, transitions[i]))
    && (forall e :: e in events && events[e].transitionId.Some? ==> HasTransition(transitions, events[e]))
    && (forall e, f :: e in events && f in events ==>
          events[e].transitionId.Some? ==> events[f].transitionId == events[e].transitionId ==> e == f)
  }

  /** Any other event is an artifact fact. */
  ghost predicate OtherEvents(events: EventTable) {
    forall e :: e in events && events[e].transitionId.None? ==>
      events[e].eventType.CaseCreated? || events[e].eventType.ArtifactCompleted?
  }

  // ---------------------------------------------------------------- create

  ghost predicate SameOtherTables(db: Db, db': Db) {
    && db'.intents == db.intents && db'.artifacts == db.artifacts && db'.ledger == db.ledger
    && db'.eventActorRequired == db.eventActorRequired
  }

  lemma InsertEventAndOutboxEffect(db: Db, event: EventRow, outboxId: Uuid)
    requires InsertEventAndOutbox(db, event, outboxId).Success?
    ensures var db' := InsertEventAndOutbox(db, event, outboxId).value;
            && AddsEvent(db, db', event, outboxId)
            && db' == db.(events := db'.events, outbox := db'.outbox)
  {
  }

  lemma CaseRowsEffect(db: Db, c: CreateCaseCommand)
    requires WriteCaseRows(db, c).Success?
    ensures var db' := WriteCaseRows(db, c).value;
            && c.caseId !in db.cases
            && db' == db.(cases := db.cases[c.caseId := NewCaseRow(c)], inputs := db'.inputs)
  {
  }

  ghost predicate CreationWrites(db: Db, db': Db, c: CreateCaseCommand, outboxId: Uuid) {
    var event := NewEventRow(CreationEvent(c), None, Some(c.RequestFingerprint()));
    && c.caseId !in db.cases
    && db'.cases == db.cases[c.caseId := NewCaseRow(c)]
    && AddsEvent(db, db', event, outboxId)
    && db'.transitions == db.transitions && SameOtherTables(db, db')
  }

  /** What a successful creation of a new case changes. */
  lemma CreateEffect(db: Db, c: CreateCaseCommand, outboxId: Uuid, auditId: Uuid)
    requires WriteNewCase(db, c, outboxId, auditId).Success?
    ensures CreationWrites(db, WriteNewCase(db, c, outboxId, auditId).value, c, outboxId)
  {
    CaseRowsEffect(db, c);
    var event := NewEventRow(CreationEvent(c), None, Some(c.RequestFingerprint()));
    InsertEventAndOutboxEffect(WriteCaseRows(db, c).value, event, outboxId);
  }

  lemma CreateKeepsProjections(cases: CaseTable, transitions: seq<TransitionRow>, row: CaseRow)
    requires ProjectionsReplay(cases, transitions) && row.id !in cases && row.state.New? && row.version == 0
    ensures ProjectionsReplay(cases[row.id := row], transitions)
  {
    HistoryEmpty(transitions, row.id);
  }

  lemma CreateKeepsKeys(db: Db, db': Db, row: CaseRow)
    requires KeysUnique(db) && db'.cases == db.cases[row.id := row] && KeyOwners(db, row.idempotencyKey) == {}
    ensures KeysUnique(db')
  {
    forall a | a in db.cases
      ensures db.cases[a].idempotencyKey != row.idempotencyKey
    {
      assert a !in KeyOwners(db, row.idempotencyKey);
    }
  }

  ghost predicate AddsEventRow(events: EventTable, events': EventTable, event: EventRow) {
    && event.id !in events
    && (event.transitionId.Some? ==> forall e :: e in events ==> events[e].transitionId != event.transitionId)
    && events' == events[event.id := event]
  }

  lemma CreationKept(events: EventTable, events': EventTable, event: EventRow, caseId: Uuid)
    requires AddsEventRow(events, events', event) && HasCreation(events, caseId)
    ensures HasCreation(events', caseId)
  {
    var e :| e in events && Creates(events[e], caseId);
    assert e in events' && Creates(events'[e], caseId);
  }

  lemma RecordKept(events: EventTable, events': EventTable, event: EventRow, row: TransitionRow)
    requires AddsEventRow(events, events', event) && HasRecord(events, row)
    ensures HasRecord(events', row)
  {
    var e :| e in events && Records(events[e], row);
    assert e in events' && Records(events'[e], row);
  }

  lemma NewCreationEvent(cases: CaseTable, events: EventTable, events': EventTable, row: CaseRow, event: EventRow)
    requires CreationEvents(cases, events) && row.id !in cases
    requires AddsEventRow(events, events', event) && Creates(event, row.id)
    ensures CreationEvents(cases[row.id := row], events')
  {
    assert Creates(events'[event.id], row.id);
    forall c | c in cases
      ensures HasCreation(events', c)
    {
      CreationKept(events, events', event, c);
    }
  }

  lemma OtherEventKeepsCreations(
      cases: CaseTable, cases': CaseTable, events: EventTable, events': EventTable, event: EventRow)
    requires CreationEvents(cases, events) && cases'.Keys == cases.Keys
    requires AddsEventRow(events, events', event) && !event.eventType.CaseCreated?
    ensures CreationEvents(cases', events')
  {
    forall c | c in cases'
      ensures HasCreation(events', c)
    {
      CreationKept(events, events', event, c);
    }
  }

  lemma NewTransitionEvent(
      transitions: seq<TransitionRow>, row: TransitionRow, events: EventTable, events': EventTable, event: EventRow)
    requires TransitionEvents(transitions, events)
    requires AddsEventRow(events, events', event) && Records(event, row)
    ensures TransitionEvents(transitions + [row], events')
  {
    var transitions' := transitions + [row];
    assert Records(events'[event.id], transitions'[|transitions|]);
    forall i | 0 <= i < |transitions'|
      ensures HasRecord(events', transitions'[i])
    {
      if i < |transitions| {
        RecordKept(events, events', event, transitions[i]);
      }
    }
    forall e | e in events && events[e].transitionId.Some?
      ensures HasTransition(transitions', events[e])
    {
      assert HasTransition(transitions, events[e]);
      var i :| 0 <= i < |transitions| && Records(events[e], transitions[i]);
      assert Records(events[e], transitions'[i]);
    }
  }

  lemma OtherEventKeepsTransitions(
      transitions: seq<TransitionRow>, events: EventTable, events': EventTable, event: EventRow)
    requires TransitionEvents(transitions, events)
    requires AddsEventRow(events, events', event) && event.transitionId.None?
    ensures TransitionEvents(transitions, events')
  {
    forall i | 0 <= i < |transitions|
      ensures HasRecord(events', transitions[i])
    {
      RecordKept(events, events', event, transitions[i]);
    }
    forall e | e in events' && events'[e].transitionId.Some?
      ensures HasTransition(transitions, events'[e])
    {
      assert e in events && events[e] == events'[e];
    }
  }

  lemma OtherEventsKept(events: EventTable, events': EventTable, event: EventRow)
    requires OtherEvents(events) && AddsEventRow(events, events', event)
    requires event.transitionId.Some? || event.eventType.CaseCreated? || event.eventType.ArtifactCompleted?
    ensures OtherEvents(events')
  {
  }

  lemma CreateKeepsSnapshots(cases: CaseTable, snapshots: map<Uuid, CaseSnapshot>, row: CaseRow)
    requires SnapshotsSound(cases, snapshots) && row.id !in cases
    ensures SnapshotsSound(cases[row.id := row], snapshots)
  {
  }

  // ---------------------------------------------------------------- transition

  ghost predicate TransitionWrites(db: Db, db': Db, outcome: TransitionOutcome, actor: Actor, outboxId: Uuid) {
    var id := outcome.snapshot.caseId;
    var event := NewEventRow(outcome.event, Some(outcome.event.transitionId), None);
    && SwapMatches(db, outcome.snapshot)
    && db'.cases == db.cases[id := AdvancedCase(db.cases[id], outcome)]
    && db'.transitions == db.transitions + [NewTransitionRow(outcome.transition, actor)]
    && AddsEvent(db, db', event, outboxId)
    && SameOtherTables(db, db')
  }

  /** What a successful compare-and-swap changes. */
  lemma TransitionEffect(db: Db, outcome: TransitionOutcome, actor: Actor, outboxId: Uuid, auditId: Uuid)
    requires PersistTransition(db, outcome, actor, outboxId, auditId).Success?
    ensures TransitionWrites(
      db, PersistTransition(db, outcome, actor, outboxId, auditId).value.0, outcome, actor, outboxId)
  {
    var id := outcome.snapshot.caseId;
    var db1 := db.(cases := db.cases[id := AdvancedCase(db.cases[id], outcome)]);
    var db2 := InsertTransition(db1, NewTransitionRow(outcome.transition, actor)).value;
    InsertEventAndOutboxEffect(db2, NewEventRow(outcome.event, Some(outcome.event.transitionId), None), outboxId);
  }

  /** The compare-and-swap tests only the version, yet the recorded from_state is the true one. */
  lemma SwapSeesTrueState(db: Db, snapshots: map<Uuid, CaseSnapshot>, client: Uuid, command: TransitionCommand)
    requires client in snapshots && SnapshotsSound(db.cases, snapshots)
    requires ApplyTransition(snapshots[client], command).Success?
    requires SwapMatches(db, ApplyTransition(snapshots[client], command).value.snapshot)
    ensures var outcome := ApplyTransition(snapshots[client], command).value;
            outcome.transition.fromState == db.cases[outcome.snapshot.caseId].state
  {
  }

  lemma ReplayAppend(history: seq<TransitionRow>, row: TransitionRow)
    requires Replay(history) == Some((row.fromState, row.version - 1))
    ensures Replay(history + [row]) == Some((row.toState, row.version))
  {
    assert (history + [row])[..|history|] == history;
  }

  /** Appending the next transition of a case advances exactly that case's replay. */
  lemma TransitionKeepsProjections(
      cases: CaseTable, transitions: seq<TransitionRow>, updated: CaseRow, row: TransitionRow)
    requires ProjectionsReplay(cases, transitions) && row.caseId in cases
    requires row.fromState == cases[row.caseId].state && row.version == cases[row.caseId].version + 1
    requires updated.id == row.caseId && updated.state == row.toState && updated.version == row.version
    ensures ProjectionsReplay(cases[row.caseId := updated], transitions + [row])
  {
    var cases' := cases[row.caseId := updated];
    forall c | c in cases'
      ensures Replay(HistoryOf(transitions + [row], c)) == Some((cases'[c].state, cases'[c].version))
    {
      HistoryAppend(transitions, row, c);
      if c == row.caseId {
        ReplayAppend(HistoryOf(transitions, c), row);
      }
    }
  }

  lemma TransitionKeepsSnapshots(cases: CaseTable, snapshots: map<Uuid, CaseSnapshot>, id: Uuid, row: CaseRow)
    requires SnapshotsSound(cases, snapshots) && id in cases && row.version == cases[id].version + 1
    ensures SnapshotsSound(cases[id := row], snapshots)
  {
  }
}
