/**
 * What one call of the case repository does to the tables
 * (services/api/netops_api/application/cases.py). Each function runs its statements in
 * order and stops at the first failure; a failed call leaves the tables as they were,
 * because its savepoint is rolled back.
 */
module CaseSpine {
  import opened Base
  import opened CaseDomain
  import opened Tables

  datatype CreateCaseCommand = CreateCaseCommand(
    caseId: Uuid,
    eventId: Uuid,
    idempotencyKey: string,
    title: string,
    category: Option<string>,
    severity: Severity,
    assetId: Option<Uuid>,
    actor: Actor,
    correlationId: Uuid,
    occurredAt: Time,
    input: Option<CaseInput>)
  {
    /** What the constructors of the command, of its actor and of its input accept. */
    predicate Valid() {
      && actor.Valid()
      && !Blank(idempotencyKey) && |idempotencyKey| <= 255
      && !Blank(title) && |title| <= 500
      && (category.Some? ==> !Blank(category.value) && |category.value| <= 100)
      && (input.Some? ==>
            && !Blank(input.value.kind) && |input.value.kind| <= 100
            && IsSha256(input.value.contentSha256))
    }

    function RequestFingerprint(): Fingerprint {
      Fingerprint(title, category, severity, assetId,
                  if input.Some?
                  then Some((input.value.kind, input.value.contentSha256, input.value.content))
                  else None)
    }
  }

  datatype CreateCaseResult = CreateCaseResult(case_: CaseRow, created: bool)

  // ---------------------------------------------------------------- rows written

  function NewCaseRow(c: CreateCaseCommand): CaseRow {
    CaseRow(c.caseId, c.assetId, c.title, c.category, c.severity, New, 0, c.idempotencyKey,
            c.RequestFingerprint(), c.actor.id, c.correlationId, c.occurredAt, c.occurredAt)
  }

  function CreationEvent(c: CreateCaseCommand): CaseEventCommand {
    CaseEventCommand(c.eventId, CaseCreated, c.caseId, 0, c.eventId, c.actor.id, c.correlationId, c.occurredAt)
  }

  function NewTransitionRow(t: CaseStateTransition, actor: Actor): TransitionRow {
    TransitionRow(t.transitionId, t.caseId, t.fromState, t.toState, t.version, t.actorId, actor.kind,
                  t.correlationId, t.approvalId, t.verificationNote, t.knowledgeItemId, t.note, t.occurredAt)
  }

  function CaseEventPayload(event: CaseEventCommand, transitionId: Option<Uuid>, request: Option<Fingerprint>)
    : Payload
  {
    CasePayload(event.caseId, event.aggregateVersion, transitionId, event.actorId, event.correlationId, request)
  }

  function NewEventRow(event: CaseEventCommand, transitionId: Option<Uuid>, request: Option<Fingerprint>)
    : EventRow
  {
    EventRow(event.eventId, event.caseId, transitionId, event.eventType, event.aggregateVersion,
             Some(event.actorId), event.correlationId, CaseEventPayload(event, transitionId, request),
             event.occurredAt)
  }

  /** Every outbox row starts unpublished, unleased and never attempted. */
  function NewOutboxRow(id: Uuid, event: EventRow): OutboxRow {
    OutboxRow(id, event.caseId, event.id, event.eventType, event.aggregateVersion, event.correlationId,
              event.payload, event.occurredAt, None, 0, None, None, None, event.occurredAt)
  }

  function InsertEventAndOutbox(db: Db, event: EventRow, outboxId: Uuid): Result<Db, DbError> {
    var db1 :- InsertEvent(db, event);
    InsertOutbox(db1, NewOutboxRow(outboxId, event))
  }

  // ---------------------------------------------------------------- the repository calls

  /** `uq_cases_organization_idempotency_key`. */
  ghost predicate KeysUnique(db: Db) {
    forall a, b :: a in db.cases && b in db.cases ==>
      db.cases[a].idempotencyKey == db.cases[b].idempotencyKey ==> a == b
  }

  /** Where `ON CONFLICT (organization_id, idempotency_key)` finds a row: at most one case. */
  function KeyOwners(db: Db, key: string): set<Uuid> {
    set id | id in db.cases && db.cases[id].idempotencyKey == key
  }

  lemma LeastIdExists(ids: set<Uuid>)
    requires ids != {}
    ensures exists id :: id in ids && forall o :: o in ids ==> id <= o
  {
    var id :| id in ids;
    if less :| less in ids && less < id {
      var below := set o | o in ids && o < id;
      assert below < ids by {
        assert id in ids && id !in below;
      }
      assert less in below;
      LeastIdExists(below);
      var m :| m in below && forall o :: o in below ==> m <= o;
      assert forall o :: o in ids ==> o in below || id <= o;
    }
  }

  function CaseByKey(db: Db, key: string): (row: CaseRow)
    requires KeyOwners(db, key) != {}
  {
    var owners := KeyOwners(db, key);
    LeastIdExists(owners);
    var id :| id in owners && forall o :: o in owners ==> id <= o;
    db.cases[id]
  }

  /** The projection and, when one is supplied, its immutable input. */
  function WriteCaseRows(db: Db, c: CreateCaseCommand): Result<Db, DbError> {
    var db1 :- InsertCase(db, NewCaseRow(c));
    if c.input.Some?
    then InsertInput(db1, InputRow(c.input.value.inputId, c.caseId, c.input.value, c.occurredAt))
    else Success(db1)
  }

  /** The statements of a creation whose key is free. */
  function WriteNewCase(db: Db, c: CreateCaseCommand, outboxId: Uuid, auditId: Uuid): Result<Db, DbError> {
    var db1 :- WriteCaseRows(db, c);
    var event := NewEventRow(CreationEvent(c), None, Some(c.RequestFingerprint()));
    var db2 :- InsertEventAndOutbox(db1, event, outboxId);
    InsertAudit(db2, AuditRow(auditId, CaseCreatedAudit, c.actor.id, c.correlationId, c.eventId, c.occurredAt))
  }

  function CreateCase(db: Db, c: CreateCaseCommand, outboxId: Uuid, auditId: Uuid)
    : Result<(Db, CreateCaseResult), DbError>
  {
    if KeyOwners(db, c.idempotencyKey) != {} then
      var existing := CaseByKey(db, c.idempotencyKey);
      if existing.request != c.RequestFingerprint() then Failure(IdempotencyConflict(existing.id))
      else Success((db, CreateCaseResult(existing, false)))
    else
      var db1 :- WriteNewCase(db, c, outboxId, auditId);
      Success((db1, CreateCaseResult(NewCaseRow(c), true)))
  }

  function GetSnapshot(db: Db, caseId: Uuid): Result<CaseSnapshot, DbError> {
    if caseId in db.cases
    then Success(CaseSnapshot(caseId, db.cases[caseId].state, db.cases[caseId].version))
    else Failure(CaseNotFound)
  }

  /** The row that `_UPDATE_CASE_VERSION` leaves when its version guard holds. */
  function AdvancedCase(row: CaseRow, outcome: TransitionOutcome): CaseRow {
    row.(state := outcome.snapshot.state, version := outcome.snapshot.version,
         updatedAt := outcome.transition.occurredAt)
  }

  predicate SwapMatches(db: Db, snapshot: CaseSnapshot) {
    snapshot.caseId in db.cases && db.cases[snapshot.caseId].version == snapshot.version - 1
  }

  function PersistTransition(db: Db, outcome: TransitionOutcome, actor: Actor, outboxId: Uuid, auditId: Uuid)
    : Result<(Db, CaseRow), DbError>
  {
    var id := outcome.snapshot.caseId;
    if !SwapMatches(db, outcome.snapshot) then
      var current :- GetSnapshot(db, id);
      Failure(VersionConflict(outcome.snapshot.version - 1, current.version))
    else
      var updated := AdvancedCase(db.cases[id], outcome);
      var db1 := db.(cases := db.cases[id := updated]);
      var db2 :- InsertTransition(db1, NewTransitionRow(outcome.transition, actor));
      var event := NewEventRow(outcome.event, Some(outcome.event.transitionId), None);
      var db3 :- InsertEventAndOutbox(db2, event, outboxId);
      var db4 :- InsertAudit(db3, AuditRow(auditId, CaseTransitionedAudit, actor.id, outcome.event.correlationId,
                                           outcome.event.eventId, outcome.event.occurredAt));
      Success((db4, updated))
  }

  // ---------------------------------------------------------------- domain guards refine database guards

  lemma NotBlankIsNotBtrimEmpty(s: string)
    requires !Blank(s)
    ensures !BtrimEmpty(s)
  {
    var c :| c in s && !IsSpace(c);
    assert c != ' ';
  }

  /** Whatever the pure state machine accepts satisfies every CHECK of case_transitions. */
  lemma AcceptedOutcomeMeetsChecks(snapshot: CaseSnapshot, command: TransitionCommand)
    requires command.Valid() && ApplyTransition(snapshot, command).Success?
    ensures TransitionChecks(NewTransitionRow(ApplyTransition(snapshot, command).value.transition, command.actor))
  {
    if command.verificationNote.Some? {
      NotBlankIsNotBtrimEmpty(command.verificationNote.value);
    }
    if command.note.Some? {
      NotBlankIsNotBtrimEmpty(command.note.value);
    }
  }

  /** Ids that the tables do not hold yet: what `uuid4()` is for. */
  ghost predicate FreshTransitionIds(db: Db, command: TransitionCommand, outboxId: Uuid, auditId: Uuid) {
    && (forall i :: 0 <= i < |db.transitions| ==> db.transitions[i].id != command.transitionId)
    && (forall e :: e in db.events ==> db.events[e].transitionId != Some(command.transitionId))
    && command.eventId !in db.events
    && (forall o :: o in db.outbox ==> db.outbox[o].caseEventId != command.eventId)
    && outboxId !in db.outbox
    && (forall i :: 0 <= i < |db.audit| ==> db.audit[i].id != auditId)
  }

  /** No transition of the case has a version above the projection's. */
  ghost predicate VersionsBounded(db: Db, caseId: Uuid) {
    caseId in db.cases &&
    forall i :: 0 <= i < |db.transitions| && db.transitions[i].caseId == caseId
                ==> db.transitions[i].version <= db.cases[caseId].version
  }

  /**
   * The domain guards refine the database guards: an outcome that the pure state machine
   * accepts, written with fresh ids, is committed if and only if its version is current,
   * and then both the keys and the deferred history trigger hold.
   */
  lemma AcceptedOutcomeCommits(
      db: Db, snapshot: CaseSnapshot, command: TransitionCommand, outboxId: Uuid, auditId: Uuid)
    requires command.Valid() && ApplyTransition(snapshot, command).Success?
    requires VersionsBounded(db, snapshot.caseId)
    requires db.cases[snapshot.caseId].version == snapshot.version ==> db.cases[snapshot.caseId].state == snapshot.state
    requires db.cases[snapshot.caseId].id == snapshot.caseId
    requires FreshTransitionIds(db, command, outboxId, auditId)
    ensures var w := PersistTransition(db, ApplyTransition(snapshot, command).value, command.actor, outboxId, auditId);
            && (w.Success? <==> db.cases[snapshot.caseId].version == snapshot.version)
            && (w.Success? ==> TransitionHistoryHolds(w.value.0, db.cases[snapshot.caseId], w.value.1))
  {
    AcceptedOutcomeMeetsChecks(snapshot, command);
    var outcome := ApplyTransition(snapshot, command).value;
    if SwapMatches(db, outcome.snapshot) {
      var id := snapshot.caseId;
      var db1 := db.(cases := db.cases[id := AdvancedCase(db.cases[id], outcome)]);
      var row := NewTransitionRow(outcome.transition, command.actor);
      assert TransitionInsertable(db1, row);
      var db2 := db1.(transitions := db1.transitions + [row]);
      var event := NewEventRow(outcome.event, Some(outcome.event.transitionId), None);
      assert db2.transitions[|db.transitions|].id == command.transitionId;
      assert EventInsertable(db2, event);
      var db3 := db2.(events := db2.events[event.id := event]);
      assert OutboxInsertable(db3, NewOutboxRow(outboxId, event));
      var w := PersistTransition(db, outcome, command.actor, outboxId, auditId);
      assert w.Success?;
      assert w.value.0.transitions[|db.transitions|] == row;
      assert w.value.0.events[command.eventId] == event;
      assert w.value.0.outbox[outboxId] == NewOutboxRow(outboxId, event);
    }
  }

  /** A new case written with fresh ids is committed with its creation history in place. */
  lemma CreationCommits(db: Db, c: CreateCaseCommand, outboxId: Uuid, auditId: Uuid)
    requires c.Valid() && KeyOwners(db, c.idempotencyKey) == {}
    requires c.caseId !in db.cases && c.eventId !in db.events && outboxId !in db.outbox
    requires forall o :: o in db.outbox ==> db.outbox[o].caseEventId != c.eventId
    requires forall i :: 0 <= i < |db.audit| ==> db.audit[i].id != auditId
    requires c.input.Some? ==> c.input.value.inputId !in db.inputs
    ensures var w := CreateCase(db, c, outboxId, auditId);
            && w.Success? && w.value.1.created
            && CreationHistoryHolds(w.value.0, w.value.1.case_)
  {
    NotBlankIsNotBtrimEmpty(c.title);
    NotBlankIsNotBtrimEmpty(c.idempotencyKey);
    if c.input.Some? {
      NotBlankIsNotBtrimEmpty(c.input.value.kind);
    }
    var db1 := WriteCaseRows(db, c).value;
    assert db1 == db.(cases := db.cases[c.caseId := NewCaseRow(c)], inputs := db1.inputs);
    var event := NewEventRow(CreationEvent(c), None, Some(c.RequestFingerprint()));
    assert EventInsertable(db1, event);
    var db2 := db1.(events := db1.events[event.id := event]);
    var row := NewOutboxRow(outboxId, event);
    assert OutboxInsertable(db2, row);
    var w := CreateCase(db, c, outboxId, auditId);
    assert w.Success?;
    assert w.value.0.events[c.eventId] == event && w.value.0.outbox[outboxId] == row;
  }
}
