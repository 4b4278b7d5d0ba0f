/** What the case repository writes, column by column, and what counts as the same request. */
module CaseRecords {
  import opened Base
  import opened CaseDomain
  import opened Tables
  import opened CaseSpine
  import opened CaseInvariants
  import opened DeliveryInvariants

  // ---------------------------------------------------------------- the same request

  predicate SameInput(a: Option<CaseInput>, b: Option<CaseInput>) {
    if a.None? || b.None? then a.None? && b.None?
    else
      && a.value.kind == b.value.kind
      && a.value.contentSha256 == b.value.contentSha256
      && a.value.content == b.value.content
  }

  /**
   * Two requests have one fingerprint exactly when they ask for the same case; who asks, when and under
   * which ids does not count.
   */
  lemma FingerprintIff(a: CreateCaseCommand, b: CreateCaseCommand)
    ensures a.RequestFingerprint() == b.RequestFingerprint()
            <==> && a.title == b.title && a.category == b.category && a.severity == b.severity
                 && a.assetId == b.assetId && SameInput(a.input, b.input)
  {
  }

  // ---------------------------------------------------------------- creation

  /** Every other row of the table is as it was. */
  ghost predicate OnlyAdds<K(!new), V(!new)>(rows: map<K, V>, rows': map<K, V>, added: K) {
    added !in rows && rows'.Keys == rows.Keys + {added} && forall k :: k in rows ==> rows'[k] == rows[k]
  }

  ghost predicate OnlyAppends<T(!new)>(rows: seq<T>, rows': seq<T>) {
    |rows'| == |rows| + 1 && forall i :: 0 <= i < |rows| ==> rows'[i] == rows[i]
  }

  lemma CreatedRows(db: Db, c: CreateCaseCommand, outboxId: Uuid, auditId: Uuid)
    requires WriteNewCase(db, c, outboxId, auditId).Success?
    ensures var db' := WriteNewCase(db, c, outboxId, auditId).value;
            && OnlyAdds(db.cases, db'.cases, c.caseId) && OnlyAdds(db.events, db'.events, c.eventId)
            && OnlyAdds(db.outbox, db'.outbox, outboxId)
            && db'.transitions == db.transitions && db'.inbox == db.inbox
  {
    hide WriteNewCase;
    CreateEffect(db, c, outboxId, auditId);
  }

  lemma CreatedCase(db: Db, c: CreateCaseCommand, outboxId: Uuid, auditId: Uuid)
    requires WriteNewCase(db, c, outboxId, auditId).Success?
    ensures var db' := WriteNewCase(db, c, outboxId, auditId).value;
            && c.caseId in db'.cases
            && var row := db'.cases[c.caseId];
               && row.id == c.caseId && row.state == New && row.version == 0
               && row.title == c.title && row.category == c.category && row.severity == c.severity
               && row.assetId == c.assetId && row.idempotencyKey == c.idempotencyKey
               && row.request == c.RequestFingerprint()
               && row.createdBy == c.actor.id && row.correlationId == c.correlationId
               && row.createdAt == row.updatedAt == c.occurredAt
  {
    hide WriteNewCase, AddsEvent;
    CreateEffect(db, c, outboxId, auditId);
  }

  lemma CreatedEvent(db: Db, c: CreateCaseCommand, outboxId: Uuid, auditId: Uuid)
    requires WriteNewCase(db, c, outboxId, auditId).Success?
    ensures var db' := WriteNewCase(db, c, outboxId, auditId).value;
            && c.eventId in db'.events && outboxId in db'.outbox
            && var event := db'.events[c.eventId];
               && event.id == c.eventId && event.caseId == c.caseId && event.transitionId == None
               && event.eventType == CaseCreated && event.aggregateVersion == 0
               && event.actorId == Some(c.actor.id) && event.correlationId == c.correlationId
               && event.occurredAt == c.occurredAt
               && event.payload
                  == CasePayload(c.caseId, 0, None, c.actor.id, c.correlationId, Some(c.RequestFingerprint()))
               && FreshlyQueued(db'.outbox[outboxId], outboxId, event)
  {
    hide WriteNewCase;
    CreateEffect(db, c, outboxId, auditId);
  }

  /** An outbox row that nobody has leased yet, available from the moment of its event. */
  predicate FreshlyQueued(row: OutboxRow, outboxId: Uuid, event: EventRow) {
    && row.id == outboxId && row.caseEventId == event.id && row.caseId == event.caseId
    && row.eventType == event.eventType && row.aggregateVersion == event.aggregateVersion
    && row.correlationId == event.correlationId && row.payload == event.payload
    && row.availableAt == row.createdAt == event.occurredAt
    && row.publishedAt == None && row.attemptCount == 0 && row.lastError == None
    && row.lockedAt == None && row.lockedBy == None
  }

  lemma CreatedInput(db: Db, c: CreateCaseCommand, outboxId: Uuid, auditId: Uuid)
    requires WriteNewCase(db, c, outboxId, auditId).Success?
    ensures var db' := WriteNewCase(db, c, outboxId, auditId).value;
            if c.input.None? then db'.inputs == db.inputs
            else
              && OnlyAdds(db.inputs, db'.inputs, c.input.value.inputId)
              && var row := db'.inputs[c.input.value.inputId];
                 row.caseId == c.caseId && row.input == c.input.value && row.createdAt == c.occurredAt
    ensures var db' := WriteNewCase(db, c, outboxId, auditId).value;
            && OnlyAppends(db.audit, db'.audit)
            && var row := db'.audit[|db.audit|];
               && row.id == auditId && row.action == CaseCreatedAudit && row.actorId == c.actor.id
               && row.correlationId == c.correlationId && row.subjectId == c.eventId && row.occurredAt == c.occurredAt
  {
    hide CaseInsertable, EventInsertable, OutboxInsertable, AuditInsertable;
  }


  // ---------------------------------------------------------------- transition

  lemma AdvancedProjection(db: Db, outcome: TransitionOutcome, actor: Actor, outboxId: Uuid, auditId: Uuid)
    requires PersistTransition(db, outcome, actor, outboxId, auditId).Success?
    ensures var (db', row) := PersistTransition(db, outcome, actor, outboxId, auditId).value;
            var id := outcome.snapshot.caseId;
            && id in db.cases && db'.cases.Keys == db.cases.Keys && db'.cases[id] == row
            && (forall c :: c in db.cases && c != id ==> db'.cases[c] == db.cases[c])
            && row.state == outcome.snapshot.state && row.version == outcome.snapshot.version
            && row.updatedAt == outcome.transition.occurredAt
            && row == db.cases[id].(state := row.state, version := row.version, updatedAt := row.updatedAt)
  {
    hide TransitionInsertable, EventInsertable, OutboxInsertable, AuditInsertable;
  }

  lemma RecordedTransition(db: Db, outcome: TransitionOutcome, actor: Actor, outboxId: Uuid, auditId: Uuid)
    requires PersistTransition(db, outcome, actor, outboxId, auditId).Success?
    ensures var db' := PersistTransition(db, outcome, actor, outboxId, auditId).value.0; var t := outcome.transition;
            && OnlyAppends(db.transitions, db'.transitions)
            && var row := db'.transitions[|db.transitions|];
               && row.id == t.transitionId && row.caseId == t.caseId && row.version == t.version
               && row.fromState == t.fromState && row.toState == t.toState
               && row.actorId == t.actorId && row.actorKind == actor.kind
               && row.correlationId == t.correlationId && row.occurredAt == t.occurredAt
               && row.approvalId == t.approvalId && row.verificationNote == t.verificationNote
               && row.knowledgeItemId == t.knowledgeItemId && row.note == t.note
  {
    hide PersistTransition, AddsEvent;
    TransitionEffect(db, outcome, actor, outboxId, auditId);
  }

  lemma RecordedEvent(db: Db, outcome: TransitionOutcome, actor: Actor, outboxId: Uuid, auditId: Uuid)
    requires PersistTransition(db, outcome, actor, outboxId, auditId).Success?
    ensures var db' := PersistTransition(db, outcome, actor, outboxId, auditId).value.0; var e := outcome.event;
            && OnlyAdds(db.events, db'.events, e.eventId) && OnlyAdds(db.outbox, db'.outbox, outboxId)
            && var event := db'.events[e.eventId];
               && event.id == e.eventId && event.caseId == e.caseId && event.transitionId == Some(e.transitionId)
               && event.eventType == e.eventType && event.aggregateVersion == e.aggregateVersion
               && event.actorId == Some(e.actorId) && event.correlationId == e.correlationId
               && event.occurredAt == e.occurredAt
               && event.payload
                  == CasePayload(e.caseId, e.aggregateVersion, Some(e.transitionId), e.actorId, e.correlationId, None)
               && FreshlyQueued(db'.outbox[outboxId], outboxId, event)
  {
    hide PersistTransition;
    TransitionEffect(db, outcome, actor, outboxId, auditId);
  }

  lemma RecordedAudit(db: Db, outcome: TransitionOutcome, actor: Actor, outboxId: Uuid, auditId: Uuid)
    requires PersistTransition(db, outcome, actor, outboxId, auditId).Success?
    ensures var db' := PersistTransition(db, outcome, actor, outboxId, auditId).value.0;
            && db'.inputs == db.inputs && db'.inbox == db.inbox
            && OnlyAppends(db.audit, db'.audit)
            && var row := db'.audit[|db.audit|];
               && row.id == auditId && row.action == CaseTransitionedAudit && row.actorId == actor.id
               && row.correlationId == outcome.event.correlationId && row.subjectId == outcome.event.eventId
               && row.occurredAt == outcome.event.occurredAt
  {
    hide TransitionInsertable, EventInsertable, OutboxInsertable, AuditInsertable;
  }

  /** A lost compare-and-swap says which version was expected and which was found. */
  lemma LostSwapReports(
      db: Db, snapshot: CaseSnapshot, command: TransitionCommand, outboxId: Uuid, auditId: Uuid)
    requires ApplyTransition(snapshot, command).Success?
    requires snapshot.caseId !in db.cases || db.cases[snapshot.caseId].version != snapshot.version
    ensures PersistTransition(db, ApplyTransition(snapshot, command).value, command.actor, outboxId, auditId)
            == if snapshot.caseId !in db.cases then Failure(CaseNotFound)
               else Failure(VersionConflict(command.expectedVersion, db.cases[snapshot.caseId].version))
  {
    hide ActorAuthorized, ConstraintsMet;
  }

  // ---------------------------------------------------------------- what the CHECKs leave to the domain

  /** The command that a stored row could be the record of, by an actor with every role there is. */
  function CommandOf(row: TransitionRow): TransitionCommand {
    var roles := if row.actorKind.Human?
                 then {OrgAdmin, Operator, Approver, Auditor, IntegrationAdmin, PlatformAdmin} else {};
    TransitionCommand(row.id, row.id, row.caseId, 0, row.toState, Actor(row.actorId, row.actorKind, roles),
                      row.correlationId, row.occurredAt, row.approvalId, row.verificationNote, row.knowledgeItemId,
                      row.note)
  }

  /** The CHECKs of case_transitions enforce everything that the domain does except the roles, and non-blank notes. */
  lemma ChecksEnforceAllButRoles(row: TransitionRow)
    ensures TransitionChecks(row)
            <==> && row.version > 0
                 && MayMove(row.fromState, CommandOf(row))
                 && (row.toState == Resolved ==> exists c :: c in row.verificationNote.value && c != ' ')
                 && (row.toState == NeedsInformation ==> exists c :: c in row.note.value && c != ' ')
  {
  }
}
