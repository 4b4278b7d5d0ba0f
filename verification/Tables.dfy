/**
 * The tables of one organization, with the constraints and triggers that guard them
 * (services/api/alembic/versions). Append-only tables whose order matters are sequences;
 * the others are maps from their primary key.
 */
module Tables {
  import opened Base
  import opened CaseDomain

  datatype Severity = Low | Medium | High | Critical

  /** An immutable operator input; `content` stands for the JSON object. */
  datatype CaseInput = CaseInput(inputId: Uuid, kind: string, contentSha256: string, content: string)

  /** The canonical request whose SHA-256 defends an idempotency key: everything but identities and time. */
  datatype Fingerprint = Fingerprint(
    title: string,
    category: Option<string>,
    severity: Severity,
    assetId: Option<Uuid>,
    input: Option<(string, string, string)>)

  datatype CaseRow = CaseRow(
    id: Uuid,
    assetId: Option<Uuid>,
    title: string,
    category: Option<string>,
    severity: Severity,
    state: CaseState,
    version: nat,
    idempotencyKey: string,
    request: Fingerprint,
    createdBy: Uuid,
    correlationId: Uuid,
    createdAt: Time,
    updatedAt: Time)

  datatype InputRow = InputRow(id: Uuid, caseId: Uuid, input: CaseInput, createdAt: Time)

  datatype TransitionRow = TransitionRow(
    id: Uuid,
    caseId: Uuid,
    fromState: CaseState,
    toState: CaseState,
    version: nat,
    actorId: Uuid,
    actorKind: ActorKind,
    correlationId: Uuid,
    approvalId: Option<Uuid>,
    verificationNote: Option<string>,
    knowledgeItemId: Option<Uuid>,
    note: Option<string>,
    occurredAt: Time)

  datatype ArtifactKind = NetworkConfiguration | IncidentAudio
  datatype Classification = Raw | Redacted | Derived

  /** The JSON object carried by an event and, unchanged, by its outbox row. */
  datatype Payload =
    | CasePayload(
        caseId: Uuid, aggregateVersion: nat, transitionId: Option<Uuid>, actorId: Uuid,
        correlationId: Uuid, request: Option<Fingerprint>)
    | ArtifactPayload(
        artifactId: Uuid, kind: ArtifactKind, caseId: Uuid, classification: Classification, sha256: string)

  datatype EventRow = EventRow(
    id: Uuid,
    caseId: Uuid,
    transitionId: Option<Uuid>,
    eventType: EventType,
    aggregateVersion: nat,
    actorId: Option<Uuid>,
    correlationId: Uuid,
    payload: Payload,
    occurredAt: Time)

  /** `worker_id:uuid4()`, drawn anew for every lease statement. */
  datatype Token = Token(workerId: string, nonce: Uuid)

  datatype OutboxRow = OutboxRow(
    id: Uuid,
    caseId: Uuid,
    caseEventId: Uuid,
    eventType: EventType,
    aggregateVersion: nat,
    correlationId: Uuid,
    payload: Payload,
    availableAt: Time,
    publishedAt: Option<Time>,
    attemptCount: nat,
    lastError: Option<string>,
    lockedAt: Option<Time>,
    lockedBy: Option<Token>,
    createdAt: Time)

  datatype InboxKey = InboxKey(consumer: string, eventId: Uuid)

  /** The digest column is modelled by the payload that it digests. */
  datatype Receipt = Receipt(payload: Payload, processedAt: Time)

  datatype AuditAction = CaseCreatedAudit | CaseTransitionedAudit | IntentCreatedAudit | UploadCompletedAudit

  datatype AuditRow = AuditRow(
    id: Uuid, action: AuditAction, actorId: Uuid, correlationId: Uuid, subjectId: Uuid, occurredAt: Time)

  /** Declared metadata of an upload; the storage key is a function of the case and artifact ids. */
  datatype UploadIntent = UploadIntent(
    id: Uuid,
    artifactId: Uuid,
    caseId: Uuid,
    kind: ArtifactKind,
    classification: Classification,
    sha256: string,
    byteSize: int,
    contentType: string,
    originalFilename: Option<string>,
    createdBy: Uuid,
    correlationId: Uuid,
    expiresAt: Time,
    createdAt: Time,
    completedAt: Option<Time>)
  {
    /** `status = 'completed'`; a CHECK ties the status to `completed_at`. */
    predicate Completed() {
      completedAt.Some?
    }
  }

  datatype ArtifactRow = ArtifactRow(
    id: Uuid,
    caseId: Uuid,
    kind: ArtifactKind,
    classification: Classification,
    sha256: string,
    byteSize: int,
    contentType: string,
    originalFilename: Option<string>,
    encryptionKey: string,
    createdBy: Uuid,
    retentionUntil: Time,
    createdAt: Time)

  datatype ProcessingState = Quarantined | Verified | RedactedState | Failed

  datatype LedgerRow = LedgerRow(
    id: Uuid,
    artifactId: Uuid,
    attempt: int,
    state: ProcessingState,
    failureCode: Option<string>,
    correlationId: Uuid,
    occurredAt: Time)

  /**
   * `eventActorRequired` says whether `case_events.actor_id` is NOT NULL, as the migrations
   * declare it. The upload completion writes NULL there, so every result is proved for both
   * settings and Artifacts.CompletionNeedsNullableActor says what the declared one costs.
   */
  datatype Db = Db(
    eventActorRequired: bool,
    cases: map<Uuid, CaseRow>,
    inputs: map<Uuid, InputRow>,
    transitions: seq<TransitionRow>,
    events: map<Uuid, EventRow>,
    outbox: map<Uuid, OutboxRow>,
    inbox: map<InboxKey, Receipt>,
    audit: seq<AuditRow>,
    intents: map<Uuid, UploadIntent>,
    artifacts: map<Uuid, ArtifactRow>,
    ledger: seq<LedgerRow>)

  function EmptyDb(eventActorRequired: bool): Db {
    Db(eventActorRequired, map[], map[], [], map[], map[], map[], [], map[], map[], [])
  }

  datatype DbError =
    | IntegrityViolation
    | CaseNotFound
    | VersionConflict(expected: int, actual: int)
    | IdempotencyConflict(existing: Uuid)
    | IntentNotFound
    | IntentExpired
    | StoreUnavailable
    | UploadMetadataMismatch
    | LedgerConflict

  // ---------------------------------------------------------------- CHECK constraints

  predicate TransitionChecks(row: TransitionRow) {
    && row.version > 0
    && (row.actorKind.Human? || row.actorKind.Service?)
    && (|| (row.fromState.New? && row.toState.Investigating?)
        || (row.fromState.Investigating? && (row.toState.Diagnosed? || row.toState.NeedsInformation?))
        || (row.fromState.NeedsInformation? && row.toState.Investigating?)
        || (row.fromState.Diagnosed? && row.toState.FixProposed?)
        || (row.fromState.FixProposed? && row.toState.Confirmed?)
        || (row.fromState.Confirmed? && row.toState.Resolved?)
        || (row.fromState.Resolved? && row.toState.Learned?))
    && (!row.toState.Confirmed? || (row.actorKind.Human? && row.approvalId.Some?))
    && (!row.toState.Resolved?
        || (row.actorKind.Human? && row.verificationNote.Some? && !BtrimEmpty(row.verificationNote.value)))
    && (!row.toState.Learned? || (row.actorKind.Service? && row.knowledgeItemId.Some?))
    && (!row.toState.NeedsInformation? || (row.note.Some? && !BtrimEmpty(row.note.value)))
  }

  predicate CaseChecks(row: CaseRow) {
    !BtrimEmpty(row.title) && !BtrimEmpty(row.idempotencyKey)
  }

  /** `^[0-9a-f]{64}$`. */
  predicate IsSha256(s: string) {
    |s| == 64 && forall i :: 0 <= i < 64 ==> '0' <= s[i] <= '9' || 'a' <= s[i] <= 'f'
  }

  predicate IntentChecks(row: UploadIntent) {
    && row.classification.Raw?
    && IsSha256(row.sha256)
    && 0 < row.byteSize <= 104857600
    && row.expiresAt >= row.createdAt
  }

  predicate ArtifactChecks(row: ArtifactRow) {
    && IsSha256(row.sha256)
    && row.byteSize >= 0
    && !BtrimEmpty(row.contentType)
    && !BtrimEmpty(row.encryptionKey)
    && row.retentionUntil >= row.createdAt
  }

  // ---------------------------------------------------------------- keys and foreign keys

  predicate CaseInsertable(db: Db, row: CaseRow) {
    row.id !in db.cases && CaseChecks(row)
  }

  predicate InputInsertable(db: Db, row: InputRow) {
    && row.id !in db.inputs && row.caseId in db.cases
    && !BtrimEmpty(row.input.kind) && IsSha256(row.input.contentSha256)
  }

  predicate TransitionInsertable(db: Db, row: TransitionRow) {
    && TransitionChecks(row)
    && row.caseId in db.cases
    && (forall i :: 0 <= i < |db.transitions| ==> db.transitions[i].id != row.id)
    && (forall i :: 0 <= i < |db.transitions| ==>
          !(db.transitions[i].caseId == row.caseId && db.transitions[i].version == row.version))
  }

  predicate EventInsertable(db: Db, row: EventRow) {
    && row.id !in db.events
    && row.caseId in db.cases
    && (db.eventActorRequired ==> row.actorId.Some?)
    && (row.transitionId.Some? ==>
          && (exists i :: 0 <= i < |db.transitions| && db.transitions[i].id == row.transitionId.value)
          && (forall e :: e in db.events ==> db.events[e].transitionId != row.transitionId))
  }

  predicate OutboxInsertable(db: Db, row: OutboxRow) {
    && row.id !in db.outbox
    && row.caseId in db.cases
    && row.caseEventId in db.events
    && (forall o :: o in db.outbox ==> db.outbox[o].caseEventId != row.caseEventId)
  }

  predicate AuditInsertable(db: Db, row: AuditRow) {
    forall i :: 0 <= i < |db.audit| ==> db.audit[i].id != row.id
  }

  predicate IntentInsertable(db: Db, row: UploadIntent) {
    && IntentChecks(row)
    && row.id !in db.intents
    && row.caseId in db.cases
    && (forall i :: i in db.intents ==> db.intents[i].artifactId != row.artifactId)
  }

  /** The storage key's own uniqueness follows from the primary key, which it contains. */
  predicate ArtifactInsertable(db: Db, row: ArtifactRow) {
    ArtifactChecks(row) && row.id !in db.artifacts && row.caseId in db.cases
  }

  // ---------------------------------------------------------------- one INSERT each

  function InsertCase(db: Db, row: CaseRow): Result<Db, DbError> {
    if CaseInsertable(db, row) then Success(db.(cases := db.cases[row.id := row]))
    else Failure(IntegrityViolation)
  }

  function InsertInput(db: Db, row: InputRow): Result<Db, DbError> {
    if InputInsertable(db, row) then Success(db.(inputs := db.inputs[row.id := row]))
    else Failure(IntegrityViolation)
  }

  function InsertTransition(db: Db, row: TransitionRow): Result<Db, DbError> {
    if TransitionInsertable(db, row) then Success(db.(transitions := db.transitions + [row]))
    else Failure(IntegrityViolation)
  }

  function InsertEvent(db: Db, row: EventRow): Result<Db, DbError> {
    if EventInsertable(db, row) then Success(db.(events := db.events[row.id := row]))
    else Failure(IntegrityViolation)
  }

  function InsertOutbox(db: Db, row: OutboxRow): Result<Db, DbError> {
    if OutboxInsertable(db, row) then Success(db.(outbox := db.outbox[row.id := row]))
    else Failure(IntegrityViolation)
  }

  function InsertAudit(db: Db, row: AuditRow): Result<Db, DbError> {
    if AuditInsertable(db, row) then Success(db.(audit := db.audit + [row]))
    else Failure(IntegrityViolation)
  }

  function InsertIntent(db: Db, row: UploadIntent): Result<Db, DbError> {
    if IntentInsertable(db, row) then Success(db.(intents := db.intents[row.id := row]))
    else Failure(IntegrityViolation)
  }

  function InsertArtifact(db: Db, row: ArtifactRow): Result<Db, DbError> {
    if ArtifactInsertable(db, row) then Success(db.(artifacts := db.artifacts[row.id := row]))
    else Failure(IntegrityViolation)
  }

  // ---------------------------------------------------------------- triggers

  /** `netops_guard_outbox_event_mutation` for an UPDATE. */
  predicate OutboxMutationAllowed(old_: OutboxRow, new_: OutboxRow) {
    && new_.id == old_.id
    && new_.caseId == old_.caseId
    && new_.caseEventId == old_.caseEventId
    && new_.eventType == old_.eventType
    && new_.aggregateVersion == old_.aggregateVersion
    && new_.correlationId == old_.correlationId
    && new_.payload == old_.payload
    && new_.createdAt == old_.createdAt
    && new_.attemptCount >= old_.attemptCount
    && (old_.publishedAt.Some? ==> new_.publishedAt == old_.publishedAt)
  }

  /** `netops_assert_case_projection_history` at commit, for an inserted case. */
  ghost predicate CreationHistoryHolds(db: Db, row: CaseRow) {
    && row.state.New? && row.version == 0
    && exists e, o ::
         && e in db.events && o in db.outbox
         && db.outbox[o].caseEventId == e
         && db.events[e].caseId == row.id
         && db.events[e].eventType.CaseCreated?
         && db.events[e].aggregateVersion == 0
         && db.events[e].transitionId.None?
         && db.outbox[o].caseId == row.id
         && db.outbox[o].aggregateVersion == 0
         && db.outbox[o].eventType == db.events[e].eventType
  }

  /** `netops_assert_case_projection_history` at commit, for an updated case. */
  ghost predicate TransitionHistoryHolds(db: Db, old_: CaseRow, new_: CaseRow) {
    && (new_.state != old_.state <==> new_.version != old_.version)
    && (new_.state != old_.state ==>
          && new_.version == old_.version + 1
          && exists i, e, o ::
               && 0 <= i < |db.transitions| && e in db.events && o in db.outbox
               && db.events[e].caseId == db.transitions[i].caseId
               && db.events[e].transitionId == Some(db.transitions[i].id)
               && db.outbox[o].caseEventId == e
               && db.transitions[i].caseId == new_.id
               && db.transitions[i].fromState == old_.state
               && db.transitions[i].toState == new_.state
               && db.transitions[i].version == new_.version
               && db.events[e].aggregateVersion == new_.version
               && db.outbox[o].caseId == new_.id
               && db.outbox[o].aggregateVersion == new_.version
               && db.outbox[o].eventType == db.events[e].eventType)
  }
}
