/**
 * Upload intents and their completion
 * (services/api/netops_api/application/artifact_intents.py): a verified upload becomes an
 * artifact, a quarantined ledger row, an event and an outbox row in one savepoint.
 */
module Artifacts {
  import opened Base
  import opened CaseDomain
  import opened Tables
  import opened CaseSpine
  import opened ArtifactLedger

  /** What the object store's HEAD reports. */
  datatype ObjectMetadata = ObjectMetadata(
    contentType: string, contentLength: int, sha256: string, encryptionKey: string)
  {
    /** What the constructor accepts, the upper length limits apart. */
    predicate Valid() {
      && !Blank(contentType)
      && 1 <= contentLength <= 100 * 1024 * 1024
      && IsSha256(sha256)
      && !Blank(encryptionKey)
    }
  }

  datatype CompletedUpload = CompletedUpload(artifactId: Uuid, completedAt: Time, alreadyCompleted: bool)

  /** The identities that one completion draws. */
  datatype CompletionIds = CompletionIds(eventId: Uuid, outboxId: Uuid, ledgerId: Uuid, auditId: Uuid)

  const DAY: Time := 86_400_000_000

  function RetentionUntil(kind: ArtifactKind, completedAt: Time): Time {
    completedAt + (if kind.IncidentAudio? then 30 else 90) * DAY
  }

  predicate MetadataMatches(intent: UploadIntent, observed: ObjectMetadata) {
    && observed.contentType == intent.contentType
    && observed.contentLength == intent.byteSize
    && observed.sha256 == intent.sha256
  }

  function InsertLedger(db: Db, row: LedgerRow): Result<Db, DbError> {
    if row.artifactId !in db.artifacts then Failure(IntegrityViolation)
    else
      var ledger :- AppendRow(db.ledger, row);
      Success(db.(ledger := ledger))
  }

  // ---------------------------------------------------------------- rows written

  function ArtifactOf(intent: UploadIntent, encryptionKey: string, completedAt: Time): ArtifactRow {
    ArtifactRow(intent.artifactId, intent.caseId, intent.kind, intent.classification, intent.sha256,
                intent.byteSize, intent.contentType, intent.originalFilename, encryptionKey,
                intent.createdBy, RetentionUntil(intent.kind, completedAt), completedAt)
  }

  function QuarantinedRow(intent: UploadIntent, id: Uuid, completedAt: Time): LedgerRow {
    LedgerRow(id, intent.artifactId, 1, Quarantined, None, intent.correlationId, completedAt)
  }

  function CompletionPayload(intent: UploadIntent): Payload {
    ArtifactPayload(intent.artifactId, intent.kind, intent.caseId, intent.classification, intent.sha256)
  }

  /** The insert leaves the actor NULL and keeps the case's current version. */
  function CompletionEvent(intent: UploadIntent, id: Uuid, version: nat, completedAt: Time): EventRow {
    EventRow(id, intent.caseId, None, ArtifactCompleted, version, None, intent.correlationId,
             CompletionPayload(intent), completedAt)
  }

  // ---------------------------------------------------------------- the repository calls

  function DeclareUpload(db: Db, intent: UploadIntent, auditId: Uuid): Result<Db, DbError>
    requires !intent.Completed()
  {
    var db1 :- InsertIntent(db, intent);
    InsertAudit(db1, AuditRow(auditId, IntentCreatedAudit, intent.createdBy, intent.correlationId,
                              intent.id, intent.createdAt))
  }

  function WriteCompletion(db: Db, intent: UploadIntent, encryptionKey: string, now: Time, ids: CompletionIds)
    : Result<Db, DbError>
  {
    var db1 :- InsertArtifact(db, ArtifactOf(intent, encryptionKey, now));
    var db2 :- InsertLedger(db1, QuarantinedRow(intent, ids.ledgerId, now));
    if intent.caseId !in db2.cases then Failure(IntegrityViolation)
    else
      var event := CompletionEvent(intent, ids.eventId, db2.cases[intent.caseId].version, now);
      var db3 :- InsertEventAndOutbox(db2, event, ids.outboxId);
      var db4 := db3.(intents := db3.intents[intent.id := intent.(completedAt := Some(now))]);
      InsertAudit(db4, AuditRow(ids.auditId, UploadCompletedAudit, intent.createdBy, intent.correlationId,
                                intent.id, now))
  }

  /** `head` is what the store answers, if it answers. */
  function Complete(
      db: Db, caseId: Uuid, intentId: Uuid, head: Option<ObjectMetadata>, now: Time, ids: CompletionIds)
    : Result<(Db, CompletedUpload), DbError>
  {
    if intentId !in db.intents || db.intents[intentId].caseId != caseId then Failure(IntentNotFound)
    else
      var intent := db.intents[intentId];
      if intent.Completed() then
        Success((db, CompletedUpload(intent.artifactId, intent.completedAt.value, true)))
      else if intent.expiresAt <= now then Failure(IntentExpired)
      else if head.None? then Failure(StoreUnavailable)
      else if !MetadataMatches(intent, head.value) then Failure(UploadMetadataMismatch)
      else
        var db1 :- WriteCompletion(db, intent, head.value.encryptionKey, now, ids);
        Success((db1, CompletedUpload(intent.artifactId, now, false)))
  }

  // ---------------------------------------------------------------- when a completion commits

  /** Ids that the tables do not hold yet. */
  ghost predicate FreshCompletionIds(db: Db, ids: CompletionIds) {
    && ids.eventId !in db.events
    && ids.outboxId !in db.outbox
    && (forall o :: o in db.outbox ==> db.outbox[o].caseEventId != ids.eventId)
    && (forall i :: 0 <= i < |db.ledger| ==> db.ledger[i].id != ids.ledgerId)
    && (forall i :: 0 <= i < |db.audit| ==> db.audit[i].id != ids.auditId)
  }

  /**
   * The completion event has no actor, while the migrations declare the column NOT NULL. A
   * pending, unexpired intent whose object matches is completed if and only if the column
   * admits NULL; with the declared schema no upload can ever be completed.
   */
  lemma CompletionNeedsNullableActor(
      db: Db, intent: UploadIntent, head: ObjectMetadata, now: Time, ids: CompletionIds)
    requires intent.id in db.intents && db.intents[intent.id] == intent && !intent.Completed()
    requires IntentChecks(intent) && now < intent.expiresAt
    requires MetadataMatches(intent, head) && head.Valid()
    requires intent.caseId in db.cases && intent.artifactId !in db.artifacts
    requires forall i :: 0 <= i < |db.ledger| ==> db.ledger[i].artifactId in db.artifacts
    requires FreshCompletionIds(db, ids)
    ensures Complete(db, intent.caseId, intent.id, Some(head), now, ids).Success? <==> !db.eventActorRequired
  {
    HighestAttemptIsMaximum(db.ledger, intent.artifactId);
    NotBlankIsNotBtrimEmpty(head.contentType);
    NotBlankIsNotBtrimEmpty(head.encryptionKey);
    var artifact := ArtifactOf(intent, head.encryptionKey, now);
    assert ArtifactInsertable(db, artifact);
    var db1 := db.(artifacts := db.artifacts[artifact.id := artifact]);
    var row := QuarantinedRow(intent, ids.ledgerId, now);
    assert LedgerInsertable(db1.ledger, row);
    var db2 := db1.(ledger := db1.ledger + [row]);
    assert InsertLedger(db1, row) == Success(db2);
    var event := CompletionEvent(intent, ids.eventId, db2.cases[intent.caseId].version, now);
    assert EventInsertable(db2, event) <==> !db.eventActorRequired;
  }

  /** A completed intent is answered again with the same artifact and time, even after its deadline. */
  lemma CompletionIsIdempotent(
      db: Db, caseId: Uuid, intentId: Uuid, head: Option<ObjectMetadata>, now: Time, ids: CompletionIds,
      head': Option<ObjectMetadata>, now': Time, ids': CompletionIds)
    requires Complete(db, caseId, intentId, head, now, ids).Success?
    requires intentId in db.intents ==> db.intents[intentId].id == intentId
    ensures var first := Complete(db, caseId, intentId, head, now, ids).value;
            Complete(first.0, caseId, intentId, head', now', ids')
            == Success((first.0, first.1.(alreadyCompleted := true)))
  {
  }

  // ---------------------------------------------------------------- what a caller is told, and what is written

  lemma WritesFailAsOne(db: Db, intent: UploadIntent, key: string, now: Time, ids: CompletionIds)
    requires WriteCompletion(db, intent, key, now, ids).Failure?
    ensures WriteCompletion(db, intent, key, now, ids) == Failure(IntegrityViolation)
  {
    hide ArtifactInsertable, LedgerInsertable, EventInsertable, OutboxInsertable, AuditInsertable;
  }

  /** The store attests something else than was declared. */
  predicate Differs(intent: UploadIntent, head: ObjectMetadata) {
    || head.contentType != intent.contentType
    || head.contentLength != intent.byteSize
    || head.sha256 != intent.sha256
  }

  /** Which answer a completion gets, case by case; an upload is only completed as what the store attests. */
  lemma CompletionAnswers(
      db: Db, caseId: Uuid, intentId: Uuid, head: Option<ObjectMetadata>, now: Time, ids: CompletionIds)
    ensures Complete(db, caseId, intentId, head, now, ids) == Failure(IntentNotFound)
            <==> intentId !in db.intents || db.intents[intentId].caseId != caseId
    ensures intentId in db.intents && db.intents[intentId].caseId == caseId ==>
      var intent := db.intents[intentId]; var answer := Complete(db, caseId, intentId, head, now, ids);
      var open := intent.completedAt == None && now < intent.expiresAt;
      && (answer.Success? && answer.value.1.alreadyCompleted <==> intent.completedAt != None)
      && (answer == Failure(IntentExpired) <==> intent.completedAt == None && intent.expiresAt <= now)
      && (answer == Failure(StoreUnavailable) <==> open && head == None)
      && (answer == Failure(UploadMetadataMismatch) <==> open && head != None && Differs(intent, head.value))
      && (answer.Success? && !answer.value.1.alreadyCompleted ==> open && head != None && !Differs(intent, head.value))
      && (answer.Success? ==>
            && answer.value.1.artifactId == intent.artifactId
            && Some(answer.value.1.completedAt)
               == (if intent.completedAt == None then Some(now) else intent.completedAt))
  {
    hide WriteCompletion;
    if intentId in db.intents && head.Some? {
      var intent := db.intents[intentId];
      if WriteCompletion(db, intent, head.value.encryptionKey, now, ids).Failure? {
        WritesFailAsOne(db, intent, head.value.encryptionKey, now, ids);
      }
    }
  }

  /** The rows of a completion, column by column; raw audio is kept for 30 days, a configuration for 90. */
  lemma CompletionRecords(db: Db, intent: UploadIntent, key: string, now: Time, ids: CompletionIds)
    requires WriteCompletion(db, intent, key, now, ids).Success?
    ensures var db' := WriteCompletion(db, intent, key, now, ids).value;
            && intent.artifactId !in db.artifacts && intent.artifactId in db'.artifacts
            && var a := db'.artifacts[intent.artifactId];
               && a.id == intent.artifactId && a.caseId == intent.caseId && a.kind == intent.kind
               && a.classification == intent.classification && a.sha256 == intent.sha256
               && a.byteSize == intent.byteSize && a.contentType == intent.contentType
               && a.originalFilename == intent.originalFilename && a.createdBy == intent.createdBy
               && a.encryptionKey == key && a.createdAt == now
               && a.retentionUntil - now == (if intent.kind == IncidentAudio then 30 else 90) * 24 * 60 * 60 * 1_000_000
    ensures var db' := WriteCompletion(db, intent, key, now, ids).value;
            db'.ledger == db.ledger
                          + [LedgerRow(ids.ledgerId, intent.artifactId, 1, Quarantined, None, intent.correlationId,
                                       now)]
    ensures var db' := WriteCompletion(db, intent, key, now, ids).value;
            && intent.caseId in db.cases && ids.eventId in db'.events
            && var e := db'.events[ids.eventId];
               && e.id == ids.eventId && e.caseId == intent.caseId && e.transitionId == None
               && e.eventType == ArtifactCompleted && e.aggregateVersion == db.cases[intent.caseId].version
               && e.actorId == None && e.correlationId == intent.correlationId && e.occurredAt == now
               && e.payload == ArtifactPayload(intent.artifactId, intent.kind, intent.caseId, intent.classification,
                                               intent.sha256)
    ensures var db' := WriteCompletion(db, intent, key, now, ids).value;
            && intent.id in db'.intents && db'.intents[intent.id].completedAt == Some(now)
            && db'.intents[intent.id].(completedAt := intent.completedAt) == intent
            && |db'.audit| == |db.audit| + 1
            && db'.audit[|db.audit|]
               == AuditRow(ids.auditId, UploadCompletedAudit, intent.createdBy, intent.correlationId, intent.id, now)
  {
    hide ArtifactChecks, LedgerInsertable, EventInsertable, OutboxInsertable, AuditInsertable;
  }
}
