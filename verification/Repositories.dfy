/**
 * The repositories as they run: statement after statement on the tables of one connection,
 * inside a savepoint that a failing statement rolls back.
 */
module Repositories {
  import opened Base
  import opened CaseDomain
  import opened Tables
  import opened CaseSpine
  import opened Outbox
  import opened Artifacts
  import ArtifactLedger

  // ---------------------------------------------------------------- the connection

  class Database {
    const eventActorRequired: bool
    var cases: map<Uuid, CaseRow>
    var inputs: map<Uuid, InputRow>
    var transitions: seq<TransitionRow>
    var events: map<Uuid, EventRow>
    var outbox: map<Uuid, OutboxRow>
    var inbox: map<InboxKey, Receipt>
    var audit: seq<AuditRow>
    var intents: map<Uuid, UploadIntent>
    var artifacts: map<Uuid, ArtifactRow>
    var ledger: seq<LedgerRow>

    constructor (eventActorRequired: bool)
      ensures Contents() == EmptyDb(eventActorRequired)
    {
      this.eventActorRequired := eventActorRequired;
      cases, inputs, transitions, events, outbox := map[], map[], [], map[], map[];
      inbox, audit, intents, artifacts, ledger := map[], [], map[], map[], [];
    }

    function Contents(): Db
      reads this
    {
      Db(eventActorRequired, cases, inputs, transitions, events, outbox, inbox, audit, intents, artifacts, ledger)
    }

    /** The tables as they are after transactions of other connections have committed. */
    method Install(contents: Db)
      requires contents.eventActorRequired == eventActorRequired
      modifies this
      ensures Contents() == contents
    {
      cases, inputs, transitions := contents.cases, contents.inputs, contents.transitions;
      events, outbox, inbox := contents.events, contents.outbox, contents.inbox;
      audit, intents := contents.audit, contents.intents;
      artifacts, ledger := contents.artifacts, contents.ledger;
    }

    /** `ROLLBACK TO SAVEPOINT`: the tables as they were when it was set. */
    method Rollback(savepoint: Db)
      requires savepoint.eventActorRequired == eventActorRequired
      modifies this
      ensures Contents() == savepoint
    {
      Install(savepoint);
    }

    method InsertCase(row: CaseRow) returns (ok: bool)
      modifies this`cases
      ensures ok == CaseInsertable(old(Contents()), row)
      ensures cases == if ok then old(cases)[row.id := row] else old(cases)
    {
      ok := CaseInsertable(Contents(), row);
      if ok {
        cases := cases[row.id := row];
      }
    }

    method InsertInput(row: InputRow) returns (ok: bool)
      modifies this`inputs
      ensures ok == InputInsertable(old(Contents()), row)
      ensures inputs == if ok then old(inputs)[row.id := row] else old(inputs)
    {
      ok := InputInsertable(Contents(), row);
      if ok {
        inputs := inputs[row.id := row];
      }
    }

    method InsertTransition(row: TransitionRow) returns (ok: bool)
      modifies this`transitions
      ensures ok == TransitionInsertable(old(Contents()), row)
      ensures transitions == if ok then old(transitions) + [row] else old(transitions)
    {
      ok := TransitionInsertable(Contents(), row);
      if ok {
        transitions := transitions + [row];
      }
    }

    method InsertEvent(row: EventRow) returns (ok: bool)
      modifies this`events
      ensures ok == EventInsertable(old(Contents()), row)
      ensures events == if ok then old(events)[row.id := row] else old(events)
    {
      ok := EventInsertable(Contents(), row);
      if ok {
        events := events[row.id := row];
      }
    }

    method InsertOutbox(row: OutboxRow) returns (ok: bool)
      modifies this`outbox
      ensures ok == OutboxInsertable(old(Contents()), row)
      ensures outbox == if ok then old(outbox)[row.id := row] else old(outbox)
    {
      ok := OutboxInsertable(Contents(), row);
      if ok {
        outbox := outbox[row.id := row];
      }
    }

    method InsertAudit(row: AuditRow) returns (ok: bool)
      modifies this`audit
      ensures ok == AuditInsertable(old(Contents()), row)
      ensures audit == if ok then old(audit) + [row] else old(audit)
    {
      ok := AuditInsertable(Contents(), row);
      if ok {
        audit := audit + [row];
      }
    }

    method InsertIntent(row: UploadIntent) returns (ok: bool)
      modifies this`intents
      ensures ok == IntentInsertable(old(Contents()), row)
      ensures intents == if ok then old(intents)[row.id := row] else old(intents)
    {
      ok := IntentInsertable(Contents(), row);
      if ok {
        intents := intents[row.id := row];
      }
    }

    method InsertArtifact(row: ArtifactRow) returns (ok: bool)
      modifies this`artifacts
      ensures ok == ArtifactInsertable(old(Contents()), row)
      ensures artifacts == if ok then old(artifacts)[row.id := row] else old(artifacts)
    {
      ok := ArtifactInsertable(Contents(), row);
      if ok {
        artifacts := artifacts[row.id := row];
      }
    }

    /** The insert trigger, the CHECKs and the keys of artifact_processing_events. */
    method InsertLedger(row: LedgerRow) returns (ok: bool)
      modifies this`ledger
      ensures ok == (row.artifactId in artifacts && ArtifactLedger.LedgerInsertable(old(ledger), row))
      ensures ledger == if ok then old(ledger) + [row] else old(ledger)
    {
      ok := row.artifactId in artifacts && ArtifactLedger.LedgerInsertable(ledger, row);
      if ok {
        ledger := ledger + [row];
      }
    }

    /** A business event and its outbox row, as case writes and upload completions both insert them. */
    method InsertEventAndOutbox(event: EventRow, outboxId: Uuid) returns (ok: bool)
      modifies this`events, this`outbox
      ensures ok == CaseSpine.InsertEventAndOutbox(old(Contents()), event, outboxId).Success?
      ensures ok ==>
        Contents() == CaseSpine.InsertEventAndOutbox(old(Contents()), event, outboxId).value
    {
      ok := InsertEvent(event);
      if ok {
        ok := InsertOutbox(NewOutboxRow(outboxId, event));
      }
    }
  }

  // ---------------------------------------------------------------- cases

  class TenantCaseRepository {
    const connection: Database

    constructor (connection: Database)
      ensures this.connection == connection
    {
      this.connection := connection;
    }

    /** The statements of a creation, up to the first that fails. */
    method WriteNewCase(c: CreateCaseCommand, outboxId: Uuid, auditId: Uuid) returns (ok: bool)
      modifies connection
      ensures ok == CaseSpine.WriteNewCase(old(connection.Contents()), c, outboxId, auditId).Success?
      ensures ok ==>
        connection.Contents() == CaseSpine.WriteNewCase(old(connection.Contents()), c, outboxId, auditId).value
    {
      hide CaseInsertable, InputInsertable, EventInsertable, OutboxInsertable, AuditInsertable;
      ok := connection.InsertCase(NewCaseRow(c));
      if ok && c.input.Some? {
        ok := connection.InsertInput(InputRow(c.input.value.inputId, c.caseId, c.input.value, c.occurredAt));
      }
      if ok {
        var event := NewEventRow(CreationEvent(c), None, Some(c.RequestFingerprint()));
        ok := connection.InsertEventAndOutbox(event, outboxId);
      }
      if ok {
        ok := connection.InsertAudit(
          AuditRow(auditId, CaseCreatedAudit, c.actor.id, c.correlationId, c.eventId, c.occurredAt));
      }
    }

    /** A committed creation, an idempotent replay, or a failure that leaves every table as it was. */
    method CreateCase(c: CreateCaseCommand, outboxId: Uuid, auditId: Uuid)
      returns (r: Result<CreateCaseResult, DbError>)
      requires KeysUnique(connection.Contents())
      modifies connection
      ensures var spec := CaseSpine.CreateCase(old(connection.Contents()), c, outboxId, auditId);
              match spec
              case Success(w) => connection.Contents() == w.0 && r == Success(w.1)
              case Failure(e) => connection.Contents() == old(connection.Contents()) && r == Failure(e)
    {
      var savepoint := connection.Contents();
      var owners := KeyOwners(savepoint, c.idempotencyKey);
      if owners != {} {
        var id :| id in owners;
        var existing := connection.cases[id];
        assert existing == CaseByKey(savepoint, c.idempotencyKey);
        if existing.request != c.RequestFingerprint() {
          return Failure(IdempotencyConflict(existing.id));
        }
        return Success(CreateCaseResult(existing, false));
      }
      hide CaseSpine.WriteNewCase;
      var ok := WriteNewCase(c, outboxId, auditId);
      if !ok {
        connection.Rollback(savepoint);
        WriteNewCaseFails(savepoint, c, outboxId, auditId);
        return Failure(IntegrityViolation);
      }
      return Success(CreateCaseResult(NewCaseRow(c), true));
    }

    method GetSnapshot(caseId: Uuid) returns (r: Result<CaseSnapshot, DbError>)
      ensures r == CaseSpine.GetSnapshot(connection.Contents(), caseId)
      ensures r.Success? ==> r.value.caseId == caseId && caseId in connection.cases
    {
      if caseId !in connection.cases {
        return Failure(CaseNotFound);
      }
      var row := connection.cases[caseId];
      return Success(CaseSnapshot(caseId, row.state, row.version));
    }

    /** The statements after a successful compare-and-swap, up to the first that fails. */
    method WriteTransition(outcome: TransitionOutcome, actor: Actor, outboxId: Uuid, auditId: Uuid) returns (ok: bool)
      requires SwapMatches(connection.Contents(), outcome.snapshot)
      modifies connection
      ensures ok == CaseSpine.PersistTransition(old(connection.Contents()), outcome, actor, outboxId, auditId).Success?
      ensures ok ==>
        connection.Contents()
        == CaseSpine.PersistTransition(old(connection.Contents()), outcome, actor, outboxId, auditId).value.0
    {
      hide TransitionInsertable, EventInsertable, OutboxInsertable, AuditInsertable;
      var id := outcome.snapshot.caseId;
      connection.cases := connection.cases[id := AdvancedCase(connection.cases[id], outcome)];
      ok := connection.InsertTransition(NewTransitionRow(outcome.transition, actor));
      if ok {
        ok := connection.InsertEventAndOutbox(
          NewEventRow(outcome.event, Some(outcome.event.transitionId), None), outboxId);
      }
      if ok {
        ok := connection.InsertAudit(
          AuditRow(auditId, CaseTransitionedAudit, actor.id, outcome.event.correlationId,
                   outcome.event.eventId, outcome.event.occurredAt));
      }
    }

    /** A committed transition, or a lost compare-and-swap or failing insert that changes no table. */
    method PersistTransition(outcome: TransitionOutcome, actor: Actor, outboxId: Uuid, auditId: Uuid)
      returns (r: Result<CaseRow, DbError>)
      modifies connection
      ensures var spec := CaseSpine.PersistTransition(old(connection.Contents()), outcome, actor, outboxId, auditId);
              match spec
              case Success(w) => connection.Contents() == w.0 && r == Success(w.1)
              case Failure(e) => connection.Contents() == old(connection.Contents()) && r == Failure(e)
    {
      var savepoint := connection.Contents();
      if !SwapMatches(savepoint, outcome.snapshot) {
        var current := GetSnapshot(outcome.snapshot.caseId);
        match current {
          case Failure(e) => return Failure(e);
          case Success(s) => return Failure(VersionConflict(outcome.snapshot.version - 1, s.version));
        }
      }
      var updated := AdvancedCase(connection.cases[outcome.snapshot.caseId], outcome);
      var ok := WriteTransition(outcome, actor, outboxId, auditId);
      if !ok {
        connection.Rollback(savepoint);
        return Failure(IntegrityViolation);
      }
      return Success(updated);
    }
  }

  lemma WriteNewCaseFails(db: Db, c: CreateCaseCommand, outboxId: Uuid, auditId: Uuid)
    requires CaseSpine.WriteNewCase(db, c, outboxId, auditId).Failure?
    ensures CaseSpine.WriteNewCase(db, c, outboxId, auditId) == Failure(IntegrityViolation)
  {
  }

  // ---------------------------------------------------------------- outbox

  /** The immutable business event plus the delivery lease owned by one worker. */
  datatype LeasedOutboxEvent = LeasedOutboxEvent(
    lease: OutboxLease, caseEventId: Uuid, payload: Payload, attemptCount: nat, lockedAt: Time)

  datatype OutboxError =
    | InvalidArgument
    | LeaseLost
    | ConsumerPayloadMismatch

  predicate SafeCodeChar(c: char) {
    'a' <= c <= 'z' || '0' <= c <= '9' || c == '.' || c == '_' || c == ':' || c == '-'
  }

  /** `[a-z0-9][a-z0-9._:-]{0,127}`. */
  predicate IsSafeCode(code: string) {
    && 1 <= |code| <= 128
    && ('a' <= code[0] <= 'z' || '0' <= code[0] <= '9')
    && forall i :: 0 <= i < |code| ==> SafeCodeChar(code[i])
  }

  /** In ASCII: a letter or digit first, then letters, digits, dots, underscores, colons and hyphens; 128 at most. */
  lemma SafeCodeIff(code: string)
    ensures IsSafeCode(code)
            <==> && 0 < |code| < 129
                 && code[0] != '.' && code[0] != '_' && code[0] != ':' && code[0] != '-'
                 && forall i :: 0 <= i < |code| ==>
                      var c := code[i] as int;
                      97 <= c <= 122 || 48 <= c <= 57 || c == 46 || c == 95 || c == 58 || c == 45
  {
    if IsSafeCode(code) {
      assert forall i :: 0 <= i < |code| ==> SafeCodeChar(code[i]);
    } else if |code| > 0 {
      assert SafeCodeChar(code[0]) || !SafeCodeChar(code[0]);
    }
  }

  function LeasedEvent(o: Uuid, row: OutboxRow, token: Token, now: Time): LeasedOutboxEvent {
    LeasedOutboxEvent(OutboxLease(o, token), row.caseEventId, row.payload, row.attemptCount + 1, now)
  }

  /** What a worker is handed is the row as the statement leaves it, under a lease that holds. */
  lemma LeasedEventShowsRow(outbox: OutboxTable, batch: seq<Uuid>, token: Token, now: Time, o: Uuid)
    requires o in batch && o in outbox && outbox[o].publishedAt.None?
    ensures var after := Outbox.LeaseAvailable(outbox, batch, token, now);
            var leased := LeasedEvent(o, outbox[o], token, now);
            && o in after && Holds(after, leased.lease) && leased.lease == OutboxLease(o, token)
            && leased.caseEventId == after[o].caseEventId && leased.payload == after[o].payload
            && leased.attemptCount == after[o].attemptCount && after[o].lockedAt == Some(leased.lockedAt)
  {
  }

  lemma LeaseNothing(outbox: OutboxTable, token: Token, now: Time)
    ensures Outbox.LeaseAvailable(outbox, [], token, now) == outbox
  {
  }

  lemma LeaseOneMore(outbox: OutboxTable, front: seq<Uuid>, o: Uuid, token: Token, now: Time)
    requires o in outbox && o !in front
    ensures var mid := Outbox.LeaseAvailable(outbox, front, token, now);
            && o in mid && mid[o] == outbox[o]
            && Outbox.LeaseAvailable(outbox, front + [o], token, now) == mid[o := LeasedRow(outbox[o], token, now)]
  {
  }

  class TenantOutboxRepository {
    const connection: Database

    constructor (connection: Database)
      ensures this.connection == connection
    {
      this.connection := connection;
    }

    /** Leases the first `limit` candidates of the queue and returns what each row now carries. */
    method LeaseAvailable(token: Token, now: Time, limit: int, leaseFor: Time)
      returns (r: Result<seq<LeasedOutboxEvent>, OutboxError>)
      modifies connection`outbox
      ensures r.Success? <==>
        !Blank(token.workerId) && |token.workerId| <= 200 && 1 <= limit <= 100 && leaseFor > 0
      ensures r.Failure? ==> r.error == InvalidArgument && connection.outbox == old(connection.outbox)
      ensures r.Success? ==>
        var batch := Batch(old(connection.outbox), now, leaseFor, limit);
        && connection.outbox == Outbox.LeaseAvailable(old(connection.outbox), batch, token, now)
        && |r.value| == |batch|
        && forall i :: 0 <= i < |batch| ==>
             r.value[i] == LeasedEvent(batch[i], old(connection.outbox)[batch[i]], token, now)
    {
      hide Batch, Eligible, Blank, QueueKey, Outbox.LeaseAvailable, LeasedRow, LeasedEvent;
      if Blank(token.workerId) || |token.workerId| > 200 || !(1 <= limit <= 100) || leaseFor <= 0 {
        return Failure(InvalidArgument);
      }
      ghost var before := connection.outbox;
      var batch := Batch(connection.outbox, now, leaseFor, limit);
      LeaseNothing(before, token, now);
      var leased: seq<LeasedOutboxEvent> := [];
      for i := 0 to |batch|
        invariant connection.outbox == Outbox.LeaseAvailable(before, batch[..i], token, now)
        invariant |leased| == i
        invariant forall j :: 0 <= j < i ==> leased[j] == LeasedEvent(batch[j], before[batch[j]], token, now)
      {
        LeaseOneMore(before, batch[..i], batch[i], token, now);
        var row := connection.outbox[batch[i]];
        connection.outbox := connection.outbox[batch[i] := LeasedRow(row, token, now)];
        leased := leased + [LeasedEvent(batch[i], row, token, now)];
        assert batch[..i + 1] == batch[..i] + [batch[i]];
      }
      assert batch[..|batch|] == batch;
      return Success(leased);
    }

    /** Only the row's current holder can acknowledge it; any other lease changes nothing. */
    method MarkPublished(lease: OutboxLease, publishedAt: Time) returns (r: Result<(), OutboxError>)
      modifies connection`outbox
      ensures r == if Holds(old(connection.outbox), lease) then Success(()) else Failure(LeaseLost)
      ensures Some(connection.outbox)
              == if r.Success? then Outbox.MarkPublished(old(connection.outbox), lease, publishedAt)
                 else Some(old(connection.outbox))
    {
      if !Holds(connection.outbox, lease) {
        return Failure(LeaseLost);
      }
      var row := connection.outbox[lease.outboxId];
      connection.outbox := connection.outbox[lease.outboxId := PublishedRow(row, publishedAt)];
      return Success(());
    }

    method ScheduleRetry(lease: OutboxLease, retryAt: Time, errorCode: string) returns (r: Result<(), OutboxError>)
      modifies connection`outbox
      ensures r == if !IsSafeCode(errorCode) then Failure(InvalidArgument)
                   else if Holds(old(connection.outbox), lease) then Success(()) else Failure(LeaseLost)
      ensures Some(connection.outbox)
              == if r.Success? then Outbox.ScheduleRetry(old(connection.outbox), lease, retryAt, errorCode)
                 else Some(old(connection.outbox))
    {
      if !IsSafeCode(errorCode) {
        return Failure(InvalidArgument);
      }
      if !Holds(connection.outbox, lease) {
        return Failure(LeaseLost);
      }
      var row := connection.outbox[lease.outboxId];
      connection.outbox := connection.outbox[lease.outboxId := RetriedRow(row, retryAt, errorCode)];
      return Success(());
    }
  }

  class TenantConsumerInbox {
    const connection: Database

    constructor (connection: Database)
      ensures this.connection == connection
    {
      this.connection := connection;
    }

    /** True for a new receipt, false for a replay; a receipt is never replaced. */
    method RecordOnce(consumerName: string, eventId: Uuid, payload: Payload, processedAt: Time)
      returns (r: Result<bool, OutboxError>)
      modifies connection`inbox
      ensures if Blank(consumerName) || |consumerName| > 255
              then r == Failure(InvalidArgument) && connection.inbox == old(connection.inbox)
              else
                var (inbox, outcome) :=
                  Outbox.RecordOnce(old(connection.inbox), InboxKey(Strip(consumerName), eventId), payload,
                                    processedAt);
                && connection.inbox == inbox
                && r == match outcome
                        case New => Success(true)
                        case Replay => Success(false)
                        case PayloadMismatch => Failure(ConsumerPayloadMismatch)
    {
      if Blank(consumerName) || |consumerName| > 255 {
        return Failure(InvalidArgument);
      }
      var key := InboxKey(Strip(consumerName), eventId);
      if key !in connection.inbox {
        connection.inbox := connection.inbox[key := Receipt(payload, processedAt)];
        return Success(true);
      }
      if connection.inbox[key].payload != payload {
        return Failure(ConsumerPayloadMismatch);
      }
      return Success(false);
    }
  }

  // ---------------------------------------------------------------- artifacts

  class TenantArtifactIntentRepository {
    const connection: Database

    constructor (connection: Database)
      ensures this.connection == connection
    {
      this.connection := connection;
    }

    method Create(intent: UploadIntent, auditId: Uuid) returns (r: Result<(), DbError>)
      requires !intent.Completed()
      modifies connection
      ensures match DeclareUpload(old(connection.Contents()), intent, auditId)
              case Success(db) => connection.Contents() == db && r == Success(())
              case Failure(e) => connection.Contents() == old(connection.Contents()) && r == Failure(e)
    {
      var savepoint := connection.Contents();
      var ok := connection.InsertIntent(intent);
      if ok {
        ok := connection.InsertAudit(
          AuditRow(auditId, IntentCreatedAudit, intent.createdBy, intent.correlationId, intent.id, intent.createdAt));
      }
      if !ok {
        connection.Rollback(savepoint);
        return Failure(IntegrityViolation);
      }
      return Success(());
    }

    /** The statements of a completion, up to the first that fails. */
    method WriteCompletion(intent: UploadIntent, encryptionKey: string, now: Time, ids: CompletionIds)
      returns (ok: bool)
      modifies connection
      ensures ok == Artifacts.WriteCompletion(old(connection.Contents()), intent, encryptionKey, now, ids).Success?
      ensures ok ==>
        connection.Contents()
        == Artifacts.WriteCompletion(old(connection.Contents()), intent, encryptionKey, now, ids).value
    {
      hide ArtifactInsertable, ArtifactLedger.LedgerInsertable, EventInsertable, OutboxInsertable, AuditInsertable,
        ArtifactOf, QuarantinedRow, CompletionEvent, NewOutboxRow;
      ok := connection.InsertArtifact(ArtifactOf(intent, encryptionKey, now));
      if ok {
        ok := connection.InsertLedger(QuarantinedRow(intent, ids.ledgerId, now));
      }
      if ok {
        ok := intent.caseId in connection.cases;
      }
      if ok {
        var event := CompletionEvent(intent, ids.eventId, connection.cases[intent.caseId].version, now);
        ok := connection.InsertEventAndOutbox(event, ids.outboxId);
      }
      if ok {
        connection.intents := connection.intents[intent.id := intent.(completedAt := Some(now))];
        ok := connection.InsertAudit(
          AuditRow(ids.auditId, UploadCompletedAudit, intent.createdBy, intent.correlationId, intent.id, now));
      }
    }

    /** A committed completion, an answer to a repeated one, or a failure that changes no table. */
    method Complete(caseId: Uuid, intentId: Uuid, head: Option<ObjectMetadata>, now: Time, ids: CompletionIds)
      returns (r: Result<CompletedUpload, DbError>)
      modifies connection
      ensures match Artifacts.Complete(old(connection.Contents()), caseId, intentId, head, now, ids)
              case Success(w) => connection.Contents() == w.0 && r == Success(w.1)
              case Failure(e) => connection.Contents() == old(connection.Contents()) && r == Failure(e)
    {
      var savepoint := connection.Contents();
      if intentId !in connection.intents || connection.intents[intentId].caseId != caseId {
        return Failure(IntentNotFound);
      }
      var intent := connection.intents[intentId];
      if intent.Completed() {
        return Success(CompletedUpload(intent.artifactId, intent.completedAt.value, true));
      }
      if intent.expiresAt <= now {
        return Failure(IntentExpired);
      }
      if head.None? {
        return Failure(StoreUnavailable);
      }
      if !MetadataMatches(intent, head.value) {
        return Failure(UploadMetadataMismatch);
      }
      hide Artifacts.WriteCompletion;
      var ok := WriteCompletion(intent, head.value.encryptionKey, now, ids);
      if !ok {
        connection.Rollback(savepoint);
        WriteCompletionFails(savepoint, intent, head.value.encryptionKey, now, ids);
        return Failure(IntegrityViolation);
      }
      return Success(CompletedUpload(intent.artifactId, now, false));
    }
  }

  lemma WriteCompletionFails(db: Db, intent: UploadIntent, key: string, now: Time, ids: CompletionIds)
    requires Artifacts.WriteCompletion(db, intent, key, now, ids).Failure?
    ensures Artifacts.WriteCompletion(db, intent, key, now, ids) == Failure(IntegrityViolation)
  {
  }

  class TenantArtifactProcessingRepository {
    const connection: Database

    constructor (connection: Database)
      ensures this.connection == connection
    {
      this.connection := connection;
    }

    /** Appends the verdict to the active quarantined attempt, or changes nothing. */
    method RecordScanOutcome(verdict: ArtifactLedger.ScanVerdict, id: Uuid) returns (r: Result<LedgerRow, DbError>)
      requires forall i :: 0 <= i < |connection.ledger| ==> connection.ledger[i].artifactId in connection.artifacts
      modifies connection`ledger
      ensures match ArtifactLedger.RecordScanOutcome(old(connection.ledger), verdict, id)
              case Success(w) => connection.ledger == w.0 && r == Success(w.1)
              case Failure(e) => connection.ledger == old(connection.ledger) && r == Failure(e)
    {
      var active := ArtifactLedger.ActiveRow(connection.ledger, verdict.artifactId);
      if active.None? || !active.value.state.Quarantined? {
        return Failure(LedgerConflict);
      }
      ActiveRowIsOfArtifact(connection.ledger, verdict.artifactId);
      var row := ArtifactLedger.VerdictRow(id, verdict, active.value);
      var ok := connection.InsertLedger(row);
      if !ok {
        return Failure(IntegrityViolation);
      }
      return Success(row);
    }
  }

  lemma {:induction false} ActiveRowIsOfArtifact(ledger: seq<LedgerRow>, artifact: Uuid)
    requires ArtifactLedger.ActiveRow(ledger, artifact).Some?
    ensures exists i :: 0 <= i < |ledger| && ledger[i].artifactId == artifact
  {
    var n := |ledger| - 1;
    if ledger[n].artifactId != artifact {
      ActiveRowIsOfArtifact(ledger[..n], artifact);
      var i :| 0 <= i < n && ledger[..n][i].artifactId == artifact;
      assert ledger[i].artifactId == artifact;
    }
  }
}
