/** What runs never undo: the append-only tables, the published rows and the case keys. */
module History {
  import opened Base
  import opened CaseDomain
  import opened Tables
  import opened CaseSpine
  import opened Outbox
  import opened Artifacts
  import opened Machine
  import opened DeliveryInvariants
  import opened CaseInvariants
  import opened ArtifactInvariants
  import opened Invariants

  /** Only the state, the version and the time of change of a case ever change; its version never goes back. */
  predicate CaseEvolves(old_: CaseRow, new_: CaseRow) {
    && new_ == old_.(state := new_.state, version := new_.version, updatedAt := new_.updatedAt)
    && new_.version >= old_.version
  }

  /** Rows are stored under their own id. */
  ghost predicate KeyedById(cases: CaseTable) {
    forall c :: c in cases ==> cases[c].id == c
  }

  ghost predicate CasesEvolve(cases: CaseTable, cases': CaseTable) {
    && (forall c :: c in cases ==> c in cases' && CaseEvolves(cases[c], cases'[c]))
    && (KeyedById(cases) ==> KeyedById(cases'))
  }

  ghost predicate Kept<K(!new), V(!new)>(rows: map<K, V>, rows': map<K, V>) {
    forall k :: k in rows ==> k in rows' && rows'[k] == rows[k]
  }

  /** Outbox rows stay, and each changes only as the trigger on outbox_events allows. */
  ghost predicate OutboxEvolves(outbox: OutboxTable, outbox': OutboxTable) {
    forall o :: o in outbox ==> o in outbox' && OutboxMutationAllowed(outbox[o], outbox'[o])
  }

  /** Only completion events have no actor. */
  ghost predicate ActorsMatch(events: EventTable) {
    forall e :: e in events ==> (events[e].actorId.None? <==> events[e].eventType.ArtifactCompleted?)
  }

  ghost predicate EventsEvolve(events: EventTable, events': EventTable) {
    Kept(events, events') && (ActorsMatch(events) ==> ActorsMatch(events'))
  }

  ghost predicate Evolves(db: Db, db': Db) {
    && CasesEvolve(db.cases, db'.cases)
    && db.transitions <= db'.transitions
    && EventsEvolve(db.events, db'.events)
    && OutboxEvolves(db.outbox, db'.outbox)
    && Kept(db.inbox, db'.inbox)
    && Kept(db.artifacts, db'.artifacts)
    && db.ledger <= db'.ledger
    && db'.eventActorRequired == db.eventActorRequired
  }

  lemma EvolvesReflexive(db: Db)
    ensures Evolves(db, db)
  {
  }

  lemma EvolvesTransitive(a: Db, b: Db, c: Db)
    requires Evolves(a, b) && Evolves(b, c)
    ensures Evolves(a, c)
  {
    assert CasesEvolve(a.cases, c.cases);
    assert EventsEvolve(a.events, c.events) && Kept(a.inbox, c.inbox) && Kept(a.artifacts, c.artifacts);
    assert OutboxEvolves(a.outbox, c.outbox);
    hide CasesEvolve, Kept, OutboxEvolves, EventsEvolve;
  }

  lemma AddsEventEvolves(db: Db, db': Db, event: EventRow, outboxId: Uuid)
    requires AddsEvent(db, db', event, outboxId)
    requires event.actorId.None? <==> event.eventType.ArtifactCompleted?
    ensures EventsEvolve(db.events, db'.events) && OutboxEvolves(db.outbox, db'.outbox) && Kept(db.inbox, db'.inbox)
  {
  }

  lemma CreationEvolves(db: Db, db': Db, c: CreateCaseCommand, outboxId: Uuid)
    requires CreationWrites(db, db', c, outboxId)
    ensures Evolves(db, db')
  {
    AddsEventEvolves(db, db', NewEventRow(CreationEvent(c), None, Some(c.RequestFingerprint())), outboxId);
    hide Kept, OutboxEvolves, EventsEvolve, AddsEvent;
    assert Kept(db.artifacts, db'.artifacts) by {
      KeptReflexive(db.artifacts);
    }
  }

  lemma KeptReflexive<K(!new), V(!new)>(rows: map<K, V>)
    ensures Kept(rows, rows)
  {
  }

  lemma TransitionEvolves(db: Db, db': Db, outcome: TransitionOutcome, actor: Actor, outboxId: Uuid)
    requires TransitionWrites(db, db', outcome, actor, outboxId) && !outcome.event.eventType.ArtifactCompleted?
    ensures Evolves(db, db')
  {
    AddsEventEvolves(db, db', NewEventRow(outcome.event, Some(outcome.event.transitionId), None), outboxId);
    hide Kept, OutboxEvolves, EventsEvolve, AddsEvent;
    KeptReflexive(db.artifacts);
  }

  lemma CompletionEvolves(
      db: Db, db': Db, intent: UploadIntent, key: string, now: Time, ids: CompletionIds, event: EventRow)
    requires CompletionWrites(db, db', intent, key, now, ids, event)
    requires event.actorId.None? && event.eventType.ArtifactCompleted?
    ensures Evolves(db, db')
  {
    AddsEventEvolves(db, db', event, ids.outboxId);
    assert Kept(db.artifacts, db'.artifacts);
    hide Kept, OutboxEvolves, EventsEvolve, AddsEvent;
  }

  lemma OutboxUpdateEvolves(db: Db, outbox': OutboxTable)
    requires GuardAllows(db.outbox, outbox')
    ensures Evolves(db, db.(outbox := outbox'))
  {
    EvolvesReflexive(db);
    assert OutboxEvolves(db.outbox, outbox');
    hide Kept, OutboxEvolves, EventsEvolve, CasesEvolve;
  }

  lemma HandoffEvolves(s: System, lease: OutboxLease)
    requires lease in s.held
    ensures Evolves(s.db, StepHandoff(s, lease).db)
  {
    HandoffFrame(s, lease);
    EvolvesReflexive(s.db);
    assert Kept(s.db.inbox, StepHandoff(s, lease).db.inbox);
    hide Kept, OutboxEvolves, EventsEvolve, CasesEvolve;
  }

  lemma SettlementEvolves(s: System, step: Step)
    requires Enabled(s, step) && (step.PublishStep? || step.RetryStep?)
    ensures Evolves(s.db, Next(s, step).db)
  {
    hide Evolves;
    if Next(s, step).db == s.db {
      EvolvesReflexive(s.db);
    } else {
      match step {
        case PublishStep(lease) =>
          SettlementRespectsGuard(s.db.outbox, lease, s.clock, "");
          OutboxUpdateEvolves(s.db, Next(s, step).db.outbox);
        case RetryStep(lease, delay, errorCode) =>
          SettlementRespectsGuard(s.db.outbox, lease, s.clock + delay, errorCode);
          OutboxUpdateEvolves(s.db, Next(s, step).db.outbox);
      }
    }
  }

  lemma CreateStepEvolves(db: Db, c: CreateCaseCommand, outboxId: Uuid, auditId: Uuid)
    requires CreateCase(db, c, outboxId, auditId).Success?
    ensures Evolves(db, CreateCase(db, c, outboxId, auditId).value.0)
  {
    hide Evolves, CreationWrites, WriteNewCase;
    if KeyOwners(db, c.idempotencyKey) == {} {
      CreateEffect(db, c, outboxId, auditId);
      CreationEvolves(db, CreateCase(db, c, outboxId, auditId).value.0, c, outboxId);
    } else {
      EvolvesReflexive(db);
    }
  }

  lemma TransitionStepEvolves(
      s: System, snapshot: CaseSnapshot, command: TransitionCommand, outboxId: Uuid, auditId: Uuid)
    ensures Evolves(s.db, StepTransition(s, snapshot, command, outboxId, auditId).db)
  {
    hide Evolves, TransitionWrites, PersistTransition;
    EvolvesReflexive(s.db);
    var decision := ApplyTransition(snapshot, command);
    if decision.Success? {
      var w := PersistTransition(s.db, decision.value, command.actor, outboxId, auditId);
      if w.Success? {
        DecidedEventType(snapshot, command);
        TransitionEffect(s.db, decision.value, command.actor, outboxId, auditId);
        TransitionEvolves(s.db, w.value.0, decision.value, command.actor, outboxId);
      }
    }
  }

  lemma DecidedEventType(snapshot: CaseSnapshot, command: TransitionCommand)
    requires ApplyTransition(snapshot, command).Success?
    ensures !ApplyTransition(snapshot, command).value.event.eventType.ArtifactCompleted?
  {
  }

  lemma CompleteStepEvolves(
      db: Db, caseId: Uuid, intentId: Uuid, head: Option<ObjectMetadata>, at: Time, ids: CompletionIds)
    requires Complete(db, caseId, intentId, head, at, ids).Success?
    ensures Evolves(db, Complete(db, caseId, intentId, head, at, ids).value.0)
  {
    hide Evolves, CompletionWrites, WriteCompletion;
    EvolvesReflexive(db);
    var intent := db.intents[intentId];
    if !intent.Completed() {
      CompletionEffect(db, intent, head.value.encryptionKey, at, ids);
      CompletionEvolves(db, Complete(db, caseId, intentId, head, at, ids).value.0, intent, head.value.encryptionKey,
                        at, ids, CompletionEvent(intent, ids.eventId, db.cases[intent.caseId].version, at));
    }
  }

  lemma DeclareStepEvolves(db: Db, intent: UploadIntent, auditId: Uuid)
    requires !intent.Completed() && DeclareUpload(db, intent, auditId).Success?
    ensures Evolves(db, DeclareUpload(db, intent, auditId).value)
  {
    DeclareEffect(db, intent, auditId);
    EvolvesReflexive(db);
    hide Kept, OutboxEvolves, EventsEvolve, CasesEvolve, DeclareUpload;
  }

  lemma LedgerStepEvolves(db: Db, row: LedgerRow)
    requires InsertLedger(db, row).Success?
    ensures Evolves(db, InsertLedger(db, row).value)
  {
    EvolvesReflexive(db);
    hide Kept, OutboxEvolves, EventsEvolve, CasesEvolve;
  }

  lemma LeaseStepEvolves(s: System, token: Token, limit: nat)
    ensures Evolves(s.db, StepLease(s, token, limit).db)
  {
    hide Evolves;
    var batch := Batch(s.db.outbox, s.clock, s.leaseFor, limit);
    LeaseRespectsGuard(s.db.outbox, batch, token, s.clock);
    OutboxUpdateEvolves(s.db, StepLease(s, token, limit).db.outbox);
  }

  /** Every step only appends to the history and respects the outbox guard. */
  lemma NextEvolves(s: System, step: Step)
    requires Enabled(s, step)
    ensures Evolves(s.db, Next(s, step).db)
  {
    hide Evolves;
    EvolvesReflexive(s.db);
    match step
    case CreateStep(c, outboxId, auditId) =>
      if CreateCase(s.db, c, outboxId, auditId).Success? {
        CreateStepEvolves(s.db, c, outboxId, auditId);
      }
    case ReadStep(_, _) =>
    case TransitionStep(client, command, outboxId, auditId) =>
      TransitionStepEvolves(s, s.snapshots[client], command, outboxId, auditId);
    case LeaseStep(token, limit) => LeaseStepEvolves(s, token, limit);
    case HandoffStep(lease) => HandoffEvolves(s, lease);
    case PublishStep(_) => SettlementEvolves(s, step);
    case RetryStep(_, _, _) => SettlementEvolves(s, step);
    case CrashStep(_) =>
    case TickStep(_) =>
    case DeclareStep(intent, auditId) =>
      if DeclareUpload(s.db, intent, auditId).Success? {
        DeclareStepEvolves(s.db, intent, auditId);
      }
    case CompleteStep(caseId, intentId, head, at, ids) =>
      if Complete(s.db, caseId, intentId, head, at, ids).Success? {
        CompleteStepEvolves(s.db, caseId, intentId, head, at, ids);
      }
    case LedgerStep(row) =>
      if InsertLedger(s.db, row).Success? {
        LedgerStepEvolves(s.db, row);
      }
  }

  /** So does every run. */
  lemma {:induction false} RunEvolves(s: System, steps: seq<Step>)
    requires IsRun(s, steps)
    ensures Evolves(s.db, Run(s, steps).db)
    decreases |steps|
  {
    hide Evolves;
    if steps == [] {
      EvolvesReflexive(s.db);
    } else {
      NextEvolves(s, steps[0]);
      RunEvolves(Next(s, steps[0]), steps[1..]);
      EvolvesTransitive(s.db, Next(s, steps[0]).db, Run(s, steps).db);
    }
  }

  // ---------------------------------------------------------------- audit trail and inputs

  /** The audit trail only grows, and no case input is changed or removed. */
  ghost predicate Appends(db: Db, db': Db) {
    db.audit <= db'.audit && Kept(db.inputs, db'.inputs)
  }

  lemma AppendsReflexive(db: Db)
    ensures Appends(db, db)
  {
  }

  lemma CaseRowsAppend(db: Db, c: CreateCaseCommand)
    requires WriteCaseRows(db, c).Success?
    ensures var db' := WriteCaseRows(db, c).value;
            db'.audit == db.audit && Kept(db.inputs, db'.inputs)
  {
    hide CaseInsertable;
  }

  lemma WriteNewCaseAppends(db: Db, c: CreateCaseCommand, outboxId: Uuid, auditId: Uuid)
    requires WriteNewCase(db, c, outboxId, auditId).Success?
    ensures Appends(db, WriteNewCase(db, c, outboxId, auditId).value)
  {
    hide WriteCaseRows, InsertEventAndOutbox, AuditInsertable, Kept;
    CaseRowsAppend(db, c);
    var event := NewEventRow(CreationEvent(c), None, Some(c.RequestFingerprint()));
    InsertEventAndOutboxEffect(WriteCaseRows(db, c).value, event, outboxId);
  }

  lemma CreateAppends(db: Db, c: CreateCaseCommand, outboxId: Uuid, auditId: Uuid)
    requires CreateCase(db, c, outboxId, auditId).Success?
    ensures Appends(db, CreateCase(db, c, outboxId, auditId).value.0)
  {
    hide WriteNewCase, KeyOwners, Appends;
    AppendsReflexive(db);
    if KeyOwners(db, c.idempotencyKey) == {} {
      WriteNewCaseAppends(db, c, outboxId, auditId);
    }
  }

  lemma TransitionAppends(db: Db, outcome: TransitionOutcome, actor: Actor, outboxId: Uuid, auditId: Uuid)
    requires PersistTransition(db, outcome, actor, outboxId, auditId).Success?
    ensures Appends(db, PersistTransition(db, outcome, actor, outboxId, auditId).value.0)
  {
    hide TransitionInsertable, EventInsertable, OutboxInsertable, AuditInsertable;
  }

  lemma TransitionStepAppends(
      s: System, snapshot: CaseSnapshot, command: TransitionCommand, outboxId: Uuid, auditId: Uuid)
    ensures Appends(s.db, StepTransition(s, snapshot, command, outboxId, auditId).db)
  {
    hide Appends, PersistTransition, ApplyTransition;
    AppendsReflexive(s.db);
    var decision := ApplyTransition(snapshot, command);
    if decision.Success? && PersistTransition(s.db, decision.value, command.actor, outboxId, auditId).Success? {
      TransitionAppends(s.db, decision.value, command.actor, outboxId, auditId);
    }
  }

  lemma DeclareAppends(db: Db, intent: UploadIntent, auditId: Uuid)
    requires !intent.Completed() && DeclareUpload(db, intent, auditId).Success?
    ensures Appends(db, DeclareUpload(db, intent, auditId).value)
  {
    hide IntentInsertable, AuditInsertable;
  }

  lemma CompleteAppends(
      db: Db, caseId: Uuid, intentId: Uuid, head: Option<ObjectMetadata>, at: Time, ids: CompletionIds)
    requires Complete(db, caseId, intentId, head, at, ids).Success?
    ensures Appends(db, Complete(db, caseId, intentId, head, at, ids).value.0)
  {
    hide ArtifactInsertable, ArtifactLedger.LedgerInsertable, EventInsertable, OutboxInsertable, AuditInsertable;
  }

  lemma NextAppends(s: System, step: Step)
    requires Enabled(s, step)
    ensures Appends(s.db, Next(s, step).db)
  {
    hide Appends, CreateCase, StepTransition, DeclareUpload, Complete, RecordOnce, MarkPublished, ScheduleRetry, Batch,
      ArtifactLedger.AppendRow, LeaseAvailable, HeldBatch, LeaseEntries;
    AppendsReflexive(s.db);
    OtherTablesAppend(s.db);
    match step
    case CreateStep(c, outboxId, auditId) =>
      if CreateCase(s.db, c, outboxId, auditId).Success? {
        CreateAppends(s.db, c, outboxId, auditId);
      }
    case TransitionStep(client, command, outboxId, auditId) =>
      TransitionStepAppends(s, s.snapshots[client], command, outboxId, auditId);
    case DeclareStep(intent, auditId) =>
      if DeclareUpload(s.db, intent, auditId).Success? {
        DeclareAppends(s.db, intent, auditId);
      }
    case CompleteStep(caseId, intentId, head, at, ids) =>
      if Complete(s.db, caseId, intentId, head, at, ids).Success? {
        CompleteAppends(s.db, caseId, intentId, head, at, ids);
      }
    case _ =>
  }

  lemma OtherTablesAppend(db: Db)
    ensures forall outbox :: Appends(db, db.(outbox := outbox))
    ensures forall inbox :: Appends(db, db.(inbox := inbox))
    ensures forall ledger :: Appends(db, db.(ledger := ledger))
  {
  }

  /** Over any run the audit trail is only appended to, and case inputs are immutable. */
  lemma {:induction false} RunAppends(s: System, steps: seq<Step>)
    requires IsRun(s, steps)
    ensures Appends(s.db, Run(s, steps).db)
    decreases |steps|
  {
    hide Next, Enabled;
    if steps != [] {
      NextAppends(s, steps[0]);
      RunAppends(Next(s, steps[0]), steps[1..]);
    }
  }
}
