/** The invariant of the step machine, kept by every enabled step and so by every run. */
module Invariants {
  import opened Base
  import opened CaseDomain
  import opened Tables
  import opened CaseSpine
  import opened Outbox
  import opened Artifacts
  import opened Machine
  import opened DeliveryLog
  import opened DeliveryInvariants
  import opened CaseInvariants
  import opened ArtifactInvariants

  ghost predicate DeliveryInv(s: System) {
    && OutboxMirrorsEvents(s.db.events, s.db.outbox)
    && ReceiptsMatch(s.consumer, s.db.events, s.db.outbox, s.db.inbox)
    && DeliveriesMatch(s.db.outbox, s.log, s.tokens)
    && HoldersInformed(s.consumer, s.held, s.db.outbox, s.db.inbox, s.log)
  }

  ghost predicate CaseInv(s: System) {
    && ProjectionsReplay(s.db.cases, s.db.transitions)
    && DecisionsMatch(s.db.transitions, s.accepted)
    && SnapshotsSound(s.db.cases, s.snapshots)
    && KeysUnique(s.db)
    && CreationEvents(s.db.cases, s.db.events)
    && TransitionEvents(s.db.transitions, s.db.events)
    && OtherEvents(s.db.events)
  }

  ghost predicate ArtifactInv(s: System) {
    && IntentsMatchArtifacts(s.db.intents, s.db.artifacts)
    && LedgerMatchesArtifacts(s.db.artifacts, s.db.ledger)
    && EventsMatchArtifacts(s.db.artifacts, s.db.events)
  }

  ghost predicate Inv(s: System) {
    DeliveryInv(s) && CaseInv(s) && ArtifactInv(s)
  }

  lemma InitDelivery(s: System)
    requires s.db == EmptyDb(s.db.eventActorRequired) && s.held == map[] && s.log == []
    ensures DeliveryInv(s)
  {
    assert OutboxMirrorsEvents(map[], map[]);
    assert ReceiptsMatch(s.consumer, map[], map[], map[]);
    assert DeliveriesMatch(map[], [], s.tokens);
    assert HoldersInformed(s.consumer, map[], map[], map[], []);
    hide OutboxMirrorsEvents, ReceiptsMatch, DeliveriesMatch, HoldersInformed;
  }

  lemma InitCases(s: System)
    requires s.db == EmptyDb(s.db.eventActorRequired) && s.snapshots == map[] && s.accepted == []
    ensures CaseInv(s)
  {
    assert ProjectionsReplay(map[], []) && DecisionsMatch([], []) && SnapshotsSound(map[], map[]);
    assert KeysUnique(s.db) && CreationEvents(map[], map[]) && TransitionEvents([], map[]) && OtherEvents(map[]);
    hide ProjectionsReplay, DecisionsMatch, SnapshotsSound, KeysUnique, CreationEvents, TransitionEvents, OtherEvents;
  }

  lemma InitArtifacts(s: System)
    requires s.db == EmptyDb(s.db.eventActorRequired)
    ensures ArtifactInv(s)
  {
    assert IntentsMatchArtifacts(map[], map[]) && LedgerMatchesArtifacts(map[], []);
    assert EventsMatchArtifacts(map[], map[]);
    hide IntentsMatchArtifacts, LedgerMatchesArtifacts, EventsMatchArtifacts;
  }

  lemma InitInv(leaseFor: Time, consumer: string, eventActorRequired: bool, clock: Time)
    ensures Inv(Init(leaseFor, consumer, eventActorRequired, clock))
  {
    hide DeliveryInv, CaseInv, ArtifactInv;
    InitDelivery(Init(leaseFor, consumer, eventActorRequired, clock));
    InitCases(Init(leaseFor, consumer, eventActorRequired, clock));
    InitArtifacts(Init(leaseFor, consumer, eventActorRequired, clock));
  }

  /** A new event with its outbox row, as seen by the delivery half. */
  lemma AddsEventKeepsDelivery(s: System, s': System, event: EventRow, outboxId: Uuid)
    requires DeliveryInv(s) && AddsEvent(s.db, s'.db, event, outboxId)
    requires s'.consumer == s.consumer && s'.log == s.log && s'.tokens == s.tokens && s'.held == s.held
    ensures DeliveryInv(s')
  {
    hide OutboxMirrorsEvents, ReceiptsMatch, DeliveriesMatch, HoldersInformed;
    AddsEventKeepsMirror(s.db, s'.db, event, outboxId);
    AddsEventKeepsReceipts(s.consumer, s.db, s'.db, event, outboxId);
    AddsEventKeepsDeliveries(s.db, s'.db, event, outboxId, s.log, s.tokens);
    AddsEventKeepsHolders(s.consumer, s.held, s.db, s'.db, event, outboxId, s.log);
  }

  /** Delivery steps do not touch what the other two halves speak about. */
  lemma DeliveryStepFrame(s: System, s': System)
    requires s'.db == s.db.(outbox := s'.db.outbox, inbox := s'.db.inbox)
    requires s'.accepted == s.accepted && s'.snapshots == s.snapshots
    requires CaseInv(s) && ArtifactInv(s)
    ensures CaseInv(s') && ArtifactInv(s')
  {
  }

  // ---------------------------------------------------------------- create

  lemma CreateKeepsCases(s: System, s': System, c: CreateCaseCommand, outboxId: Uuid)
    requires CaseInv(s) && CreationWrites(s.db, s'.db, c, outboxId) && KeyOwners(s.db, c.idempotencyKey) == {}
    requires s'.accepted == s.accepted && s'.snapshots == s.snapshots
    ensures CaseInv(s')
  {
    hide ProjectionsReplay, DecisionsMatch, SnapshotsSound, KeysUnique, CreationEvents, TransitionEvents, OtherEvents;
    hide KeyOwners;
    var row := NewCaseRow(c);
    var event := NewEventRow(CreationEvent(c), None, Some(c.RequestFingerprint()));
    CreateKeepsProjections(s.db.cases, s.db.transitions, row);
    CreateKeepsSnapshots(s.db.cases, s.snapshots, row);
    CreateKeepsKeys(s.db, s'.db, row);
    OtherEventsKept(s.db.events, s'.db.events, event);
    NewCreationEvent(s.db.cases, s.db.events, s'.db.events, row, event);
    OtherEventKeepsTransitions(s.db.transitions, s.db.events, s'.db.events, event);
  }

  lemma CaseEventKeepsArtifacts(s: System, s': System, event: EventRow, outboxId: Uuid)
    requires ArtifactInv(s) && AddsEvent(s.db, s'.db, event, outboxId) && !event.eventType.ArtifactCompleted?
    requires SameOtherTables(s.db, s'.db)
    ensures ArtifactInv(s')
  {
    OtherEventKeepsAnnouncements(s.db.artifacts, s.db.events, s'.db.events, event);
  }

  lemma CreateKeepsInv(s: System, s': System, c: CreateCaseCommand, outboxId: Uuid)
    requires Inv(s) && CreationWrites(s.db, s'.db, c, outboxId) && KeyOwners(s.db, c.idempotencyKey) == {}
    requires s' == s.(db := s'.db)
    ensures Inv(s')
  {
    hide DeliveryInv, CaseInv, ArtifactInv;
    var event := NewEventRow(CreationEvent(c), None, Some(c.RequestFingerprint()));
    AddsEventKeepsDelivery(s, s', event, outboxId);
    CreateKeepsCases(s, s', c, outboxId);
    CaseEventKeepsArtifacts(s, s', event, outboxId);
  }

  // ---------------------------------------------------------------- transition

  lemma TransitionKeepsHistory(
      s: System, s': System, client: Uuid, command: TransitionCommand, outcome: TransitionOutcome, outboxId: Uuid)
    requires CaseInv(s) && client in s.snapshots && command.Valid()
    requires ApplyTransition(s.snapshots[client], command) == Success(outcome)
    requires TransitionWrites(s.db, s'.db, outcome, command.actor, outboxId)
    requires s'.accepted == s.accepted + [command] && s'.snapshots == s.snapshots
    ensures ProjectionsReplay(s'.db.cases, s'.db.transitions)
    ensures DecisionsMatch(s'.db.transitions, s'.accepted)
    ensures SnapshotsSound(s'.db.cases, s'.snapshots)
    ensures KeysUnique(s'.db)
  {
    SwapSeesTrueState(s.db, s.snapshots, client, command);
    var row := NewTransitionRow(outcome.transition, command.actor);
    var updated := AdvancedCase(s.db.cases[outcome.snapshot.caseId], outcome);
    hide ProjectionsReplay, DecisionsMatch, SnapshotsSound;
    TransitionKeepsProjections(s.db.cases, s.db.transitions, updated, row);
    TransitionKeepsSnapshots(s.db.cases, s.snapshots, outcome.snapshot.caseId, updated);
    DecisionAppends(s.db.transitions, s.accepted, s.snapshots[client], command);
  }

  lemma TransitionKeepsEvents(
      s: System, s': System, snapshot: CaseSnapshot, command: TransitionCommand, outcome: TransitionOutcome,
      outboxId: Uuid)
    requires CaseInv(s) && ApplyTransition(snapshot, command) == Success(outcome)
    requires TransitionWrites(s.db, s'.db, outcome, command.actor, outboxId)
    ensures CreationEvents(s'.db.cases, s'.db.events)
    ensures TransitionEvents(s'.db.transitions, s'.db.events)
    ensures OtherEvents(s'.db.events)
  {
    hide ProjectionsReplay, DecisionsMatch, SnapshotsSound, KeysUnique, CreationEvents, TransitionEvents, OtherEvents;
    var row := NewTransitionRow(outcome.transition, command.actor);
    var event := NewEventRow(outcome.event, Some(outcome.event.transitionId), None);
    OtherEventKeepsCreations(s.db.cases, s'.db.cases, s.db.events, s'.db.events, event);
    NewTransitionEvent(s.db.transitions, row, s.db.events, s'.db.events, event);
    OtherEventsKept(s.db.events, s'.db.events, event);
  }

  lemma TransitionKeepsInv(
      s: System, s': System, client: Uuid, command: TransitionCommand, outcome: TransitionOutcome, outboxId: Uuid)
    requires Inv(s) && client in s.snapshots && command.Valid()
    requires ApplyTransition(s.snapshots[client], command) == Success(outcome)
    requires TransitionWrites(s.db, s'.db, outcome, command.actor, outboxId)
    requires s' == s.(db := s'.db, accepted := s.accepted + [command])
    ensures Inv(s')
  {
    hide DeliveryInv, ArtifactInv;
    hide ProjectionsReplay, DecisionsMatch, SnapshotsSound, KeysUnique, CreationEvents, TransitionEvents, OtherEvents;
    var event := NewEventRow(outcome.event, Some(outcome.event.transitionId), None);
    AddsEventKeepsDelivery(s, s', event, outboxId);
    TransitionKeepsHistory(s, s', client, command, outcome, outboxId);
    TransitionKeepsEvents(s, s', s.snapshots[client], command, outcome, outboxId);
    CaseEventKeepsArtifacts(s, s', event, outboxId);
  }

  lemma StepTransitionKeepsInv(s: System, client: Uuid, command: TransitionCommand, outboxId: Uuid, auditId: Uuid)
    requires Inv(s) && client in s.snapshots && command.Valid()
    ensures Inv(StepTransition(s, s.snapshots[client], command, outboxId, auditId))
  {
    hide DeliveryInv, CaseInv, ArtifactInv;
    var decision := ApplyTransition(s.snapshots[client], command);
    if decision.Success? {
      if PersistTransition(s.db, decision.value, command.actor, outboxId, auditId).Success? {
        TransitionEffect(s.db, decision.value, command.actor, outboxId, auditId);
        var s' := StepTransition(s, s.snapshots[client], command, outboxId, auditId);
        TransitionKeepsInv(s, s', client, command, decision.value, outboxId);
      }
    }
  }

  lemma DecisionAppends(
      transitions: seq<TransitionRow>, accepted: seq<TransitionCommand>,
      snapshot: CaseSnapshot, command: TransitionCommand)
    requires DecisionsMatch(transitions, accepted) && command.Valid() && ApplyTransition(snapshot, command).Success?
    ensures DecisionsMatch(
      transitions + [NewTransitionRow(ApplyTransition(snapshot, command).value.transition, command.actor)],
      accepted + [command])
  {
    var row := NewTransitionRow(ApplyTransition(snapshot, command).value.transition, command.actor);
    assert CaseSnapshot(row.caseId, row.fromState, row.version - 1) == snapshot;
    assert DecidedBy(row, command);
  }

  // ---------------------------------------------------------------- deliver

  lemma LeaseKeepsInv(s: System, token: Token, limit: nat)
    requires Inv(s) && token !in s.tokens
    ensures Inv(StepLease(s, token, limit))
  {
    hide OutboxMirrorsEvents, ReceiptsMatch, DeliveriesMatch, HoldersInformed;
    var batch := Batch(s.db.outbox, s.clock, s.leaseFor, limit);
    var s' := StepLease(s, token, limit);
    LeaseRespectsGuard(s.db.outbox, batch, token, s.clock);
    GuardKeepsMirror(s.db.events, s.db.outbox, s'.db.outbox);
    LeaseKeepsReceipts(s, token, limit);
    LeaseKeepsDeliveries(s, token, limit);
    LeaseKeepsHolders(s, token, limit);
    DeliveryStepFrame(s, s');
  }

  lemma HandoffFrame(s: System, lease: OutboxLease)
    requires lease in s.held
    ensures var s' := StepHandoff(s, lease);
            s' == s.(db := s.db.(inbox := s'.db.inbox), held := s'.held)
  {
  }

  lemma HandoffKeepsInv(s: System, lease: OutboxLease)
    requires Inv(s) && lease in s.held
    ensures Inv(StepHandoff(s, lease))
  {
    hide OutboxMirrorsEvents, ReceiptsMatch, DeliveriesMatch, HoldersInformed, CaseInv, ArtifactInv;
    hide StepHandoff;
    HandoffFrame(s, lease);
    HandoffKeepsReceipts(s, lease);
    HandoffKeepsHolders(s, lease);
    DeliveryStepFrame(s, StepHandoff(s, lease));
  }

  lemma SettlementKeepsMirror(events: EventTable, outbox: OutboxTable, lease: OutboxLease, at: Time, errorCode: string)
    requires OutboxMirrorsEvents(events, outbox) && Holds(outbox, lease)
    ensures OutboxMirrorsEvents(events, MarkPublished(outbox, lease, at).value)
    ensures OutboxMirrorsEvents(events, ScheduleRetry(outbox, lease, at, errorCode).value)
  {
    SettlementRespectsGuard(outbox, lease, at, errorCode);
    GuardKeepsMirror(events, outbox, MarkPublished(outbox, lease, at).value);
    GuardKeepsMirror(events, outbox, ScheduleRetry(outbox, lease, at, errorCode).value);
  }

  lemma PublishKeepsDelivery(s: System, lease: OutboxLease)
    requires DeliveryInv(s) && lease in s.held && s.held[lease].handedOff
    ensures DeliveryInv(StepPublish(s, lease))
  {
    hide OutboxMirrorsEvents, ReceiptsMatch, DeliveriesMatch, HoldersInformed;
    PublishKeepsDeliveries(s, lease);
    PublishKeepsReceipts(s, lease);
    SettleKeepsHolders(s, StepPublish(s, lease), lease, s.clock, "");
    if Holds(s.db.outbox, lease) {
      SettlementKeepsMirror(s.db.events, s.db.outbox, lease, s.clock, "");
    }
  }

  lemma RetryKeepsDelivery(s: System, lease: OutboxLease, delay: Time, errorCode: string)
    requires DeliveryInv(s)
    ensures DeliveryInv(StepRetry(s, lease, delay, errorCode))
  {
    hide OutboxMirrorsEvents, ReceiptsMatch, DeliveriesMatch, HoldersInformed;
    RetryKeepsDeliveries(s, lease, delay, errorCode);
    RetryKeepsReceipts(s, lease, delay, errorCode);
    SettleKeepsHolders(s, StepRetry(s, lease, delay, errorCode), lease, s.clock + delay, errorCode);
    if Holds(s.db.outbox, lease) {
      SettlementKeepsMirror(s.db.events, s.db.outbox, lease, s.clock + delay, errorCode);
    }
  }

  lemma CrashKeepsInv(s: System, lost: set<OutboxLease>)
    requires Inv(s)
    ensures Inv(s.(held := s.held - lost))
  {
  }

  lemma TickKeepsInv(s: System, now: Time)
    requires Inv(s)
    ensures Inv(s.(clock := now))
  {
  }

  // ---------------------------------------------------------------- artifacts

  lemma DeclareKeepsInv(s: System, intent: UploadIntent, auditId: Uuid)
    requires Inv(s) && !intent.Completed() && DeclareUpload(s.db, intent, auditId).Success?
    ensures Inv(s.(db := DeclareUpload(s.db, intent, auditId).value))
  {
    DeclareEffect(s.db, intent, auditId);
    DeclareKeepsIntents(s.db.intents, s.db.artifacts, intent);
  }

  lemma CompleteKeepsArtifacts(
      s: System, s': System, intent: UploadIntent, key: string, now: Time, ids: CompletionIds, event: EventRow)
    requires ArtifactInv(s) && intent.id in s.db.intents && s.db.intents[intent.id] == intent && !intent.Completed()
    requires CompletionWrites(s.db, s'.db, intent, key, now, ids, event)
    ensures ArtifactInv(s')
  {
    var artifact := ArtifactOf(intent, key, now);
    CompletionKeepsIntents(s.db.intents, s.db.artifacts, intent, key, now);
    CompletionKeepsLedger(s.db.artifacts, s.db.ledger, artifact, QuarantinedRow(intent, ids.ledgerId, now));
    CompletionKeepsAnnouncements(s.db.artifacts, artifact, s.db.events, s'.db.events, event);
  }

  lemma CompleteKeepsCases(
      s: System, s': System, intent: UploadIntent, key: string, now: Time, ids: CompletionIds, event: EventRow)
    requires CaseInv(s) && CompletionWrites(s.db, s'.db, intent, key, now, ids, event)
    requires s'.accepted == s.accepted && s'.snapshots == s.snapshots
    ensures CaseInv(s')
  {
    hide ProjectionsReplay, DecisionsMatch, SnapshotsSound, CreationEvents, TransitionEvents, OtherEvents;
    OtherEventKeepsCreations(s.db.cases, s'.db.cases, s.db.events, s'.db.events, event);
    OtherEventKeepsTransitions(s.db.transitions, s.db.events, s'.db.events, event);
    OtherEventsKept(s.db.events, s'.db.events, event);
  }

  lemma CompleteKeepsInv(s: System, intent: UploadIntent, key: string, now: Time, ids: CompletionIds)
    requires Inv(s) && intent.id in s.db.intents && s.db.intents[intent.id] == intent && !intent.Completed()
    requires WriteCompletion(s.db, intent, key, now, ids).Success?
    ensures Inv(s.(db := WriteCompletion(s.db, intent, key, now, ids).value))
  {
    hide DeliveryInv, CaseInv, ArtifactInv;
    CompletionEffect(s.db, intent, key, now, ids);
    var s' := s.(db := WriteCompletion(s.db, intent, key, now, ids).value);
    var event := CompletionEvent(intent, ids.eventId, s.db.cases[intent.caseId].version, now);
    AddsEventKeepsDelivery(s, s', event, ids.outboxId);
    CompleteKeepsCases(s, s', intent, key, now, ids, event);
    CompleteKeepsArtifacts(s, s', intent, key, now, ids, event);
  }

  lemma StepCompleteKeepsInv(
      s: System, caseId: Uuid, intentId: Uuid, head: Option<ObjectMetadata>, at: Time, ids: CompletionIds)
    requires Inv(s) && Complete(s.db, caseId, intentId, head, at, ids).Success?
    ensures Inv(s.(db := Complete(s.db, caseId, intentId, head, at, ids).value.0))
  {
    hide DeliveryInv, CaseInv;
    hide LedgerMatchesArtifacts, EventsMatchArtifacts;
    var intent := s.db.intents[intentId];
    assert intent.id == intentId;
    hide ArtifactInv, WriteCompletion;
    if !intent.Completed() {
      CompleteKeepsInv(s, intent, head.value.encryptionKey, at, ids);
    }
  }

  lemma LedgerKeepsInv(s: System, row: LedgerRow)
    requires Inv(s) && InsertLedger(s.db, row).Success?
    ensures Inv(s.(db := InsertLedger(s.db, row).value))
  {
    hide OutboxMirrorsEvents, ReceiptsMatch, DeliveriesMatch, HoldersInformed;
    hide ProjectionsReplay, DecisionsMatch, SnapshotsSound, CreationEvents, TransitionEvents, OtherEvents;
    hide IntentsMatchArtifacts, LedgerMatchesArtifacts, EventsMatchArtifacts;
    ProcessingKeepsLedger(s.db.artifacts, s.db.ledger, row);
  }

  lemma ReadKeepsInv(s: System, client: Uuid, caseId: Uuid)
    requires Inv(s) && GetSnapshot(s.db, caseId).Success?
    ensures Inv(s.(snapshots := s.snapshots[client := GetSnapshot(s.db, caseId).value]))
  {
  }

  lemma StepCreateKeepsInv(s: System, c: CreateCaseCommand, outboxId: Uuid, auditId: Uuid)
    requires Inv(s) && CreateCase(s.db, c, outboxId, auditId).Success?
    ensures Inv(s.(db := CreateCase(s.db, c, outboxId, auditId).value.0))
  {
    hide Inv, WriteNewCase;
    if KeyOwners(s.db, c.idempotencyKey) == {} {
      CreateEffect(s.db, c, outboxId, auditId);
      CreateKeepsInv(s, s.(db := CreateCase(s.db, c, outboxId, auditId).value.0), c, outboxId);
    }
  }

  /** Every step of a client or of an artifact process keeps the invariant. */
  lemma WriteStepKeepsInv(s: System, step: Step)
    requires Inv(s) && Enabled(s, step)
    requires step.CreateStep? || step.DeclareStep? || step.CompleteStep? || step.LedgerStep?
    ensures Inv(Next(s, step))
  {
    hide Inv;
    var s' := Next(s, step);
    if s' != s {
      match step
      case CreateStep(c, outboxId, auditId) => StepCreateKeepsInv(s, c, outboxId, auditId);
      case DeclareStep(intent, auditId) => DeclareKeepsInv(s, intent, auditId);
      case CompleteStep(caseId, intentId, head, at, ids) => StepCompleteKeepsInv(s, caseId, intentId, head, at, ids);
      case LedgerStep(row) => LedgerKeepsInv(s, row);
    }
  }

  /** So does every settlement. */
  lemma SettleStepKeepsInv(s: System, step: Step)
    requires Inv(s) && Enabled(s, step) && (step.PublishStep? || step.RetryStep?)
    ensures Inv(Next(s, step))
  {
    hide DeliveryInv, CaseInv, ArtifactInv;
    match step {
      case PublishStep(lease) => PublishKeepsDelivery(s, lease);
      case RetryStep(lease, delay, errorCode) => RetryKeepsDelivery(s, lease, delay, errorCode);
    }
    DeliveryStepFrame(s, Next(s, step));
  }

  /** Every enabled step keeps the invariant. */
  lemma NextKeepsInv(s: System, step: Step)
    requires Inv(s) && Enabled(s, step)
    ensures Inv(Next(s, step))
  {
    hide Inv;
    match step
    case ReadStep(client, caseId) =>
      if GetSnapshot(s.db, caseId).Success? {
        ReadKeepsInv(s, client, caseId);
      }
    case TransitionStep(client, command, outboxId, auditId) =>
      StepTransitionKeepsInv(s, client, command, outboxId, auditId);
    case LeaseStep(token, limit) => LeaseKeepsInv(s, token, limit);
    case HandoffStep(lease) => HandoffKeepsInv(s, lease);
    case PublishStep(_) => SettleStepKeepsInv(s, step);
    case RetryStep(_, _, _) => SettleStepKeepsInv(s, step);
    case CrashStep(lost) => CrashKeepsInv(s, lost);
    case TickStep(now) => TickKeepsInv(s, now);
    case CreateStep(_, _, _) => WriteStepKeepsInv(s, step);
    case DeclareStep(_, _) => WriteStepKeepsInv(s, step);
    case CompleteStep(_, _, _, _, _) => WriteStepKeepsInv(s, step);
    case LedgerStep(_) => WriteStepKeepsInv(s, step);
  }

  /** So does every run. */
  lemma {:induction false} RunKeepsInv(s: System, steps: seq<Step>)
    requires Inv(s) && IsRun(s, steps)
    ensures Inv(Run(s, steps))
    decreases |steps|
  {
    if steps != [] {
      NextKeepsInv(s, steps[0]);
      RunKeepsInv(Next(s, steps[0]), steps[1..]);
    }
  }
}
