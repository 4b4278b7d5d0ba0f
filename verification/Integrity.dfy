/** Referential integrity, unique keys and CHECKs, table by table, in every reachable state. */
module Integrity {
  import opened Base
  import opened CaseDomain
  import opened Tables
  import opened CaseSpine
  import opened Outbox
  import opened Artifacts
  import opened ArtifactLedger
  import opened Machine
  import opened DeliveryInvariants
  import opened DeliveryTheorems

  // ---------------------------------------------------------------- what each table holds

  predicate CasesSound(cases: map<Uuid, CaseRow>) {
    forall c :: c in cases ==> cases[c].id == c && !BtrimEmpty(cases[c].title) && !BtrimEmpty(cases[c].idempotencyKey)
  }

  predicate InputsSound(cases: set<Uuid>, inputs: map<Uuid, InputRow>) {
    forall i :: i in inputs ==>
      && inputs[i].id == i && inputs[i].caseId in cases
      && !BtrimEmpty(inputs[i].input.kind) && IsSha256(inputs[i].input.contentSha256)
  }

  predicate TransitionsSound(cases: set<Uuid>, transitions: seq<TransitionRow>) {
    && (forall t :: 0 <= t < |transitions| ==> transitions[t].caseId in cases && TransitionChecks(transitions[t]))
    && (forall t, u :: 0 <= t < u < |transitions| ==>
          && transitions[t].id != transitions[u].id
          && (transitions[t].caseId != transitions[u].caseId || transitions[t].version != transitions[u].version))
  }

  function Ids(transitions: seq<TransitionRow>): set<Uuid> {
    set t | 0 <= t < |transitions| :: transitions[t].id
  }

  predicate EventsSound(actorRequired: bool, cases: set<Uuid>, transitions: set<Uuid>, events: map<Uuid, EventRow>) {
    && (forall e :: e in events ==>
          && events[e].id == e && events[e].caseId in cases
          && (events[e].transitionId.Some? ==> events[e].transitionId.value in transitions)
          && (actorRequired ==> events[e].actorId.Some?))
    && (forall e, f :: e in events && f in events && e != f ==>
          events[e].transitionId.None? || events[e].transitionId != events[f].transitionId)
  }

  predicate OutboxSound(cases: set<Uuid>, events: set<Uuid>, outbox: OutboxTable) {
    && (forall o :: o in outbox ==> outbox[o].id == o && outbox[o].caseId in cases && outbox[o].caseEventId in events)
    && (forall o, p :: o in outbox && p in outbox && o != p ==> outbox[o].caseEventId != outbox[p].caseEventId)
  }

  predicate AuditSound(audit: seq<AuditRow>) {
    forall i, j :: 0 <= i < j < |audit| ==> audit[i].id != audit[j].id
  }

  predicate IntentsSound(cases: set<Uuid>, intents: map<Uuid, UploadIntent>) {
    && (forall i :: i in intents ==>
          && intents[i].id == i && intents[i].caseId in cases
          && intents[i].classification == Raw && IsSha256(intents[i].sha256)
          && 1 <= intents[i].byteSize <= 100 * 1024 * 1024 && intents[i].createdAt <= intents[i].expiresAt)
    && (forall i, j :: i in intents && j in intents && i != j ==> intents[i].artifactId != intents[j].artifactId)
  }

  predicate ArtifactsSound(cases: set<Uuid>, artifacts: map<Uuid, ArtifactRow>) {
    forall a :: a in artifacts ==>
      && artifacts[a].id == a && artifacts[a].caseId in cases
      && IsSha256(artifacts[a].sha256) && artifacts[a].byteSize >= 0
      && !BtrimEmpty(artifacts[a].contentType) && !BtrimEmpty(artifacts[a].encryptionKey)
      && artifacts[a].createdAt <= artifacts[a].retentionUntil
  }

  predicate LedgerSound(artifacts: set<Uuid>, ledger: seq<LedgerRow>) {
    && (forall r :: 0 <= r < |ledger| ==>
          && ledger[r].artifactId in artifacts && ledger[r].attempt >= 1
          && (ledger[r].failureCode.Some? <==> ledger[r].state == Failed))
    && (forall r, q :: 0 <= r < q < |ledger| ==> ledger[r].id != ledger[q].id)
  }

  /** Every row refers to rows that exist, shares no unique key, and passes its CHECKs. */
  predicate Sound(db: Db) {
    && CasesSound(db.cases)
    && InputsSound(db.cases.Keys, db.inputs)
    && TransitionsSound(db.cases.Keys, db.transitions)
    && EventsSound(db.eventActorRequired, db.cases.Keys, Ids(db.transitions), db.events)
    && OutboxSound(db.cases.Keys, db.events.Keys, db.outbox)
    && AuditSound(db.audit)
    && IntentsSound(db.cases.Keys, db.intents)
    && ArtifactsSound(db.cases.Keys, db.artifacts)
    && LedgerSound(db.artifacts.Keys, db.ledger)
  }

  /** A digest is 64 lower-case hexadecimal digits. */
  lemma Sha256Iff(s: string)
    ensures IsSha256(s) <==> |s| == 64 && forall i :: 0 <= i < |s| ==> s[i] in "0123456789abcdef"
  {
    forall i | 0 <= i < |s|
      ensures s[i] in "0123456789abcdef" <==> '0' <= s[i] <= '9' || 'a' <= s[i] <= 'f'
    {
      HexDigit(s[i]);
    }
  }

  lemma HexDigit(c: char)
    ensures c in "0123456789abcdef" <==> '0' <= c <= '9' || 'a' <= c <= 'f'
  {
    var hex := "0123456789abcdef";
    if '0' <= c <= '9' {
      assert hex[c as int - 48] == c;
    } else if 'a' <= c <= 'f' {
      assert hex[c as int - 87] == c;
    }
  }

  // ---------------------------------------------------------------- one statement each

  lemma CaseInsertSound(db: Db, row: CaseRow)
    requires Sound(db) && InsertCase(db, row).Success?
    ensures Sound(InsertCase(db, row).value)
  {
    hide TransitionChecks, BtrimEmpty, IsSha256, CasesSound, InputsSound, TransitionsSound, EventsSound, OutboxSound,
      IntentsSound, ArtifactsSound;
    var db' := InsertCase(db, row).value;
    assert db.cases.Keys <= db'.cases.Keys;
    NewCaseSound(db.cases, row);
    MoreCases(db, db'.cases.Keys);
  }

  lemma NewCaseSound(cases: map<Uuid, CaseRow>, row: CaseRow)
    requires CasesSound(cases) && CaseChecks(row)
    ensures CasesSound(cases[row.id := row])
  {
    hide BtrimEmpty;
  }

  lemma MoreCases(db: Db, cases: set<Uuid>)
    requires Sound(db) && db.cases.Keys <= cases
    ensures InputsSound(cases, db.inputs) && TransitionsSound(cases, db.transitions)
    ensures EventsSound(db.eventActorRequired, cases, Ids(db.transitions), db.events)
    ensures OutboxSound(cases, db.events.Keys, db.outbox)
    ensures IntentsSound(cases, db.intents) && ArtifactsSound(cases, db.artifacts)
  {
    hide TransitionChecks, BtrimEmpty, IsSha256, CasesSound, AuditSound, LedgerSound;
  }

  lemma InputInsertSound(db: Db, row: InputRow)
    requires Sound(db) && InsertInput(db, row).Success?
    ensures Sound(InsertInput(db, row).value)
  {
    hide BtrimEmpty, IsSha256, CasesSound, TransitionsSound, EventsSound, OutboxSound, IntentsSound, ArtifactsSound,
      AuditSound, LedgerSound;
  }

  lemma TransitionInsertSound(db: Db, row: TransitionRow)
    requires Sound(db) && InsertTransition(db, row).Success?
    ensures Sound(InsertTransition(db, row).value)
  {
    hide TransitionChecks, CasesSound, InputsSound, EventsSound, OutboxSound, IntentsSound, ArtifactsSound, AuditSound,
      LedgerSound;
    var ids, ids' := Ids(db.transitions), Ids(db.transitions + [row]);
    assert forall t :: 0 <= t < |db.transitions| ==> (db.transitions + [row])[t] == db.transitions[t];
    MoreTransitions(db, ids');
  }

  lemma MoreTransitions(db: Db, ids: set<Uuid>)
    requires EventsSound(db.eventActorRequired, db.cases.Keys, Ids(db.transitions), db.events)
    requires Ids(db.transitions) <= ids
    ensures EventsSound(db.eventActorRequired, db.cases.Keys, ids, db.events)
  {
    hide Ids;
  }

  lemma EventInsertSound(db: Db, row: EventRow)
    requires Sound(db) && InsertEvent(db, row).Success?
    ensures Sound(InsertEvent(db, row).value)
  {
    hide CasesSound, InputsSound, TransitionsSound, EventsSound, OutboxSound, IntentsSound, ArtifactsSound, AuditSound,
      LedgerSound, Ids, EventInsertable;
    NewEventSound(db, row);
    MoreEvents(db, db.events.Keys + {row.id});
    assert db.events[row.id := row].Keys == db.events.Keys + {row.id};
  }

  lemma NewEventSound(db: Db, row: EventRow)
    requires EventsSound(db.eventActorRequired, db.cases.Keys, Ids(db.transitions), db.events)
    requires EventInsertable(db, row)
    ensures EventsSound(db.eventActorRequired, db.cases.Keys, Ids(db.transitions), db.events[row.id := row])
  {
  }

  lemma MoreEvents(db: Db, events: set<Uuid>)
    requires OutboxSound(db.cases.Keys, db.events.Keys, db.outbox) && db.events.Keys <= events
    ensures OutboxSound(db.cases.Keys, events, db.outbox)
  {
  }

  lemma OutboxInsertSound(db: Db, row: OutboxRow)
    requires Sound(db) && InsertOutbox(db, row).Success?
    ensures Sound(InsertOutbox(db, row).value)
  {
    hide CasesSound, InputsSound, TransitionsSound, EventsSound, IntentsSound, ArtifactsSound, AuditSound,
      LedgerSound, Ids;
  }

  lemma AuditInsertSound(db: Db, row: AuditRow)
    requires Sound(db) && InsertAudit(db, row).Success?
    ensures Sound(InsertAudit(db, row).value)
  {
    hide CasesSound, InputsSound, TransitionsSound, EventsSound, OutboxSound, IntentsSound, ArtifactsSound,
      LedgerSound, Ids;
  }

  lemma IntentInsertSound(db: Db, row: UploadIntent)
    requires Sound(db) && InsertIntent(db, row).Success?
    ensures Sound(InsertIntent(db, row).value)
  {
    hide CasesSound, InputsSound, TransitionsSound, EventsSound, OutboxSound, ArtifactsSound, AuditSound,
      LedgerSound, Ids,
      IsSha256;
  }

  lemma ArtifactInsertSound(db: Db, row: ArtifactRow)
    requires Sound(db) && InsertArtifact(db, row).Success?
    ensures Sound(InsertArtifact(db, row).value)
  {
    hide CasesSound, InputsSound, TransitionsSound, EventsSound, OutboxSound, IntentsSound, AuditSound, ArtifactsSound,
      LedgerSound, Ids, ArtifactChecks;
    NewArtifactSound(db.cases.Keys, db.artifacts, row);
    MoreArtifacts(db, db.artifacts.Keys + {row.id});
    assert db.artifacts[row.id := row].Keys == db.artifacts.Keys + {row.id};
  }

  lemma NewArtifactSound(cases: set<Uuid>, artifacts: map<Uuid, ArtifactRow>, row: ArtifactRow)
    requires ArtifactsSound(cases, artifacts) && ArtifactChecks(row) && row.caseId in cases
    ensures ArtifactsSound(cases, artifacts[row.id := row])
  {
    hide BtrimEmpty, IsSha256;
  }

  lemma MoreArtifacts(db: Db, artifacts: set<Uuid>)
    requires LedgerSound(db.artifacts.Keys, db.ledger) && db.artifacts.Keys <= artifacts
    ensures LedgerSound(artifacts, db.ledger)
  {
  }

  lemma LedgerInsertSound(db: Db, row: LedgerRow)
    requires Sound(db) && InsertLedger(db, row).Success?
    ensures Sound(InsertLedger(db, row).value)
  {
    hide CasesSound, InputsSound, TransitionsSound, EventsSound, OutboxSound, IntentsSound, ArtifactsSound,
      AuditSound, Ids,
      TriggerAccepts;
  }

  lemma EventAndOutboxSound(db: Db, event: EventRow, outboxId: Uuid)
    requires Sound(db) && InsertEventAndOutbox(db, event, outboxId).Success?
    ensures Sound(InsertEventAndOutbox(db, event, outboxId).value)
  {
    hide Sound, EventInsertable, OutboxInsertable, NewOutboxRow;
    EventInsertSound(db, event);
    OutboxInsertSound(InsertEvent(db, event).value, NewOutboxRow(outboxId, event));
  }

  lemma CaseUpdateSound(db: Db, id: Uuid, row: CaseRow)
    requires Sound(db) && id in db.cases
    requires row.id == db.cases[id].id && row.title == db.cases[id].title
    requires row.idempotencyKey == db.cases[id].idempotencyKey
    ensures Sound(db.(cases := db.cases[id := row]))
  {
    hide BtrimEmpty, InputsSound, TransitionsSound, EventsSound, OutboxSound, IntentsSound, ArtifactsSound, AuditSound,
      LedgerSound, Ids;
    assert db.cases[id := row].Keys == db.cases.Keys;
  }

  lemma IntentUpdateSound(db: Db, intent: UploadIntent, completedAt: Option<Time>)
    requires Sound(db) && intent.id in db.intents && db.intents[intent.id] == intent
    ensures Sound(db.(intents := db.intents[intent.id := intent.(completedAt := completedAt)]))
  {
    hide CasesSound, InputsSound, TransitionsSound, EventsSound, OutboxSound, ArtifactsSound, AuditSound,
      LedgerSound, Ids,
      IsSha256;
  }

  lemma OutboxUpdateSound(db: Db, outbox: OutboxTable)
    requires Sound(db) && GuardAllows(db.outbox, outbox)
    ensures Sound(db.(outbox := outbox))
  {
    hide CasesSound, InputsSound, TransitionsSound, EventsSound, IntentsSound, ArtifactsSound, AuditSound,
      LedgerSound, Ids;
    forall o | o in outbox
      ensures outbox[o].id == db.outbox[o].id && outbox[o].caseId == db.outbox[o].caseId
      ensures outbox[o].caseEventId == db.outbox[o].caseEventId
    {
      assert OutboxMutationAllowed(db.outbox[o], outbox[o]);
    }
  }

  // ---------------------------------------------------------------- the repository calls

  lemma NewCaseWritesSound(db: Db, c: CreateCaseCommand, outboxId: Uuid, auditId: Uuid)
    requires Sound(db) && WriteNewCase(db, c, outboxId, auditId).Success?
    ensures Sound(WriteNewCase(db, c, outboxId, auditId).value)
  {
    hide Sound, InsertCase, InsertInput, InsertEventAndOutbox, InsertAudit;
    CaseInsertSound(db, NewCaseRow(c));
    var db1 := InsertCase(db, NewCaseRow(c)).value;
    if c.input.Some? {
      InputInsertSound(db1, InputRow(c.input.value.inputId, c.caseId, c.input.value, c.occurredAt));
    }
    var db2 := WriteCaseRows(db, c).value;
    var event := NewEventRow(CreationEvent(c), None, Some(c.RequestFingerprint()));
    EventAndOutboxSound(db2, event, outboxId);
    AuditInsertSound(InsertEventAndOutbox(db2, event, outboxId).value,
                     AuditRow(auditId, CaseCreatedAudit, c.actor.id, c.correlationId, c.eventId, c.occurredAt));
  }

  lemma TransitionWritesSound(db: Db, outcome: TransitionOutcome, actor: Actor, outboxId: Uuid, auditId: Uuid)
    requires Sound(db) && PersistTransition(db, outcome, actor, outboxId, auditId).Success?
    ensures Sound(PersistTransition(db, outcome, actor, outboxId, auditId).value.0)
  {
    hide Sound, InsertTransition, InsertEventAndOutbox, InsertAudit;
    var id := outcome.snapshot.caseId;
    var db1 := db.(cases := db.cases[id := AdvancedCase(db.cases[id], outcome)]);
    CaseUpdateSound(db, id, AdvancedCase(db.cases[id], outcome));
    var row := NewTransitionRow(outcome.transition, actor);
    TransitionInsertSound(db1, row);
    var db2 := InsertTransition(db1, row).value;
    var event := NewEventRow(outcome.event, Some(outcome.event.transitionId), None);
    EventAndOutboxSound(db2, event, outboxId);
    AuditInsertSound(InsertEventAndOutbox(db2, event, outboxId).value,
                     AuditRow(auditId, CaseTransitionedAudit, actor.id, outcome.event.correlationId,
                              outcome.event.eventId, outcome.event.occurredAt));
  }

  lemma DeclareWritesSound(db: Db, intent: UploadIntent, auditId: Uuid)
    requires Sound(db) && !intent.Completed() && DeclareUpload(db, intent, auditId).Success?
    ensures Sound(DeclareUpload(db, intent, auditId).value)
  {
    hide Sound, InsertIntent, InsertAudit;
    IntentInsertSound(db, intent);
    AuditInsertSound(InsertIntent(db, intent).value,
                     AuditRow(auditId, IntentCreatedAudit, intent.createdBy, intent.correlationId, intent.id,
                              intent.createdAt));
  }

  lemma CompletionWritesSound(
      db: Db, intent: UploadIntent, key: string, now: Time, ids: CompletionIds)
    requires Sound(db) && intent.id in db.intents && db.intents[intent.id] == intent
    requires WriteCompletion(db, intent, key, now, ids).Success?
    ensures Sound(WriteCompletion(db, intent, key, now, ids).value)
  {
    hide Sound, ArtifactInsertable, LedgerInsertable, EventInsertable, OutboxInsertable, AuditInsertable;
    var artifact, row := ArtifactOf(intent, key, now), QuarantinedRow(intent, ids.ledgerId, now);
    ArtifactInsertSound(db, artifact);
    var db1 := InsertArtifact(db, artifact).value;
    LedgerInsertSound(db1, row);
    var db2 := InsertLedger(db1, row).value;
    var event := CompletionEvent(intent, ids.eventId, db2.cases[intent.caseId].version, now);
    EventAndOutboxSound(db2, event, ids.outboxId);
    var db3 := InsertEventAndOutbox(db2, event, ids.outboxId).value;
    IntentUpdateSound(db3, intent, Some(now));
    AuditInsertSound(db3.(intents := db3.intents[intent.id := intent.(completedAt := Some(now))]),
                     AuditRow(ids.auditId, UploadCompletedAudit, intent.createdBy, intent.correlationId, intent.id,
                              now));
  }

  lemma IntentIsKeyed(db: Db, intentId: Uuid)
    requires Sound(db) && intentId in db.intents
    ensures db.intents[intentId].id == intentId
  {
    hide CasesSound, InputsSound, TransitionsSound, EventsSound, OutboxSound, ArtifactsSound, AuditSound,
      LedgerSound, Ids;
  }

  lemma CompletionSound(
      db: Db, caseId: Uuid, intentId: Uuid, head: Option<ObjectMetadata>, at: Time, ids: CompletionIds)
    requires Sound(db) && Complete(db, caseId, intentId, head, at, ids).Success?
    ensures Sound(Complete(db, caseId, intentId, head, at, ids).value.0)
  {
    hide Sound, WriteCompletion, MetadataMatches;
    var intent := db.intents[intentId];
    if !intent.Completed() {
      IntentIsKeyed(db, intentId);
      CompletionWritesSound(db, intent, head.value.encryptionKey, at, ids);
    }
  }

  // ---------------------------------------------------------------- the machine

  lemma InboxOutside(db: Db, inbox: map<InboxKey, Receipt>)
    requires Sound(db)
    ensures Sound(db.(inbox := inbox))
  {
    hide CasesSound, InputsSound, TransitionsSound, EventsSound, OutboxSound, IntentsSound, ArtifactsSound, AuditSound,
      LedgerSound, Ids;
  }

  lemma SettlementSound(s: System, step: Step)
    requires Sound(s.db) && Enabled(s, step) && (step.PublishStep? || step.RetryStep?)
    ensures Sound(Next(s, step).db)
  {
    hide Sound;
    if Next(s, step).db != s.db {
      match step {
        case PublishStep(lease) =>
          SettlementRespectsGuard(s.db.outbox, lease, s.clock, "");
          OutboxUpdateSound(s.db, Next(s, step).db.outbox);
        case RetryStep(lease, delay, errorCode) =>
          SettlementRespectsGuard(s.db.outbox, lease, s.clock + delay, errorCode);
          OutboxUpdateSound(s.db, Next(s, step).db.outbox);
      }
    }
  }

  lemma CreateSound(db: Db, c: CreateCaseCommand, outboxId: Uuid, auditId: Uuid)
    requires Sound(db) && CreateCase(db, c, outboxId, auditId).Success?
    ensures Sound(CreateCase(db, c, outboxId, auditId).value.0)
  {
    hide Sound, WriteNewCase, KeyOwners;
    if KeyOwners(db, c.idempotencyKey) == {} {
      NewCaseWritesSound(db, c, outboxId, auditId);
    }
  }

  lemma TransitionSound(s: System, snapshot: CaseSnapshot, command: TransitionCommand, outboxId: Uuid, auditId: Uuid)
    requires Sound(s.db)
    ensures Sound(StepTransition(s, snapshot, command, outboxId, auditId).db)
  {
    hide Sound, PersistTransition, ApplyTransition;
    var decision := ApplyTransition(snapshot, command);
    if decision.Success? && PersistTransition(s.db, decision.value, command.actor, outboxId, auditId).Success? {
      TransitionWritesSound(s.db, decision.value, command.actor, outboxId, auditId);
    }
  }

  lemma LeaseSound(s: System, token: Token, limit: nat)
    requires Sound(s.db)
    ensures Sound(StepLease(s, token, limit).db)
  {
    hide Sound, Batch;
    var batch := Batch(s.db.outbox, s.clock, s.leaseFor, limit);
    LeaseRespectsGuard(s.db.outbox, batch, token, s.clock);
    OutboxUpdateSound(s.db, StepLease(s, token, limit).db.outbox);
  }

  lemma HandoffSound(s: System, lease: OutboxLease)
    requires Sound(s.db) && lease in s.held
    ensures Sound(StepHandoff(s, lease).db)
  {
    hide Sound;
    InboxOutside(s.db, StepHandoff(s, lease).db.inbox);
  }

  lemma NextSound(s: System, step: Step)
    requires Sound(s.db) && Enabled(s, step)
    ensures Sound(Next(s, step).db)
  {
    hide Sound, CreateCase, StepTransition, StepLease, StepHandoff, DeclareUpload, Complete, InsertLedger;
    match step
    case CreateStep(c, outboxId, auditId) =>
      if CreateCase(s.db, c, outboxId, auditId).Success? {
        CreateSound(s.db, c, outboxId, auditId);
      }
    case TransitionStep(client, command, outboxId, auditId) =>
      TransitionSound(s, s.snapshots[client], command, outboxId, auditId);
    case LeaseStep(token, limit) => LeaseSound(s, token, limit);
    case HandoffStep(lease) => HandoffSound(s, lease);
    case PublishStep(_) => SettlementSound(s, step);
    case RetryStep(_, _, _) => SettlementSound(s, step);
    case DeclareStep(intent, auditId) =>
      if DeclareUpload(s.db, intent, auditId).Success? {
        DeclareWritesSound(s.db, intent, auditId);
      }
    case CompleteStep(caseId, intentId, head, at, ids) =>
      if Complete(s.db, caseId, intentId, head, at, ids).Success? {
        CompletionSound(s.db, caseId, intentId, head, at, ids);
      }
    case LedgerStep(row) =>
      if InsertLedger(s.db, row).Success? {
        LedgerInsertSound(s.db, row);
      }
    case _ =>
  }

  lemma {:induction false} RunSound(s: System, steps: seq<Step>)
    requires Sound(s.db) && IsRun(s, steps)
    ensures Sound(Run(s, steps).db)
    decreases |steps|
  {
    hide Sound, Next, Enabled;
    if steps != [] {
      NextSound(s, steps[0]);
      RunSound(Next(s, steps[0]), steps[1..]);
    }
  }

  lemma EmptySound(required: bool)
    ensures Sound(EmptyDb(required))
  {
  }

  /**
   * In every reachable state no row is an orphan, none shares a unique key with another, and
   * each passes the CHECKs of its table.
   */
  lemma ReachableTablesAreSound(s: System)
    requires DeliveryTheorems.Reachable(s)
    ensures Sound(s.db)
  {
    hide Sound, IsRun, Run;
    var leaseFor: Time, consumer: string, required: bool, clock: Time, steps: seq<Step> :|
      && IsRun(Init(leaseFor, consumer, required, clock), steps)
      && Run(Init(leaseFor, consumer, required, clock), steps) == s;
    EmptySound(required);
    RunSound(Init(leaseFor, consumer, required, clock), steps);
  }
}
