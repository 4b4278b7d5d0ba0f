/**
 * Clients and publisher workers over the tables, as one step machine. Every step is one
 * committed transaction (or a local action of a process), and steps interleave freely:
 * a run is any sequence of enabled steps. A step whose transaction fails changes no table.
 */
module Machine {
  import opened Base
  import opened CaseDomain
  import opened Tables
  import opened CaseSpine
  import opened Outbox
  import opened ArtifactLedger
  import opened Artifacts

  /** What one worker remembers of a row that it leased. */
  datatype Held = Held(eventId: Uuid, payload: Payload, handedOff: bool)

  /** The committed delivery actions, in commit order. */
  datatype Delivery =
    | Leased(outboxId: Uuid, token: Token)
    | Retried(outboxId: Uuid, token: Token)
    | Published(outboxId: Uuid, token: Token)

  /**
   * `snapshots` are the reads that clients hold, `held` the leases that live workers hold.
   * `tokens`, `log` and `accepted` are history: the lease tokens drawn, the deliveries
   * committed, and the command behind each row of case_transitions.
   */
  datatype System = System(
    leaseFor: Time,
    consumer: string,
    db: Db,
    clock: Time,
    snapshots: map<Uuid, CaseSnapshot>,
    held: map<OutboxLease, Held>,
    tokens: set<Token>,
    log: seq<Delivery>,
    accepted: seq<TransitionCommand>)

  function Init(leaseFor: Time, consumer: string, eventActorRequired: bool, clock: Time): System {
    System(leaseFor, consumer, EmptyDb(eventActorRequired), clock, map[], map[], {}, [], [])
  }

  datatype Step =
    | CreateStep(create: CreateCaseCommand, outboxId: Uuid, auditId: Uuid)
    | ReadStep(client: Uuid, caseId: Uuid)
    | TransitionStep(client: Uuid, command: TransitionCommand, outboxId: Uuid, auditId: Uuid)
    | LeaseStep(token: Token, limit: nat)
    | HandoffStep(lease: OutboxLease)
    | PublishStep(lease: OutboxLease)
    | RetryStep(lease: OutboxLease, delay: Time, errorCode: string)
    | CrashStep(lost: set<OutboxLease>)
    | TickStep(now: Time)
    | DeclareStep(intent: UploadIntent, auditId: Uuid)
    | CompleteStep(caseId: Uuid, intentId: Uuid, head: Option<ObjectMetadata>, at: Time, ids: CompletionIds)
    | LedgerStep(row: LedgerRow)

  /** A retry needs no successful handoff; an acknowledgement does. Lease tokens are fresh. */
  predicate Enabled(s: System, step: Step) {
    match step
    case CreateStep(c, _, _) => c.Valid()
    case ReadStep(_, _) => true
    case TransitionStep(client, command, _, _) => client in s.snapshots && command.Valid()
    case LeaseStep(token, limit) => token !in s.tokens && 1 <= limit <= 100
    case HandoffStep(lease) => lease in s.held
    case PublishStep(lease) => lease in s.held && s.held[lease].handedOff
    case RetryStep(lease, delay, _) => lease in s.held && delay > 0
    case CrashStep(_) => true
    case TickStep(now) => s.clock <= now
    case DeclareStep(intent, _) => !intent.Completed()
    case CompleteStep(_, _, _, _, _) => true
    case LedgerStep(_) => true
  }

  function LeaseEntries(batch: seq<Uuid>, token: Token): seq<Delivery> {
    seq(|batch|, i requires 0 <= i < |batch| => Leased(batch[i], token))
  }

  function HeldBatch(outbox: OutboxTable, batch: seq<Uuid>, token: Token): map<OutboxLease, Held>
    requires forall i :: 0 <= i < |batch| ==> batch[i] in outbox
  {
    map o | o in batch :: OutboxLease(o, token) := Held(outbox[o].caseEventId, outbox[o].payload, false)
  }

  function StepTransition(s: System, snapshot: CaseSnapshot, command: TransitionCommand, outboxId: Uuid, auditId: Uuid)
    : System
  {
    var decision := ApplyTransition(snapshot, command);
    if decision.Failure? then s
    else
      var w := PersistTransition(s.db, decision.value, command.actor, outboxId, auditId);
      if w.Failure? then s
      else s.(db := w.value.0, accepted := s.accepted + [command])
  }

  function StepLease(s: System, token: Token, limit: nat): System {
    var batch := Batch(s.db.outbox, s.clock, s.leaseFor, limit);
    s.(db := s.db.(outbox := LeaseAvailable(s.db.outbox, batch, token, s.clock)),
       held := s.held + HeldBatch(s.db.outbox, batch, token),
       tokens := s.tokens + {token},
       log := s.log + LeaseEntries(batch, token))
  }

  function HandoffKey(s: System, lease: OutboxLease): InboxKey
    requires lease in s.held
  {
    InboxKey(s.consumer, s.held[lease].eventId)
  }

  function StepHandoff(s: System, lease: OutboxLease): System
    requires lease in s.held
  {
    var h := s.held[lease];
    var (inbox, outcome) := RecordOnce(s.db.inbox, HandoffKey(s, lease), h.payload, s.clock);
    if outcome.PayloadMismatch? then s
    else s.(db := s.db.(inbox := inbox), held := s.held[lease := h.(handedOff := true)])
  }

  function StepPublish(s: System, lease: OutboxLease): System {
    var outbox := MarkPublished(s.db.outbox, lease, s.clock);
    var s' := s.(held := s.held - {lease});
    if outbox.None? then s'
    else s'.(db := s.db.(outbox := outbox.value), log := s.log + [Published(lease.outboxId, lease.token)])
  }

  function StepRetry(s: System, lease: OutboxLease, delay: Time, errorCode: string): System {
    var outbox := ScheduleRetry(s.db.outbox, lease, s.clock + delay, errorCode);
    var s' := s.(held := s.held - {lease});
    if outbox.None? then s'
    else s'.(db := s.db.(outbox := outbox.value), log := s.log + [Retried(lease.outboxId, lease.token)])
  }

  function Next(s: System, step: Step): System
    requires Enabled(s, step)
  {
    match step
    case CreateStep(c, outboxId, auditId) =>
      var w := CreateCase(s.db, c, outboxId, auditId);
      if w.Failure? then s else s.(db := w.value.0)
    case ReadStep(client, caseId) =>
      var read := GetSnapshot(s.db, caseId);
      if read.Failure? then s else s.(snapshots := s.snapshots[client := read.value])
    case TransitionStep(client, command, outboxId, auditId) =>
      StepTransition(s, s.snapshots[client], command, outboxId, auditId)
    case LeaseStep(token, limit) => StepLease(s, token, limit)
    case HandoffStep(lease) => StepHandoff(s, lease)
    case PublishStep(lease) => StepPublish(s, lease)
    case RetryStep(lease, delay, errorCode) => StepRetry(s, lease, delay, errorCode)
    case CrashStep(lost) => s.(held := s.held - lost)
    case TickStep(now) => s.(clock := now)
    case DeclareStep(intent, auditId) =>
      var w := DeclareUpload(s.db, intent, auditId);
      if w.Failure? then s else s.(db := w.value)
    case CompleteStep(caseId, intentId, head, at, ids) =>
      var w := Complete(s.db, caseId, intentId, head, at, ids);
      if w.Failure? then s else s.(db := w.value.0)
    case LedgerStep(row) =>
      var w := InsertLedger(s.db, row);
      if w.Failure? then s else s.(db := w.value)
  }

  /** A run: every step is enabled when it is taken. */
  predicate IsRun(s: System, steps: seq<Step>)
    decreases |steps|
  {
    steps == [] || (Enabled(s, steps[0]) && IsRun(Next(s, steps[0]), steps[1..]))
  }

  function Run(s: System, steps: seq<Step>): System
    requires IsRun(s, steps)
    decreases |steps|
  {
    if steps == [] then s else Run(Next(s, steps[0]), steps[1..])
  }

  lemma {:induction false} RunConcat(s: System, first: seq<Step>, second: seq<Step>)
    requires IsRun(s, first) && IsRun(Run(s, first), second)
    ensures IsRun(s, first + second)
    ensures Run(s, first + second) == Run(Run(s, first), second)
    decreases |first|
  {
    hide Next, Enabled;
    if first == [] {
      assert first + second == second;
    } else {
      RunConcat(Next(s, first[0]), first[1..], second);
      assert (first + second)[1..] == first[1..] + second;
    }
  }
}
