/**
 * The publisher worker (services/worker/netops_worker/outbox_publisher.py and
 * outbox_transport.py) as a process that runs beside any others: each of its transactions
 * is a step of the machine, and arbitrary enabled steps of other processes happen between them.
 */
module Publisher {
  import opened Base
  import opened CaseDomain
  import opened Tables
  import opened CaseSpine
  import opened Outbox
  import opened Artifacts
  import opened Machine
  import opened Invariants
  import opened History
  import opened DeliveryInvariants
  import opened Repositories

  // ---------------------------------------------------------------- the other processes

  /** A step that neither uses nor drops a lease taken with this token. */
  predicate Foreign(step: Step, token: Token) {
    match step
    case HandoffStep(lease) => lease.token != token
    case PublishStep(lease) => lease.token != token
    case RetryStep(lease, _, _) => lease.token != token
    case CrashStep(lost) => forall l :: l in lost ==> l.token != token
    case LeaseStep(other, _) => other != token
    case _ => true
  }

  /** The steps of a schedule that other processes can take. */
  function OthersSteps(s: System, schedule: seq<Step>, token: Token): seq<Step>
    decreases |schedule|
  {
    if schedule == [] then []
    else if Enabled(s, schedule[0]) && Foreign(schedule[0], token)
    then [schedule[0]] + OthersSteps(Next(s, schedule[0]), schedule[1..], token)
    else OthersSteps(s, schedule[1..], token)
  }

  function PublishedBy(log: seq<Delivery>, token: Token): nat {
    if log == [] then 0
    else PublishedBy(log[..|log| - 1], token)
         + (if log[|log| - 1].Published? && log[|log| - 1].token == token then 1 else 0)
  }

  function RetriedBy(log: seq<Delivery>, token: Token): nat {
    if log == [] then 0
    else RetriedBy(log[..|log| - 1], token)
         + (if log[|log| - 1].Retried? && log[|log| - 1].token == token then 1 else 0)
  }

  /** What another process leaves of this worker: its leases and its settlements. */
  ghost predicate LeavesAlone(s: System, s': System, token: Token) {
    && (forall l :: l in s.held && l.token == token ==> l in s'.held && s'.held[l] == s.held[l])
    && PublishedBy(s'.log, token) == PublishedBy(s.log, token)
    && RetriedBy(s'.log, token) == RetriedBy(s.log, token)
    && s.tokens <= s'.tokens
    && s'.leaseFor == s.leaseFor && s'.consumer == s.consumer
  }

  lemma {:induction false} ForeignEntries(log: seq<Delivery>, more: seq<Delivery>, token: Token)
    requires forall i :: 0 <= i < |more| ==> more[i].token != token || more[i].Leased?
    ensures PublishedBy(log + more, token) == PublishedBy(log, token)
    ensures RetriedBy(log + more, token) == RetriedBy(log, token)
  {
    if more == [] {
      assert log + more == log;
    } else {
      var n := |more| - 1;
      ForeignEntries(log, more[..n], token);
      assert (log + more)[..|log| + n] == log + more[..n];
      assert (log + more)[|log| + n] == more[n];
    }
  }

  lemma OneMoreEntry(log: seq<Delivery>, d: Delivery, token: Token)
    ensures PublishedBy(log + [d], token)
            == PublishedBy(log, token) + (if d.Published? && d.token == token then 1 else 0)
    ensures RetriedBy(log + [d], token) == RetriedBy(log, token) + (if d.Retried? && d.token == token then 1 else 0)
  {
    assert (log + [d])[..|log|] == log;
  }

  lemma ForeignLeaseLeavesAlone(s: System, other: Token, limit: nat, token: Token)
    requires other != token
    ensures LeavesAlone(s, StepLease(s, other, limit), token)
  {
    hide Batch;
    var batch := Batch(s.db.outbox, s.clock, s.leaseFor, limit);
    ForeignEntries(s.log, LeaseEntries(batch, other), token);
  }

  lemma ForeignSettlementLeavesAlone(s: System, step: Step, token: Token)
    requires Enabled(s, step) && Foreign(step, token)
    requires step.PublishStep? || step.RetryStep?
    ensures LeavesAlone(s, Next(s, step), token)
  {
    OneMoreEntry(s.log, Published(step.lease.outboxId, step.lease.token), token);
    OneMoreEntry(s.log, Retried(step.lease.outboxId, step.lease.token), token);
  }

  lemma ForeignHandoffLeavesAlone(s: System, lease: OutboxLease, token: Token)
    requires lease in s.held && lease.token != token
    ensures LeavesAlone(s, StepHandoff(s, lease), token)
  {
  }

  lemma ForeignStepLeavesAlone(s: System, step: Step, token: Token)
    requires Enabled(s, step) && Foreign(step, token)
    ensures LeavesAlone(s, Next(s, step), token)
  {
    hide LeavesAlone;
    match step
    case LeaseStep(other, limit) => ForeignLeaseLeavesAlone(s, other, limit, token);
    case HandoffStep(lease) => ForeignHandoffLeavesAlone(s, lease, token);
    case PublishStep(_) => ForeignSettlementLeavesAlone(s, step, token);
    case RetryStep(_, _, _) => ForeignSettlementLeavesAlone(s, step, token);
    case _ => OtherStepLeavesAlone(s, step, token);
  }

  lemma OtherStepLeavesAlone(s: System, step: Step, token: Token)
    requires Enabled(s, step) && Foreign(step, token)
    requires !step.LeaseStep? && !step.HandoffStep? && !step.PublishStep? && !step.RetryStep?
    ensures LeavesAlone(s, Next(s, step), token)
  {
    hide PublishedBy, RetriedBy, CreateCase, ApplyTransition, PersistTransition, DeclareUpload, Complete, InsertLedger;
    var s' := Next(s, step);
    assert s'.log == s.log && s'.tokens == s.tokens && s'.leaseFor == s.leaseFor && s'.consumer == s.consumer;
    assert forall l :: l in s.held && l.token == token ==> l in s'.held && s'.held[l] == s.held[l];
  }

  /** Whatever the others do, they do it as a run, and they leave this worker's leases alone. */
  lemma {:induction false} OthersRun(s: System, schedule: seq<Step>, token: Token)
    ensures IsRun(s, OthersSteps(s, schedule, token))
    ensures LeavesAlone(s, Run(s, OthersSteps(s, schedule, token)), token)
    decreases |schedule|
  {
    hide Next, Enabled, Foreign;
    if schedule != [] {
      if Enabled(s, schedule[0]) && Foreign(schedule[0], token) {
        var mid := Next(s, schedule[0]);
        ForeignStepLeavesAlone(s, schedule[0], token);
        OthersRun(mid, schedule[1..], token);
        hide PublishedBy, RetriedBy;
        var rest := OthersSteps(mid, schedule[1..], token);
        assert ([schedule[0]] + rest)[1..] == rest;
      } else {
        OthersRun(s, schedule[1..], token);
      }
    }
  }

  // ---------------------------------------------------------------- the worker's leases

  /** The consumer name is usable: stripped, and neither blank nor too long. */
  predicate ConsumerUsable(consumer: string) {
    !Blank(consumer) && |consumer| <= 255 && Strip(consumer) == consumer
  }

  ghost predicate HeldFor(held: map<OutboxLease, Held>, event: LeasedOutboxEvent) {
    && event.lease in held
    && held[event.lease].eventId == event.caseEventId
    && held[event.lease].payload == event.payload
  }

  /** The worker still remembers its leases from position `from` of the batch on. */
  ghost predicate StillHeld(held: map<OutboxLease, Held>, events: seq<LeasedOutboxEvent>, from: nat, token: Token) {
    && (forall i :: 0 <= i < |events| ==> events[i].lease.token == token)
    && (forall i, j :: 0 <= i < j < |events| ==> events[i].lease != events[j].lease)
    && forall i :: from <= i < |events| ==> HeldFor(held, events[i])
  }

  lemma StillHeldHere(held: map<OutboxLease, Held>, events: seq<LeasedOutboxEvent>, i: nat, token: Token)
    requires i < |events| && StillHeld(held, events, i, token)
    ensures HeldFor(held, events[i]) && events[i].lease.token == token
  {
  }

  /** The lease in hand may be marked or dropped; the later ones stay. */
  lemma StillHeldNext(
      held: map<OutboxLease, Held>, held': map<OutboxLease, Held>, events: seq<LeasedOutboxEvent>, i: nat, token: Token)
    requires i < |events| && StillHeld(held, events, i, token)
    requires forall l :: l in held && l != events[i].lease ==> l in held' && held'[l] == held[l]
    ensures StillHeld(held', events, i + 1, token)
    ensures HeldFor(held', events[i]) ==> StillHeld(held', events, i, token)
  {
  }

  ghost predicate HasReceipt(s: System, event: LeasedOutboxEvent) {
    var k := InboxKey(s.consumer, event.caseEventId);
    k in s.db.inbox && s.db.inbox[k].payload == event.payload
  }

  lemma LeasedAreHeld(
      held: map<OutboxLease, Held>, outbox: OutboxTable, batch: seq<Uuid>, token: Token, now: Time,
      events: seq<LeasedOutboxEvent>)
    requires forall i :: 0 <= i < |batch| ==> batch[i] in outbox
    requires forall i, j :: 0 <= i < j < |batch| ==> batch[i] != batch[j]
    requires |events| == |batch|
    requires forall i :: 0 <= i < |batch| ==> events[i] == LeasedEvent(batch[i], outbox[batch[i]], token, now)
    ensures StillHeld(held + HeldBatch(outbox, batch, token), events, 0, token)
  {
    forall i | 0 <= i < |events|
      ensures HeldFor(held + HeldBatch(outbox, batch, token), events[i])
    {
      assert batch[i] in batch;
    }
  }

  // ---------------------------------------------------------------- the shared deployment

  /** The database, the clock, and what the live processes remember. */
  class Deployment {
    const database: Database
    const leaseFor: Time
    const consumer: string
    var clock: Time
    var snapshots: map<Uuid, CaseSnapshot>
    var held: map<OutboxLease, Held>
    var tokens: set<Token>
    var log: seq<Delivery>
    var accepted: seq<TransitionCommand>

    /** The transport strips the consumer name that it is configured with. */
    constructor (database: Database, leaseFor: Time, consumerName: string, clock: Time)
      requires !Blank(consumerName) && |consumerName| <= 255 && leaseFor > 0
      requires database.Contents() == EmptyDb(database.eventActorRequired)
      ensures this.database == database
      ensures Sys() == Init(leaseFor, Strip(consumerName), database.eventActorRequired, clock)
      ensures ConsumerUsable(consumer) && Inv(Sys())
    {
      StripNonBlank(consumerName);
      StripIdempotent(consumerName);
      InitInv(leaseFor, Strip(consumerName), database.eventActorRequired, clock);
      hide Inv, Strip;
      this.database := database;
      this.leaseFor := leaseFor;
      this.consumer := Strip(consumerName);
      this.clock := clock;
      snapshots, held, tokens, log, accepted := map[], map[], {}, [], [];
    }

    function Sys(): System
      reads this, database
    {
      System(leaseFor, consumer, database.Contents(), clock, snapshots, held, tokens, log, accepted)
    }

    /** Between two transactions of this worker, the others take any steps they can. */
    method Interfere(schedule: seq<Step>, token: Token) returns (ghost taken: seq<Step>)
      modifies this, database
      ensures taken == OthersSteps(old(Sys()), schedule, token)
      ensures IsRun(old(Sys()), taken) && Sys() == Run(old(Sys()), taken)
      ensures LeavesAlone(old(Sys()), Sys(), token)
    {
      var s := Sys();
      taken := OthersSteps(s, schedule, token);
      OthersRun(s, schedule, token);
      ConfigurationKept(s, taken);
      var s' := Run(s, OthersSteps(s, schedule, token));
      database.Install(s'.db);
      clock, snapshots, held := s'.clock, s'.snapshots, s'.held;
      tokens, log, accepted := s'.tokens, s'.log, s'.accepted;
    }

    /** The leasing transaction. */
    method Lease(token: Token, limit: int) returns (events: seq<LeasedOutboxEvent>)
      requires token !in tokens && !Blank(token.workerId) && |token.workerId| <= 200
      requires 1 <= limit <= 100 && leaseFor > 0
      modifies this, database`outbox
      ensures Sys() == Next(old(Sys()), LeaseStep(token, limit))
      ensures StillHeld(held, events, 0, token)
      ensures var batch := Batch(old(database.outbox), old(clock), leaseFor, limit);
              |events| == |batch| && forall i :: 0 <= i < |batch| ==> events[i].lease == OutboxLease(batch[i], token)
    {
      hide Batch, Outbox.LeaseAvailable, HeldBatch, LeaseEntries, StillHeld;
      ghost var before := Sys();
      var batch := Batch(database.outbox, clock, leaseFor, limit);
      var taken := HeldBatch(database.outbox, batch, token);
      var repository := new TenantOutboxRepository(database);
      var leased := repository.LeaseAvailable(token, clock, limit, leaseFor);
      events := leased.value;
      held := held + taken;
      tokens := tokens + {token};
      log := log + LeaseEntries(batch, token);
      LeasedAreHeld(before.held, before.db.outbox, batch, token, clock, events);
    }

    /** `transport.publish`: one receipt, committed in its own transaction; a mismatch raises. */
    method Handoff(event: LeasedOutboxEvent) returns (ok: bool)
      requires ConsumerUsable(consumer) && event.lease in held
      requires held[event.lease].eventId == event.caseEventId && held[event.lease].payload == event.payload
      modifies this`held, database`inbox
      ensures Sys() == Next(old(Sys()), HandoffStep(event.lease))
      ensures ok
              == !RecordOnce(old(database.inbox), HandoffKey(old(Sys()), event.lease), event.payload, clock)
                  .1.PayloadMismatch?
      ensures ok ==> held == old(held)[event.lease := Held(event.caseEventId, event.payload, true)]
      ensures ok ==> HasReceipt(Sys(), event)
    {
      var inbox := new TenantConsumerInbox(database);
      var recorded := inbox.RecordOnce(consumer, event.caseEventId, event.payload, clock);
      ok := recorded.Success?;
      if ok {
        held := held[event.lease := Held(event.caseEventId, event.payload, true)];
      }
    }

    /** `_mark_published`: false when the lease was lost. */
    method MarkPublished(lease: OutboxLease) returns (ok: bool)
      requires lease in held && held[lease].handedOff
      modifies this`held, this`log, database`outbox
      ensures ok == Holds(old(database.outbox), lease)
      ensures Sys() == Next(old(Sys()), PublishStep(lease))
      ensures held == old(held) - {lease}
      ensures log == if ok then old(log) + [Published(lease.outboxId, lease.token)] else old(log)
    {
      var repository := new TenantOutboxRepository(database);
      var settled := repository.MarkPublished(lease, clock);
      ok := settled.Success?;
      held := held - {lease};
      if ok {
        log := log + [Published(lease.outboxId, lease.token)];
      }
    }

    /** `_schedule_retry`: false when the lease was lost. */
    method ScheduleRetry(lease: OutboxLease, retryAfter: Time, errorCode: string) returns (ok: bool)
      requires lease in held && retryAfter > 0 && IsSafeCode(errorCode)
      modifies this`held, this`log, database`outbox
      ensures ok == Holds(old(database.outbox), lease)
      ensures Sys() == Next(old(Sys()), RetryStep(lease, retryAfter, errorCode))
      ensures held == old(held) - {lease}
      ensures log == if ok then old(log) + [Retried(lease.outboxId, lease.token)] else old(log)
    {
      var repository := new TenantOutboxRepository(database);
      var settled := repository.ScheduleRetry(lease, clock + retryAfter, errorCode);
      ok := settled.Success?;
      held := held - {lease};
      if ok {
        log := log + [Retried(lease.outboxId, lease.token)];
      }
    }
  }

  lemma ReceiptAccepted(s: System, lease: OutboxLease)
    requires Inv(s) && lease in s.held
    ensures !RecordOnce(s.db.inbox, HandoffKey(s, lease), s.held[lease].payload, s.clock).1.PayloadMismatch?
  {
    hide CaseInv, ArtifactInv, DeliveriesMatch;
    HandoffNeverMismatches(s, lease);
  }

  /** No step changes the lease time, the consumer, or whether the actor column admits NULL. */
  lemma {:induction false} ConfigurationKept(s: System, steps: seq<Step>)
    requires IsRun(s, steps)
    ensures Run(s, steps).db.eventActorRequired == s.db.eventActorRequired
    ensures Run(s, steps).leaseFor == s.leaseFor && Run(s, steps).consumer == s.consumer
    decreases |steps|
  {
    hide Next, Enabled, CasesEvolve, Kept, OutboxEvolves;
    RunEvolves(s, steps);
    if steps != [] {
      StepKeepsConfiguration(s, steps[0]);
      ConfigurationKept(Next(s, steps[0]), steps[1..]);
    }
  }

  lemma StepKeepsConfiguration(s: System, step: Step)
    requires Enabled(s, step)
    ensures Next(s, step).leaseFor == s.leaseFor && Next(s, step).consumer == s.consumer
  {
    hide CreateCase, GetSnapshot, ApplyTransition, PersistTransition, RecordOnce, MarkPublished, ScheduleRetry,
      DeclareUpload, Complete, InsertLedger, LeaseAvailable, Holds, Batch, HeldBatch, LeaseEntries;
  }

  // ---------------------------------------------------------------- the publisher

  /** What one call of the transport does; a failure may come after the receipt was committed. */
  datatype TransportOutcome =
    | Delivered
    | Raised(safeCode: Option<string>, receiptCommitted: bool)
  {
    /** The receipt was committed, whatever the worker learned of it. */
    predicate HandsOver() {
      Delivered? || receiptCommitted
    }

    /** A retryable error can only be built with a safe code. */
    predicate Coded() {
      Raised? && safeCode.Some? ==> IsSafeCode(safeCode.value)
    }
  }

  datatype PublishCycleResult = PublishCycleResult(
    leased: nat, published: nat, retriesScheduled: nat, settlementsLost: nat)

  /** A retryable error carries a safe code; any other exception is recorded under a stable one. */
  function ErrorCode(outcome: TransportOutcome): string
    requires outcome.Raised?
  {
    if outcome.safeCode.Some? then outcome.safeCode.value else "transport.failed"
  }

  lemma ErrorCodeIsSafe(outcome: TransportOutcome)
    requires outcome.Raised? && outcome.Coded()
    ensures IsSafeCode(ErrorCode(outcome))
  {
  }

  lemma StillHeldBeside(s: System, s': System, events: seq<LeasedOutboxEvent>, from: nat, token: Token)
    requires StillHeld(s.held, events, from, token) && LeavesAlone(s, s', token)
    ensures StillHeld(s'.held, events, from, token)
  {
    hide PublishedBy, RetriedBy;
  }

  /** The deployment is where this run from a state with the invariant has led. */
  ghost predicate LedTo(start: System, trace: seq<Step>, s: System) {
    Inv(start) && IsRun(start, trace) && Run(start, trace) == s
  }

  lemma LedToInv(start: System, trace: seq<Step>, s: System)
    requires LedTo(start, trace, s)
    ensures Inv(s)
  {
    hide Inv;
    RunKeepsInv(start, trace);
  }

  lemma ExtendRun(s: System, trace: seq<Step>, mid: System, more: seq<Step>, s': System)
    requires LedTo(s, trace, mid) && IsRun(mid, more) && Run(mid, more) == s'
    ensures LedTo(s, trace + more, s')
  {
    hide Inv;
    RunConcat(s, trace, more);
  }

  lemma ExtendRunByStep(s: System, trace: seq<Step>, mid: System, step: Step)
    requires LedTo(s, trace, mid) && Enabled(mid, step)
    ensures LedTo(s, trace + [step], Next(mid, step))
  {
    hide Enabled, Next, Inv;
    assert [step][1..] == [];
    RunConcat(s, trace, [step]);
  }

  class OutboxPublisher {
    const deployment: Deployment
    const workerId: string
    const batchSize: int
    const retryAfter: Time

    constructor (deployment: Deployment, workerId: string, batchSize: int, retryAfter: Time)
      requires !Blank(workerId) && |workerId| <= 200 && 1 <= batchSize <= 100 && retryAfter > 0
      ensures this.deployment == deployment && Settings()
      ensures this.workerId == workerId && this.batchSize == batchSize && this.retryAfter == retryAfter
    {
      this.deployment := deployment;
      this.workerId := workerId;
      this.batchSize := batchSize;
      this.retryAfter := retryAfter;
    }

    predicate Settings() {
      !Blank(workerId) && |workerId| <= 200 && 1 <= batchSize <= 100 && retryAfter > 0
    }

    /** What happens between two transactions of this worker, appended to the trace. */
    method Wait(schedule: seq<Step>, events: seq<LeasedOutboxEvent>, i: nat, token: Token,
                ghost start: System, ghost trace: seq<Step>)
      returns (ghost trace': seq<Step>)
      requires i < |events| && StillHeld(deployment.held, events, i, token)
      requires LedTo(start, trace, deployment.Sys())
      modifies deployment, deployment.database
      ensures trace' == trace + OthersSteps(old(deployment.Sys()), schedule, token)
      ensures LedTo(start, trace', deployment.Sys())
      ensures StillHeld(deployment.held, events, i, token)
      ensures deployment.held[events[i].lease] == old(deployment.held)[events[i].lease]
      ensures Counted(old(deployment.log), deployment.log, token, 0, 0)
      ensures Kept(old(deployment.database.inbox), deployment.database.inbox)
    {
      hide Inv, Next, Enabled, PublishedBy, RetriedBy;
      ghost var mid := deployment.Sys();
      var taken := deployment.Interfere(schedule, token);
      ghost var now := deployment.Sys();
      ExtendRun(start, trace, mid, taken, now);
      RunEvolves(mid, taken);
      CountedBeside(mid, now, token);
      StillHeldBeside(mid, now, events, i, token);
      trace' := trace + taken;
    }

    /** `transport.publish` by the inbox transport: with the invariant, it always commits a receipt. */
    method Deliver(event: LeasedOutboxEvent, ghost start: System, ghost trace: seq<Step>)
      returns (ghost trace': seq<Step>)
      requires LedTo(start, trace, deployment.Sys()) && ConsumerUsable(deployment.consumer)
      requires HeldFor(deployment.held, event)
      modifies deployment`held, deployment.database`inbox
      ensures trace' == trace + [HandoffStep(event.lease)]
      ensures LedTo(start, trace', deployment.Sys())
      ensures deployment.held == old(deployment.held)[event.lease := Held(event.caseEventId, event.payload, true)]
      ensures HasReceipt(deployment.Sys(), event)
    {
      hide Inv, HasReceipt, Next, RecordOnce;
      ghost var mid := deployment.Sys();
      LedToInv(start, trace, mid);
      ReceiptAccepted(mid, event.lease);
      HandoffEnabled(mid, event.lease);
      var ok := deployment.Handoff(event);
      ExtendRunByStep(start, trace, mid, HandoffStep(event.lease));
      trace' := trace + [HandoffStep(event.lease)];
    }

    /** The transport call for one event, between whatever other processes do before and after it. */
    method Present(events: seq<LeasedOutboxEvent>, i: nat, token: Token, outcome: TransportOutcome,
                   before: seq<Step>, between: seq<Step>)
      returns (ghost steps: seq<Step>)
      requires i < |events| && StillHeld(deployment.held, events, i, token)
      requires Inv(deployment.Sys()) && ConsumerUsable(deployment.consumer)
      modifies deployment, deployment.database
      ensures steps == Presented(old(deployment.Sys()), events[i].lease, outcome, before, between)
      ensures LedTo(old(deployment.Sys()), steps, deployment.Sys())
      ensures StillHeld(deployment.held, events, i, token)
      ensures Counted(old(deployment.log), deployment.log, token, 0, 0)
      ensures outcome.HandsOver() ==>
        deployment.held[events[i].lease].handedOff && HasReceipt(deployment.Sys(), events[i])
    {
      hide Inv, LedTo, HasReceipt, Next, Enabled, PublishedBy, RetriedBy, OthersSteps, Presented, Then, StillHeld;
      ghost var start := deployment.Sys();
      StayHere(start);
      steps := Wait(before, events, i, token, start, []);
      ghost var waiting := deployment.held;
      StillHeldHere(waiting, events, i, token);
      if outcome.HandsOver() {
        steps := Deliver(events[i], start, steps);
        StillHeldNext(waiting, deployment.held, events, i, token);
      }
      ghost var handed, mid := steps, deployment.Sys();
      LedToThen(start, handed, mid);
      steps := Wait(between, events, i, token, start, steps);
      PresentedIs(start, events[i].lease, outcome, before, between, handed, mid, steps);
      StillHeldHere(deployment.held, events, i, token);
      if outcome.HandsOver() {
        ReceiptKept(mid, deployment.Sys(), events[i]);
      }
    }

    /** The transport accepted the event: settle it, unless the lease was lost meanwhile. */
    method Acknowledge(events: seq<LeasedOutboxEvent>, i: nat, token: Token, before: seq<Step>, between: seq<Step>)
      returns (published: bool, ghost steps: seq<Step>)
      requires i < |events| && StillHeld(deployment.held, events, i, token)
      requires Inv(deployment.Sys()) && ConsumerUsable(deployment.consumer)
      modifies deployment, deployment.database
      ensures steps == Exchange(old(deployment.Sys()), events[i].lease, Delivered, before, between, retryAfter)
      ensures published == HoldsAfter(old(deployment.Sys()), events[i].lease, Delivered, before, between)
      ensures LedTo(old(deployment.Sys()), steps, deployment.Sys())
      ensures StillHeld(deployment.held, events, i + 1, token)
      ensures Counted(old(deployment.log), deployment.log, token, if published then 1 else 0, 0)
      ensures HasReceipt(deployment.Sys(), events[i])
    {
      hide Inv, LedTo, HasReceipt, Next, Enabled, PublishedBy, RetriedBy, Presented, StillHeld, Then, Holds;
      ghost var start := deployment.Sys();
      steps := Present(events, i, token, Delivered, before, between);
      ghost var s := deployment.Sys();
      LedToThen(start, steps, s);
      StillHeldHere(s.held, events, i, token);
      AcknowledgementEnabled(s, events[i].lease);
      published := deployment.MarkPublished(events[i].lease);
      StillHeldNext(s.held, deployment.held, events, i, token);
      ExtendRunByStep(start, steps, s, PublishStep(events[i].lease));
      steps := steps + [PublishStep(events[i].lease)];
      OneMoreEntry(s.log, Published(events[i].lease.outboxId, token), token);
      ReceiptKept(s, deployment.Sys(), events[i]);
    }

    /** The transport raised, perhaps after it had committed the receipt: schedule a retry. */
    method Reject(events: seq<LeasedOutboxEvent>, i: nat, token: Token, outcome: TransportOutcome,
                  before: seq<Step>, between: seq<Step>)
      returns (scheduled: bool, ghost steps: seq<Step>)
      requires i < |events| && StillHeld(deployment.held, events, i, token)
      requires Inv(deployment.Sys()) && ConsumerUsable(deployment.consumer)
      requires Settings() && outcome.Raised? && outcome.Coded()
      modifies deployment, deployment.database
      ensures steps == Exchange(old(deployment.Sys()), events[i].lease, outcome, before, between, retryAfter)
      ensures scheduled == HoldsAfter(old(deployment.Sys()), events[i].lease, outcome, before, between)
      ensures LedTo(old(deployment.Sys()), steps, deployment.Sys())
      ensures StillHeld(deployment.held, events, i + 1, token)
      ensures Counted(old(deployment.log), deployment.log, token, 0, if scheduled then 1 else 0)
    {
      hide Inv, LedTo, HasReceipt, Next, Enabled, PublishedBy, RetriedBy, IsSafeCode, ErrorCode, Presented, StillHeld,
        Then, Holds;
      ghost var start := deployment.Sys();
      steps := Present(events, i, token, outcome, before, between);
      ghost var s := deployment.Sys();
      LedToThen(start, steps, s);
      StillHeldHere(s.held, events, i, token);
      ErrorCodeIsSafe(outcome);
      var step := RetryStep(events[i].lease, retryAfter, ErrorCode(outcome));
      RetryEnabled(s, step);
      scheduled := deployment.ScheduleRetry(events[i].lease, retryAfter, ErrorCode(outcome));
      StillHeldNext(s.held, deployment.held, events, i, token);
      ExtendRunByStep(start, steps, s, step);
      steps := steps + [step];
      OneMoreEntry(s.log, Retried(events[i].lease.outboxId, token), token);
    }

    /** One iteration of the sweep. */
    method Settle(events: seq<LeasedOutboxEvent>, i: nat, token: Token, outcome: TransportOutcome,
                  before: seq<Step>, between: seq<Step>, ghost leased: System, ghost trace: seq<Step>)
      returns (settled: bool, ghost trace': seq<Step>)
      requires i < |events| && StillHeld(deployment.held, events, i, token)
      requires LedTo(leased, trace, deployment.Sys()) && ConsumerUsable(deployment.consumer)
      requires Settings() && outcome.Coded()
      modifies deployment, deployment.database
      ensures trace' == trace + Exchange(Then(leased, trace), events[i].lease, outcome, before, between, retryAfter)
      ensures settled == HoldsAfter(Then(leased, trace), events[i].lease, outcome, before, between)
      ensures LedTo(leased, trace', deployment.Sys())
      ensures StillHeld(deployment.held, events, i + 1, token)
      ensures Counted(old(deployment.log), deployment.log, token,
                      if settled && outcome.Delivered? then 1 else 0, if settled && outcome.Raised? then 1 else 0)
    {
      hide Inv, StillHeld, LedTo, Exchange, Then, Counted, HoldsAfter;
      ghost var s := deployment.Sys();
      LedToInv(leased, trace, s);
      LedToThen(leased, trace, s);
      ghost var steps: seq<Step>;
      if outcome.Delivered? {
        settled, steps := Acknowledge(events, i, token, before, between);
      } else {
        settled, steps := Reject(events, i, token, outcome, before, between);
      }
      LedToLedTo(leased, trace, s, steps, deployment.Sys());
      trace' := trace + steps;
    }

    /**
     * One sweep, with other processes interfering between its transactions. It is the run of the
     * machine that the protocol prescribes. Its counters are the events whose lease still held
     * when they were settled, and the accepted ones whose lease did not; they leave out the
     * raised ones whose lease did not. So they add up to `leased` if and only if, for every
     * raised event, the lease still held its row just before the retry.
     */
    method PublishOnce(token: Token, transport: nat -> TransportOutcome, interference: nat -> seq<Step>)
      returns (result: PublishCycleResult, ghost trace: seq<Step>)
      requires Settings() && token.workerId == workerId && token !in deployment.tokens
      requires Inv(deployment.Sys()) && deployment.leaseFor > 0 && ConsumerUsable(deployment.consumer)
      requires forall i :: transport(i).Coded()
      modifies deployment, deployment.database
      ensures var sweep := SweepOf(old(deployment.Sys()), token, batchSize, transport, interference, retryAfter);
              && trace == [LeaseStep(token, batchSize)] + sweep.Exchanges(|sweep.batch|)
              && result.leased == |sweep.batch|
              && result.published == sweep.Acknowledged(result.leased) == PublishedBy(deployment.log, token)
              && result.retriesScheduled == sweep.Rescheduled(result.leased) == RetriedBy(deployment.log, token)
              && result.published + result.settlementsLost == AcceptedOf(transport, result.leased)
              && result.leased == result.published + result.retriesScheduled + result.settlementsLost
                                  + sweep.LateRetries(result.leased)
              && (result.leased == result.published + result.retriesScheduled + result.settlementsLost <==>
                    forall i: nat :: i < result.leased && transport(i).Raised? ==> sweep.HoldsLease(i))
      ensures IsRun(old(deployment.Sys()), trace) && Run(old(deployment.Sys()), trace) == deployment.Sys()
      ensures Inv(deployment.Sys())
    {
      hide Inv, LeavesAlone, StillHeld, Next, Enabled, PublishedBy, RetriedBy, Batch, LedTo, Exchange, Then, StepLease,
        Sweep.Exchanges, HoldsAfter;
      ghost var start := deployment.Sys();
      ghost var sweep := SweepOf(start, token, batchSize, transport, interference, retryAfter);
      NothingYet(start, token);
      var events := deployment.Lease(token, batchSize);
      LeaseEnabled(start, token, batchSize);
      StartRun(start, LeaseStep(token, batchSize));
      LeaseCounts(start, token, batchSize);
      LeaseIsStepLease(start, token, batchSize);
      LedToInv(start, [LeaseStep(token, batchSize)], sweep.leased);
      StayHere(sweep.leased);
      ghost var steps := sweep.Exchanges(0);
      sweep.NoExchanges();
      var published, retriesScheduled, settlementsLost: nat := 0, 0, 0;
      for i := 0 to |events|
        invariant steps == sweep.Exchanges(i)
        invariant LedTo(sweep.leased, steps, deployment.Sys())
        invariant StillHeld(deployment.held, events, i, token)
        invariant published == PublishedBy(deployment.log, token) == sweep.Acknowledged(i)
        invariant retriesScheduled == RetriedBy(deployment.log, token) == sweep.Rescheduled(i)
        invariant published + settlementsLost == AcceptedOf(transport, i)
        invariant i == published + retriesScheduled + settlementsLost + sweep.LateRetries(i)
      {
        var outcome := transport(i);
        var settled: bool;
        settled, steps :=
          Settle(events, i, token, outcome, interference(2 * i), interference(2 * i + 1), sweep.leased, steps);
        sweep.OneMore(i);
        if outcome.Delivered? {
          if settled {
            published := published + 1;
          } else {
            settlementsLost := settlementsLost + 1;
          }
        } else if settled {
          retriesScheduled := retriesScheduled + 1;
        }
      }
      trace := [LeaseStep(token, batchSize)] + steps;
      LedToLedTo(start, [LeaseStep(token, batchSize)], sweep.leased, steps, deployment.Sys());
      LedToRun(start, trace, deployment.Sys());
      LedToInv(start, trace, deployment.Sys());
      result := PublishCycleResult(|events|, published, retriesScheduled, settlementsLost);
      sweep.NoLateRetries(|events|);
    }
  }

  // ---------------------------------------------------------------- what one sweep does

  /** The state that a run leads to. */
  function Then(s: System, steps: seq<Step>): System {
    if IsRun(s, steps) then Run(s, steps) else s
  }

  /** Others, the handoff if it comes to that, and others again. */
  function Presented(s: System, lease: OutboxLease, outcome: TransportOutcome, before: seq<Step>, between: seq<Step>)
    : seq<Step>
  {
    var handed := OthersSteps(s, before, lease.token) + (if outcome.HandsOver() then [HandoffStep(lease)] else []);
    handed + OthersSteps(Then(s, handed), between, lease.token)
  }

  /** The steps about one leased event, its settlement last. */
  function Exchange(s: System, lease: OutboxLease, outcome: TransportOutcome, before: seq<Step>, between: seq<Step>,
                    retryAfter: Time): seq<Step>
  {
    Presented(s, lease, outcome, before, between)
      + [if outcome.Delivered? then PublishStep(lease) else RetryStep(lease, retryAfter, ErrorCode(outcome))]
  }

  /**
   * An accepted event is acknowledged; a raised one is retried after the configured time, under
   * its own safe code if it has one and under a stable code otherwise.
   */
  lemma ExchangeSettles(s: System, lease: OutboxLease, outcome: TransportOutcome, before: seq<Step>,
                        between: seq<Step>, retryAfter: Time)
    ensures var steps := Exchange(s, lease, outcome, before, between, retryAfter);
            && steps != []
            && steps[|steps| - 1]
               == match outcome
                  case Delivered => PublishStep(lease)
                  case Raised(Some(code), _) => RetryStep(lease, retryAfter, code)
                  case Raised(None, _) => RetryStep(lease, retryAfter, "transport.failed")
  {
    hide Presented;
  }

  lemma PresentedIs(s: System, lease: OutboxLease, outcome: TransportOutcome, before: seq<Step>, between: seq<Step>,
                    handed: seq<Step>, mid: System, steps: seq<Step>)
    requires handed == if outcome.HandsOver()
                       then [] + OthersSteps(s, before, lease.token) + [HandoffStep(lease)]
                       else [] + OthersSteps(s, before, lease.token)
    requires Then(s, handed) == mid && steps == handed + OthersSteps(mid, between, lease.token)
    ensures steps == Presented(s, lease, outcome, before, between)
  {
    hide OthersSteps, Then;
    var others := OthersSteps(s, before, lease.token);
    assert [] + others == others && others + [] == others;
  }

  /** The lease still holds its row when the worker comes to settle it. */
  predicate HoldsAfter(s: System, lease: OutboxLease, outcome: TransportOutcome,
                       before: seq<Step>, between: seq<Step>)
  {
    Holds(Then(s, Presented(s, lease, outcome, before, between)).db.outbox, lease)
  }

  /** A sweep after its leasing transaction, with what the transport will do and who interferes. */
  datatype Sweep = Sweep(
    leased: System,
    batch: seq<Uuid>,
    token: Token,
    transport: nat -> TransportOutcome,
    interference: nat -> seq<Step>,
    retryAfter: Time)
  {
    /** The steps about the first n leased events. */
    function Exchanges(n: nat): seq<Step>
      requires n <= |batch|
    {
      if n == 0 then []
      else
        var i := n - 1;
        Exchanges(i) + Exchange(Then(leased, Exchanges(i)), OutboxLease(batch[i], token), transport(i),
                                interference(2 * i), interference(2 * i + 1), retryAfter)
    }

    /** The guard of the settlement of event i. */
    predicate HoldsLease(i: nat)
      requires i < |batch|
    {
      HoldsAfter(Then(leased, Exchanges(i)), OutboxLease(batch[i], token), transport(i),
                 interference(2 * i), interference(2 * i + 1))
    }

    /** Of the first n events, the accepted ones whose lease held. */
    function Acknowledged(n: nat): nat
      requires n <= |batch|
    {
      if n == 0 then 0 else Acknowledged(n - 1) + (if transport(n - 1).Delivered? && HoldsLease(n - 1) then 1 else 0)
    }

    /** The raised ones whose lease held. */
    function Rescheduled(n: nat): nat
      requires n <= |batch|
    {
      if n == 0 then 0 else Rescheduled(n - 1) + (if transport(n - 1).Raised? && HoldsLease(n - 1) then 1 else 0)
    }

    /** The raised ones whose lease did not hold any more. */
    function LateRetries(n: nat): nat
      requires n <= |batch|
    {
      if n == 0 then 0 else LateRetries(n - 1) + (if transport(n - 1).Raised? && !HoldsLease(n - 1) then 1 else 0)
    }

    lemma NoExchanges()
      ensures Exchanges(0) == []
    {
    }

    lemma OneMore(i: nat)
      requires i < |batch|
      ensures Exchanges(i + 1)
              == Exchanges(i) + Exchange(Then(leased, Exchanges(i)), OutboxLease(batch[i], token), transport(i),
                                         interference(2 * i), interference(2 * i + 1), retryAfter)
      ensures HoldsLease(i) == HoldsAfter(Then(leased, Exchanges(i)), OutboxLease(batch[i], token), transport(i),
                                          interference(2 * i), interference(2 * i + 1))
    {
      hide Exchange, Then, HoldsAfter;
    }

    lemma {:induction false} NoLateRetries(n: nat)
      requires n <= |batch|
      ensures LateRetries(n) == 0 <==> forall i: nat :: i < n && transport(i).Raised? ==> HoldsLease(i)
    {
      hide HoldsLease;
      if n > 0 {
        NoLateRetries(n - 1);
      }
    }
  }

  /** What a sweep leases, and what then lies ahead of it. */
  function SweepOf(s: System, token: Token, limit: nat, transport: nat -> TransportOutcome,
                   interference: nat -> seq<Step>, retryAfter: Time): Sweep
  {
    Sweep(StepLease(s, token, limit), Batch(s.db.outbox, s.clock, s.leaseFor, limit), token, transport, interference,
          retryAfter)
  }

  lemma StayHere(s: System)
    requires Inv(s)
    ensures LedTo(s, [], s)
  {
  }

  lemma LedToThen(start: System, steps: seq<Step>, s: System)
    requires LedTo(start, steps, s)
    ensures Then(start, steps) == s
  {
  }

  lemma LedToRun(start: System, steps: seq<Step>, s: System)
    requires LedTo(start, steps, s)
    ensures IsRun(start, steps) && Run(start, steps) == s
  {
  }

  lemma LedToLedTo(start: System, trace: seq<Step>, mid: System, more: seq<Step>, s: System)
    requires LedTo(start, trace, mid) && LedTo(mid, more, s)
    ensures LedTo(start, trace + more, s)
  {
    ExtendRun(start, trace, mid, more, s);
  }

  lemma LeaseIsStepLease(s: System, token: Token, limit: nat)
    requires Enabled(s, LeaseStep(token, limit))
    ensures Next(s, LeaseStep(token, limit)) == StepLease(s, token, limit)
  {
  }

  /** Of the first n events, how many the transport accepted. */
  function AcceptedOf(transport: nat -> TransportOutcome, n: nat): nat {
    if n == 0 then 0 else AcceptedOf(transport, n - 1) + (if transport(n - 1).Delivered? then 1 else 0)
  }

  // ---------------------------------------------------------------- steps of one sweep

  /** The settlements committed with the token between two logs. */
  ghost predicate Counted(log: seq<Delivery>, log': seq<Delivery>, token: Token, published: nat, retried: nat) {
    && PublishedBy(log', token) == PublishedBy(log, token) + published
    && RetriedBy(log', token) == RetriedBy(log, token) + retried
  }

  lemma CountedBeside(s: System, s': System, token: Token)
    requires LeavesAlone(s, s', token)
    ensures Counted(s.log, s'.log, token, 0, 0)
  {
  }

  lemma AcknowledgementEnabled(s: System, lease: OutboxLease)
    requires lease in s.held && s.held[lease].handedOff
    ensures Enabled(s, PublishStep(lease))
  {
  }

  lemma LeaseEnabled(s: System, token: Token, limit: nat)
    requires token !in s.tokens && 1 <= limit <= 100
    ensures Enabled(s, LeaseStep(token, limit))
  {
  }

  lemma ReceiptKept(s: System, s': System, event: LeasedOutboxEvent)
    requires HasReceipt(s, event) && Kept(s.db.inbox, s'.db.inbox) && s'.consumer == s.consumer
    ensures HasReceipt(s', event)
  {
  }

  lemma RetryEnabled(s: System, step: Step)
    requires step.RetryStep? && step.lease in s.held && step.delay > 0
    ensures Enabled(s, step)
  {
  }

  lemma StartRun(s: System, step: Step)
    requires Inv(s) && Enabled(s, step)
    ensures LedTo(s, [step], Next(s, step))
  {
    hide Inv, Enabled, Next;
    assert LedTo(s, [], s);
    ExtendRunByStep(s, [], s, step);
    assert [] + [step] == [step];
  }

  lemma {:induction false} CountNothing(log: seq<Delivery>, token: Token)
    requires forall i :: 0 <= i < |log| ==> log[i].token != token
    ensures PublishedBy(log, token) == 0 && RetriedBy(log, token) == 0
  {
    if log != [] {
      CountNothing(log[..|log| - 1], token);
    }
  }

  /** A token that was never drawn has settled nothing. */
  lemma NothingYet(s: System, token: Token)
    requires Inv(s) && token !in s.tokens
    ensures PublishedBy(s.log, token) == 0 && RetriedBy(s.log, token) == 0
  {
    hide CaseInv, ArtifactInv, OutboxMirrorsEvents, ReceiptsMatch, HoldersInformed;
    CountNothing(s.log, token);
  }

  lemma LeaseCounts(s: System, token: Token, limit: nat)
    requires Enabled(s, LeaseStep(token, limit))
    ensures Counted(s.log, Next(s, LeaseStep(token, limit)).log, token, 0, 0)
  {
    hide Batch;
    ForeignEntries(s.log, LeaseEntries(Batch(s.db.outbox, s.clock, s.leaseFor, limit), token), token);
  }

  lemma HandoffEnabled(s: System, lease: OutboxLease)
    requires lease in s.held
    ensures Enabled(s, HandoffStep(lease))
  {
  }
}
