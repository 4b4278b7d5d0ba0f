/** How long a lease, a retry and a publication keep other workers away from a row. */
module LeaseTheorems {
  import opened Base
  import opened CaseDomain
  import opened Tables
  import opened CaseSpine
  import opened Outbox
  import opened Artifacts
  import opened Machine
  import opened DeliveryInvariants
  import opened CaseInvariants
  import opened ArtifactInvariants
  import opened Invariants
  import opened DeliveryTheorems
  import opened History

  // ---------------------------------------------------------------- what each statement leaves

  /** A worker that crashed can neither hand off nor settle what it had leased; the tables are as they were. */
  lemma CrashForgets(s: System, lost: set<OutboxLease>, lease: OutboxLease)
    ensures var s' := Next(s, CrashStep(lost));
            && s'.db == s.db && s'.log == s.log && s'.clock == s.clock
            && (lease in lost ==> !Enabled(s', HandoffStep(lease)) && !Enabled(s', PublishStep(lease)))
            && (lease in lost ==> forall delay, code :: !Enabled(s', RetryStep(lease, delay, code)))
            && (lease !in lost ==> (lease in s'.held <==> lease in s.held))
            && (lease !in lost && lease in s.held ==> s'.held[lease] == s.held[lease])
  {
  }

  /** A leased row is its worker's until the lease expires, and then anybody's. */
  lemma LeaseExcludes(s: System, token: Token, limit: nat, o: Uuid)
    requires Enabled(s, LeaseStep(token, limit)) && s.leaseFor > 0
    requires o in Batch(s.db.outbox, s.clock, s.leaseFor, limit)
    ensures var after := Next(s, LeaseStep(token, limit)).db.outbox;
            && o in s.db.outbox && o in after
            && Holds(after, OutboxLease(o, token))
            && (forall other :: other != token ==> !Holds(after, OutboxLease(o, other)))
            && (forall now :: Eligible(after[o], now, s.leaseFor) <==> now >= s.clock + s.leaseFor)
            && after[o].attemptCount == s.db.outbox[o].attemptCount + 1
            && after[o].availableAt == s.db.outbox[o].availableAt && after[o].lastError == s.db.outbox[o].lastError
  {
    InBatch(s.db.outbox, s.clock, s.leaseFor, limit, o);
    hide Batch;
  }

  lemma InBatch(outbox: OutboxTable, now: Time, leaseFor: Time, limit: nat, o: Uuid)
    requires o in Batch(outbox, now, leaseFor, limit)
    ensures o in outbox && Eligible(outbox[o], now, leaseFor)
  {
    hide Batch, Eligible;
    var batch := Batch(outbox, now, leaseFor, limit);
    var i :| 0 <= i < |batch| && batch[i] == o;
  }

  /** A lease statement touches no row outside its batch. */
  lemma LeaseLeavesOthers(s: System, token: Token, limit: nat, o: Uuid)
    requires Enabled(s, LeaseStep(token, limit)) && o in s.db.outbox
    requires !Eligible(s.db.outbox[o], s.clock, s.leaseFor)
    ensures var after := Next(s, LeaseStep(token, limit)).db.outbox; o in after && after[o] == s.db.outbox[o]
  {
    var batch := Batch(s.db.outbox, s.clock, s.leaseFor, limit);
    if o in batch {
      InBatch(s.db.outbox, s.clock, s.leaseFor, limit, o);
    }
    hide Batch, Eligible;
  }

  /** A retried row is nobody's, and waits until its retry time whatever the lease time is. */
  lemma RetryWaits(s: System, lease: OutboxLease, delay: Time, errorCode: string)
    requires Enabled(s, RetryStep(lease, delay, errorCode)) && Holds(s.db.outbox, lease)
    ensures var after := Next(s, RetryStep(lease, delay, errorCode)).db.outbox; var o := lease.outboxId;
            && o in after && o in s.db.outbox
            && (forall token :: !Holds(after, OutboxLease(o, token)))
            && (forall now :: Eligible(after[o], now, s.leaseFor) <==> now >= s.clock + delay)
            && after[o].lastError == Some(errorCode)
            && after[o].attemptCount == s.db.outbox[o].attemptCount
  {
  }

  /** A published row carries the time of its publication and is never eligible again. */
  lemma PublicationIsFinal(s: System, lease: OutboxLease)
    requires Enabled(s, PublishStep(lease)) && Holds(s.db.outbox, lease)
    ensures var after := Next(s, PublishStep(lease)).db.outbox; var o := lease.outboxId;
            && o in after && o in s.db.outbox
            && (forall token :: !Holds(after, OutboxLease(o, token)))
            && (forall now :: !Eligible(after[o], now, s.leaseFor))
            && after[o].publishedAt == Some(s.clock) && after[o].lastError == None
            && after[o].attemptCount == s.db.outbox[o].attemptCount
  {
  }

  // ---------------------------------------------------------------- over runs

  /** A step settles this lease. */
  predicate SettlesLease(step: Step, lease: OutboxLease) {
    (step.PublishStep? || step.RetryStep?) && step.lease == lease
  }

  /** The holder of the row does not settle it in this step. */
  ghost predicate LeftAlone(row: OutboxRow, o: Uuid, step: Step) {
    row.lockedBy.Some? ==> !SettlesLease(step, OutboxLease(o, row.lockedBy.value))
  }

  lemma InsertsLeaveRow(db: Db, db': Db, event: EventRow, outboxId: Uuid, o: Uuid)
    requires AddsEvent(db, db', event, outboxId) && o in db.outbox
    ensures o in db'.outbox && db'.outbox[o] == db.outbox[o]
  {
  }

  lemma CreateLeavesRow(db: Db, c: CreateCaseCommand, outboxId: Uuid, auditId: Uuid, o: Uuid)
    requires CreateCase(db, c, outboxId, auditId).Success? && o in db.outbox
    ensures var after := CreateCase(db, c, outboxId, auditId).value.0.outbox; o in after && after[o] == db.outbox[o]
  {
    hide WriteNewCase, AddsEvent, KeyOwners;
    if KeyOwners(db, c.idempotencyKey) == {} {
      CreateEffect(db, c, outboxId, auditId);
      InsertsLeaveRow(db, WriteNewCase(db, c, outboxId, auditId).value,
                      NewEventRow(CreationEvent(c), None, Some(c.RequestFingerprint())), outboxId, o);
    }
  }

  lemma TransitionLeavesRow(
      s: System, snapshot: CaseSnapshot, command: TransitionCommand, outboxId: Uuid, auditId: Uuid, o: Uuid)
    requires o in s.db.outbox
    ensures var after := StepTransition(s, snapshot, command, outboxId, auditId).db.outbox;
            o in after && after[o] == s.db.outbox[o]
  {
    hide PersistTransition, ApplyTransition, AddsEvent;
    var decision := ApplyTransition(snapshot, command);
    if decision.Success? {
      var w := PersistTransition(s.db, decision.value, command.actor, outboxId, auditId);
      if w.Success? {
        TransitionEffect(s.db, decision.value, command.actor, outboxId, auditId);
        var event := decision.value.event;
        InsertsLeaveRow(s.db, w.value.0, NewEventRow(event, Some(event.transitionId), None), outboxId, o);
      }
    }
  }

  lemma CompleteLeavesRow(
      db: Db, caseId: Uuid, intentId: Uuid, head: Option<ObjectMetadata>, at: Time, ids: CompletionIds, o: Uuid)
    requires Complete(db, caseId, intentId, head, at, ids).Success? && o in db.outbox
    ensures var after := Complete(db, caseId, intentId, head, at, ids).value.0.outbox;
            o in after && after[o] == db.outbox[o]
  {
    hide WriteCompletion, AddsEvent, MetadataMatches;
    var intent := db.intents[intentId];
    if !intent.Completed() {
      CompletionEffect(db, intent, head.value.encryptionKey, at, ids);
      InsertsLeaveRow(db, Complete(db, caseId, intentId, head, at, ids).value.0,
                      CompletionEvent(intent, ids.eventId, db.cases[intent.caseId].version, at), ids.outboxId, o);
    }
  }

  lemma SettlementLeavesRow(s: System, step: Step, o: Uuid)
    requires Enabled(s, step) && (step.PublishStep? || step.RetryStep?)
    requires o in s.db.outbox && LeftAlone(s.db.outbox[o], o, step)
    ensures o in Next(s, step).db.outbox && Next(s, step).db.outbox[o] == s.db.outbox[o]
  {
    hide PublishedRow, RetriedRow;
  }

  lemma StepLeavesRow(s: System, step: Step, o: Uuid)
    requires Enabled(s, step) && o in s.db.outbox
    requires s.db.outbox[o].publishedAt.Some? || s.clock < ReadyAt(s.db.outbox[o], s.leaseFor)
    requires LeftAlone(s.db.outbox[o], o, step)
    ensures o in Next(s, step).db.outbox && Next(s, step).db.outbox[o] == s.db.outbox[o]
  {
    hide StepTransition, CreateCase, Complete, DeclareUpload, RecordOnce, MarkPublished, ScheduleRetry, Batch,
      HeldBatch,
      LeaseEntries, LeaseAvailable, GetSnapshot, LeftAlone, ArtifactLedger.AppendRow;
    match step
    case CreateStep(c, outboxId, auditId) =>
      if CreateCase(s.db, c, outboxId, auditId).Success? {
        CreateLeavesRow(s.db, c, outboxId, auditId, o);
      }
    case TransitionStep(client, command, outboxId, auditId) =>
      TransitionLeavesRow(s, s.snapshots[client], command, outboxId, auditId, o);
    case LeaseStep(token, limit) =>
      NotReadyNotEligible(s.db.outbox[o], s.clock, s.leaseFor);
      LeaseLeavesOthers(s, token, limit, o);
    case PublishStep(_) => SettlementLeavesRow(s, step, o);
    case RetryStep(_, _, _) => SettlementLeavesRow(s, step, o);
    case DeclareStep(intent, auditId) =>
      if DeclareUpload(s.db, intent, auditId).Success? {
        DeclareEffect(s.db, intent, auditId);
      }
    case CompleteStep(caseId, intentId, head, at, ids) =>
      if Complete(s.db, caseId, intentId, head, at, ids).Success? {
        CompleteLeavesRow(s.db, caseId, intentId, head, at, ids, o);
      }
    case _ =>
  }

  lemma NotReadyNotEligible(row: OutboxRow, now: Time, leaseFor: Time)
    requires row.publishedAt.Some? || now < ReadyAt(row, leaseFor)
    ensures !Eligible(row, now, leaseFor)
  {
  }

  lemma StepClock(s: System, step: Step)
    requires Enabled(s, step)
    ensures s.clock <= Next(s, step).clock && Next(s, step).leaseFor == s.leaseFor
  {
    hide CreateCase, GetSnapshot, ApplyTransition, PersistTransition, RecordOnce, MarkPublished, ScheduleRetry,
      DeclareUpload, Complete, InsertLedger, LeaseAvailable, Holds, Batch, HeldBatch, LeaseEntries;
  }

  lemma {:induction false} ClockGrows(s: System, steps: seq<Step>)
    requires IsRun(s, steps)
    ensures s.clock <= Run(s, steps).clock
    decreases |steps|
  {
    hide Next, Enabled;
    if steps != [] {
      StepClock(s, steps[0]);
      ClockGrows(Next(s, steps[0]), steps[1..]);
    }
  }

  /**
   * Whatever everybody does, a row stays exactly as it is until it is ready to be leased again,
   * unless its own holder settles it; once published it stays so for good.
   */
  lemma {:induction false} UntouchedUntilReady(s: System, steps: seq<Step>, o: Uuid)
    requires IsRun(s, steps) && o in s.db.outbox
    requires s.db.outbox[o].publishedAt.Some? || Run(s, steps).clock < ReadyAt(s.db.outbox[o], s.leaseFor)
    requires forall i :: 0 <= i < |steps| ==> LeftAlone(s.db.outbox[o], o, steps[i])
    ensures o in Run(s, steps).db.outbox && Run(s, steps).db.outbox[o] == s.db.outbox[o]
    decreases |steps|
  {
    hide Next, Enabled, LeftAlone, ReadyAt;
    if steps != [] {
      ClockGrows(s, steps);
      StepLeavesRow(s, steps[0], o);
      StepClock(s, steps[0]);
      UntouchedUntilReady(Next(s, steps[0]), steps[1..], o);
    }
  }

  /**
   * A lease taken at time t still holds in every later state before t + lease_for, unless its own holder
   * settled it.
   */
  lemma LeaseHoldsWhileYoung(s: System, token: Token, limit: nat, o: Uuid, steps: seq<Step>)
    requires Enabled(s, LeaseStep(token, limit)) && s.leaseFor > 0
    requires o in Batch(s.db.outbox, s.clock, s.leaseFor, limit)
    requires IsRun(Next(s, LeaseStep(token, limit)), steps)
    requires Run(Next(s, LeaseStep(token, limit)), steps).clock < s.clock + s.leaseFor
    requires forall i :: 0 <= i < |steps| ==> !SettlesLease(steps[i], OutboxLease(o, token))
    ensures var later := Run(Next(s, LeaseStep(token, limit)), steps);
            Holds(later.db.outbox, OutboxLease(o, token)) && !Eligible(later.db.outbox[o], later.clock, s.leaseFor)
  {
    hide Next, Enabled, IsRun, Run, Batch, SettlesLease;
    LeaseExcludes(s, token, limit, o);
    var leased := Next(s, LeaseStep(token, limit));
    StepClock(s, LeaseStep(token, limit));
    assert Eligible(leased.db.outbox[o], ReadyAt(leased.db.outbox[o], s.leaseFor), s.leaseFor);
    UntouchedUntilReady(leased, steps, o);
  }

  /** A row retried at time t with a delay is left to everybody, and by everybody, until t + delay. */
  lemma RetriedRowWaits(s: System, lease: OutboxLease, delay: Time, errorCode: string, steps: seq<Step>)
    requires Enabled(s, RetryStep(lease, delay, errorCode)) && Holds(s.db.outbox, lease)
    requires IsRun(Next(s, RetryStep(lease, delay, errorCode)), steps)
    requires Run(Next(s, RetryStep(lease, delay, errorCode)), steps).clock < s.clock + delay
    ensures var retried := Next(s, RetryStep(lease, delay, errorCode)); var later := Run(retried, steps);
            && lease.outboxId in later.db.outbox
            && later.db.outbox[lease.outboxId] == retried.db.outbox[lease.outboxId]
            && !Eligible(later.db.outbox[lease.outboxId], later.clock, s.leaseFor)
  {
    hide Next, Enabled, IsRun, Run;
    RetryWaits(s, lease, delay, errorCode);
    var retried := Next(s, RetryStep(lease, delay, errorCode));
    StepClock(s, RetryStep(lease, delay, errorCode));
    var row := retried.db.outbox[lease.outboxId];
    var later := Run(retried, steps).clock;
    assert Eligible(row, s.clock + delay, s.leaseFor) && !Eligible(row, later, s.leaseFor);
    EligibleFromReady(retried, lease.outboxId, later);
    NobodyHolds(retried.db.outbox, lease.outboxId);
    UntouchedUntilReady(retried, steps, lease.outboxId);
  }

  lemma NobodyHolds(outbox: OutboxTable, o: Uuid)
    requires o in outbox && outbox[o].publishedAt.None? && forall token :: !Holds(outbox, OutboxLease(o, token))
    ensures outbox[o].lockedBy.None?
  {
    if outbox[o].lockedBy.Some? {
      assert Holds(outbox, OutboxLease(o, outbox[o].lockedBy.value));
    }
  }

  /**
   * Over any run an outbox row keeps its business columns; attempts only grow and a publication is never
   * taken back.
   */
  lemma BusinessColumnsImmutable(s: System, steps: seq<Step>, o: Uuid)
    requires IsRun(s, steps) && o in s.db.outbox
    ensures o in Run(s, steps).db.outbox
    ensures var before, after := s.db.outbox[o], Run(s, steps).db.outbox[o];
            && after.id == before.id && after.caseId == before.caseId && after.caseEventId == before.caseEventId
            && after.eventType == before.eventType && after.aggregateVersion == before.aggregateVersion
            && after.correlationId == before.correlationId && after.payload == before.payload
            && after.createdAt == before.createdAt
            && before.attemptCount <= after.attemptCount
            && (before.publishedAt.Some? ==> after.publishedAt == before.publishedAt)
  {
    hide IsRun, Run, CasesEvolve, EventsEvolve, Kept;
    RunEvolves(s, steps);
    assert OutboxMutationAllowed(s.db.outbox[o], Run(s, steps).db.outbox[o]);
  }
}
