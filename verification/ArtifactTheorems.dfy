/** Conservation of uploads and their idempotent completion, over whole runs. */
module ArtifactTheorems {
  import opened Base
  import opened CaseDomain
  import opened Tables
  import opened CaseSpine
  import opened Outbox
  import opened Artifacts
  import opened Machine
  import opened DeliveryInvariants
  import opened CaseInvariants
  import opened ArtifactInvariants
  import opened Invariants
  import opened History
  import opened DeliveryTheorems
  import ArtifactLedger

  /** What one completed upload left behind. */
  datatype UploadTrail = UploadTrail(intentId: Uuid, ledgerIndex: nat, eventId: Uuid, outboxId: Uuid)

  ghost predicate IsTrail(db: Db, a: Uuid, t: UploadTrail) {
    && a in db.artifacts
    && t.intentId in db.intents && Fulfils(db.artifacts[a], db.intents[t.intentId])
    && t.ledgerIndex < |db.ledger| && Opens(db.ledger[t.ledgerIndex], a)
    && t.eventId in db.events && Announces(db.events[t.eventId], db.artifacts[a])
    && t.outboxId in db.outbox && db.outbox[t.outboxId].caseEventId == t.eventId
    && db.outbox[t.outboxId].payload == db.events[t.eventId].payload
  }

  lemma AnnouncementUnique(artifacts: ArtifactTable, events: EventTable, a: Uuid, e: Uuid, f: Uuid)
    requires EventsMatchArtifacts(artifacts, events) && a in artifacts
    requires e in events && f in events && Announces(events[e], artifacts[a]) && Announces(events[f], artifacts[a])
    ensures e == f
  {
  }

  lemma FulfilmentUnique(intents: IntentTable, artifacts: ArtifactTable, a: Uuid, i: Uuid, j: Uuid)
    requires IntentsMatchArtifacts(intents, artifacts) && a in artifacts
    requires i in intents && j in intents && Fulfils(artifacts[a], intents[i]) && Fulfils(artifacts[a], intents[j])
    ensures i == j && intents[i].artifactId == a
  {
  }

  lemma TrailUnique(s: System, a: Uuid, t: UploadTrail, u: UploadTrail)
    requires Inv(s) && IsTrail(s.db, a, t) && IsTrail(s.db, a, u)
    ensures t == u
  {
    hide CaseInv, ReceiptsMatch, DeliveriesMatch, HoldersInformed;
    FulfilmentUnique(s.db.intents, s.db.artifacts, a, t.intentId, u.intentId);
    AnnouncementUnique(s.db.artifacts, s.db.events, a, t.eventId, u.eventId);
    OpeningUnique(s.db.ledger, a, t.ledgerIndex, u.ledgerIndex);
    hide IntentsMatchArtifacts, EventsMatchArtifacts, LedgerMatchesArtifacts;
  }

  lemma TrailExists(s: System, a: Uuid) returns (t: UploadTrail)
    requires Inv(s) && a in s.db.artifacts
    ensures IsTrail(s.db, a, t)
  {
    hide CaseInv, ReceiptsMatch, DeliveriesMatch, HoldersInformed;
    assert HasCompletedIntent(s.db.intents, s.db.artifacts[a]) && HasOpening(s.db.ledger, a)
           && HasAnnouncement(s.db.events, s.db.artifacts[a]);
    hide IntentsMatchArtifacts, EventsMatchArtifacts, LedgerMatchesArtifacts;
    var i :| i in s.db.intents && Fulfils(s.db.artifacts[a], s.db.intents[i]);
    var r :| 0 <= r < |s.db.ledger| && Opens(s.db.ledger[r], a);
    var e :| e in s.db.events && Announces(s.db.events[e], s.db.artifacts[a]);
    var o :| o in s.db.outbox && s.db.outbox[o].caseEventId == e;
    assert Mirrors(s.db.outbox[o], s.db.events[e]);
    t := UploadTrail(i, r, e, o);
  }

  /** Every artifact has exactly one intent, first ledger row, event and outbox row, all agreeing. */
  lemma ArtifactHasOneTrail(s: System, a: Uuid) returns (t: UploadTrail)
    requires Reachable(s) && a in s.db.artifacts
    ensures IsTrail(s.db, a, t)
    ensures forall u :: IsTrail(s.db, a, u) ==> u == t
  {
    ReachableInv(s);
    hide Inv, Reachable;
    t := TrailExists(s, a);
    forall u | IsTrail(s.db, a, u)
      ensures u == t
    {
      TrailUnique(s, a, t, u);
    }
  }

  /** Conversely, each of those rows belongs to an existing artifact. */
  lemma TrailsAreOfArtifacts(s: System)
    requires Reachable(s)
    ensures forall i :: i in s.db.intents ==>
      (s.db.intents[i].Completed() <==> s.db.intents[i].artifactId in s.db.artifacts)
    ensures forall r :: 0 <= r < |s.db.ledger| ==> s.db.ledger[r].artifactId in s.db.artifacts
    ensures forall e :: e in s.db.events && s.db.events[e].eventType.ArtifactCompleted? ==>
      exists a :: a in s.db.artifacts && Announces(s.db.events[e], s.db.artifacts[a])
    ensures ArtifactLedger.Reachable(s.db.ledger)
  {
    ReachableInv(s);
    hide DeliveryInv, CaseInv, Reachable;
    forall e | e in s.db.events && s.db.events[e].eventType.ArtifactCompleted?
      ensures exists a :: a in s.db.artifacts && Announces(s.db.events[e], s.db.artifacts[a])
    {
      var a := s.db.events[e].payload.artifactId;
      assert a in s.db.artifacts && Announces(s.db.events[e], s.db.artifacts[a]);
    }
  }

  // ---------------------------------------------------------------- idempotent completion

  ghost predicate KeepsIntent(db: Db, db': Db, i: Uuid) {
    i in db.intents ==> i in db'.intents && db'.intents[i] == db.intents[i]
  }

  lemma CreateKeepsIntents(db: Db, c: CreateCaseCommand, outboxId: Uuid, auditId: Uuid)
    requires CreateCase(db, c, outboxId, auditId).Success?
    ensures CreateCase(db, c, outboxId, auditId).value.0.intents == db.intents
  {
    if KeyOwners(db, c.idempotencyKey) == {} {
      CreateEffect(db, c, outboxId, auditId);
    }
    hide WriteNewCase, KeyOwners;
  }

  lemma TransitionKeepsIntents(
      s: System, snapshot: CaseSnapshot, command: TransitionCommand, outboxId: Uuid, auditId: Uuid)
    ensures StepTransition(s, snapshot, command, outboxId, auditId).db.intents == s.db.intents
  {
    var decision := ApplyTransition(snapshot, command);
    if decision.Success? {
      if PersistTransition(s.db, decision.value, command.actor, outboxId, auditId).Success? {
        TransitionEffect(s.db, decision.value, command.actor, outboxId, auditId);
      }
    }
    hide PersistTransition, ApplyTransition;
  }

  lemma OtherStepsKeepIntents(s: System, step: Step)
    requires Enabled(s, step) && !step.DeclareStep? && !step.CompleteStep?
    ensures Next(s, step).db.intents == s.db.intents
  {
    hide StepTransition, CreateCase, RecordOnce, Outbox.MarkPublished, Outbox.ScheduleRetry, Batch, HeldBatch,
      LeaseEntries, Outbox.LeaseAvailable, ArtifactLedger.AppendRow, GetSnapshot;
    match step
    case CreateStep(c, outboxId, auditId) =>
      if CreateCase(s.db, c, outboxId, auditId).Success? {
        CreateKeepsIntents(s.db, c, outboxId, auditId);
      }
    case TransitionStep(client, command, outboxId, auditId) =>
      TransitionKeepsIntents(s, s.snapshots[client], command, outboxId, auditId);
    case _ =>
  }

  lemma CompleteKeepsCompleted(
      db: Db, caseId: Uuid, intentId: Uuid, head: Option<ObjectMetadata>, at: Time, ids: CompletionIds, i: Uuid)
    requires Complete(db, caseId, intentId, head, at, ids).Success?
    requires forall j :: j in db.intents ==> db.intents[j].id == j
    requires i in db.intents && db.intents[i].Completed()
    ensures KeepsIntent(db, Complete(db, caseId, intentId, head, at, ids).value.0, i)
  {
    var w := Complete(db, caseId, intentId, head, at, ids);
    if !w.value.1.alreadyCompleted {
      CompletionEffect(db, db.intents[intentId], head.value.encryptionKey, at, ids);
    }
    hide WriteCompletion;
  }

  lemma IntentIds(s: System)
    requires Inv(s)
    ensures forall j :: j in s.db.intents ==> s.db.intents[j].id == j
  {
    hide DeliveryInv, CaseInv, LedgerMatchesArtifacts, EventsMatchArtifacts;
  }

  lemma DeclareKeepsCompleted(db: Db, intent: UploadIntent, auditId: Uuid, i: Uuid)
    requires !intent.Completed() && DeclareUpload(db, intent, auditId).Success?
    ensures KeepsIntent(db, DeclareUpload(db, intent, auditId).value, i)
  {
    DeclareEffect(db, intent, auditId);
    hide DeclareUpload;
  }

  lemma DeclareStepKeepsCompleted(s: System, intent: UploadIntent, auditId: Uuid, i: Uuid)
    requires Enabled(s, DeclareStep(intent, auditId))
    ensures KeepsIntent(s.db, Next(s, DeclareStep(intent, auditId)).db, i)
  {
    hide DeclareUpload;
    if DeclareUpload(s.db, intent, auditId).Success? {
      DeclareKeepsCompleted(s.db, intent, auditId, i);
    }
  }

  lemma CompleteStepKeepsCompleted(
      s: System, caseId: Uuid, intentId: Uuid, head: Option<ObjectMetadata>, at: Time, ids: CompletionIds, i: Uuid)
    requires forall j :: j in s.db.intents ==> s.db.intents[j].id == j
    requires i in s.db.intents && s.db.intents[i].Completed()
    ensures KeepsIntent(s.db, Next(s, CompleteStep(caseId, intentId, head, at, ids)).db, i)
  {
    hide Complete;
    if Complete(s.db, caseId, intentId, head, at, ids).Success? {
      CompleteKeepsCompleted(s.db, caseId, intentId, head, at, ids, i);
    }
  }

  lemma StepKeepsCompleted(s: System, step: Step, i: Uuid)
    requires Inv(s) && Enabled(s, step) && i in s.db.intents && s.db.intents[i].Completed()
    ensures KeepsIntent(s.db, Next(s, step).db, i)
  {
    hide Inv, Next;
    IntentIds(s);
    match step
    case DeclareStep(intent, auditId) => DeclareStepKeepsCompleted(s, intent, auditId, i);
    case CompleteStep(caseId, intentId, head, at, ids) =>
      CompleteStepKeepsCompleted(s, caseId, intentId, head, at, ids, i);
    case _ => OtherStepsKeepIntents(s, step);
  }

  lemma {:induction false} RunKeepsCompleted(s: System, steps: seq<Step>, i: Uuid)
    requires Inv(s) && IsRun(s, steps) && i in s.db.intents && s.db.intents[i].Completed()
    ensures KeepsIntent(s.db, Run(s, steps).db, i)
    decreases |steps|
  {
    hide Inv;
    if steps != [] {
      StepKeepsCompleted(s, steps[0], i);
      NextKeepsInv(s, steps[0]);
      RunKeepsCompleted(Next(s, steps[0]), steps[1..], i);
    }
  }

  /**
   * However long after its completion, and past its deadline, completing an upload again
   * answers with the same artifact and time and writes nothing.
   */
  lemma CompletingAgainChangesNothing(
      s: System, i: Uuid, steps: seq<Step>, head: Option<ObjectMetadata>, at: Time, ids: CompletionIds)
    requires Reachable(s) && IsRun(s, steps) && i in s.db.intents && s.db.intents[i].Completed()
    ensures var s' := Run(s, steps); var intent := s.db.intents[i];
            Complete(s'.db, intent.caseId, i, head, at, ids)
            == Success((s'.db, CompletedUpload(intent.artifactId, intent.completedAt.value, true)))
  {
    ReachableInv(s);
    hide Inv, Reachable;
    RunKeepsCompleted(s, steps, i);
    hide IsRun, Run;
  }

  // ---------------------------------------------------------------- the declared schema

  ghost predicate NoneCompleted(db: Db) {
    forall i :: i in db.intents ==> !db.intents[i].Completed()
  }

  lemma CompletionEventRefused(db: Db, intent: UploadIntent, key: string, now: Time, ids: CompletionIds)
    requires db.eventActorRequired
    ensures WriteCompletion(db, intent, key, now, ids).Failure?
  {
    hide ArtifactInsertable, ArtifactLedger.LedgerInsertable, OutboxInsertable, AuditInsertable;
  }

  lemma CompletionRefused(
      db: Db, caseId: Uuid, intentId: Uuid, head: Option<ObjectMetadata>, at: Time, ids: CompletionIds)
    requires db.eventActorRequired && NoneCompleted(db)
    ensures Complete(db, caseId, intentId, head, at, ids).Failure?
  {
    hide WriteCompletion;
    if intentId in db.intents && head.Some? {
      CompletionEventRefused(db, db.intents[intentId], head.value.encryptionKey, at, ids);
    }
  }

  lemma DeclareKeepsNoneCompleted(db: Db, intent: UploadIntent, auditId: Uuid)
    requires !intent.Completed() && NoneCompleted(db) && DeclareUpload(db, intent, auditId).Success?
    ensures NoneCompleted(DeclareUpload(db, intent, auditId).value)
  {
    DeclareEffect(db, intent, auditId);
    hide DeclareUpload;
  }

  lemma StepKeepsNoneCompleted(s: System, step: Step)
    requires Enabled(s, step) && s.db.eventActorRequired && NoneCompleted(s.db)
    ensures NoneCompleted(Next(s, step).db)
  {
    hide Complete, DeclareUpload, StepTransition, CreateCase, StepLease, StepHandoff, StepPublish, StepRetry,
      InsertLedger;
    match step
    case DeclareStep(intent, auditId) =>
      if DeclareUpload(s.db, intent, auditId).Success? {
        DeclareKeepsNoneCompleted(s.db, intent, auditId);
      }
    case CompleteStep(caseId, intentId, head, at, ids) => CompletionRefused(s.db, caseId, intentId, head, at, ids);
    case _ => OtherStepsKeepIntents(s, step);
  }

  lemma {:induction false} RunKeepsNoneCompleted(s: System, steps: seq<Step>)
    requires IsRun(s, steps) && s.db.eventActorRequired && NoneCompleted(s.db)
    ensures NoneCompleted(Run(s, steps).db)
    decreases |steps|
  {
    hide Next, Enabled, NoneCompleted, CasesEvolve, Kept, OutboxEvolves;
    if steps != [] {
      StepKeepsNoneCompleted(s, steps[0]);
      NextEvolves(s, steps[0]);
      RunKeepsNoneCompleted(Next(s, steps[0]), steps[1..]);
    }
  }

  lemma NoUploadWasCompleted(s: System)
    requires Reachable(s) && s.db.eventActorRequired
    ensures NoneCompleted(s.db)
  {
    hide NoneCompleted, IsRun, Run, CasesEvolve, Kept, OutboxEvolves;
    var leaseFor: Time, consumer: string, required: bool, clock: Time, steps: seq<Step> :|
      && IsRun(Init(leaseFor, consumer, required, clock), steps)
      && Run(Init(leaseFor, consumer, required, clock), steps) == s;
    RunEvolves(Init(leaseFor, consumer, required, clock), steps);
    NothingDeclared(leaseFor, consumer, required, clock);
    RunKeepsNoneCompleted(Init(leaseFor, consumer, required, clock), steps);
  }

  lemma NothingDeclared(leaseFor: Time, consumer: string, required: bool, clock: Time)
    ensures NoneCompleted(Init(leaseFor, consumer, required, clock).db)
  {
  }

  /** With the schema as declared, no run ever completes an upload or leaves a trace of one. */
  lemma DeclaredSchemaCompletesNothing(s: System)
    requires Reachable(s) && s.db.eventActorRequired
    ensures forall i :: i in s.db.intents ==> !s.db.intents[i].Completed()
    ensures s.db.artifacts == map[] && s.db.ledger == []
    ensures forall e :: e in s.db.events ==> !s.db.events[e].eventType.ArtifactCompleted?
  {
    hide Reachable, Announces;
    NoUploadWasCompleted(s);
    TrailsAreOfArtifacts(s);
    assert s.db.ledger == [] || s.db.ledger[0].artifactId in s.db.artifacts;
    if s.db.artifacts != map[] {
      var a :| a in s.db.artifacts;
      ArtifactWasCompleted(s, a);
    }
  }

  lemma ArtifactWasCompleted(s: System, a: Uuid)
    requires Reachable(s) && a in s.db.artifacts
    ensures !NoneCompleted(s.db)
  {
    hide Reachable, Announces;
    var t := ArtifactHasOneTrail(s, a);
    assert s.db.intents[t.intentId].Completed();
  }
}
