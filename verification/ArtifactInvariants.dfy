/**
 * What ties upload intents, artifacts, the ledger and the completion events together, and
 * why every write keeps it.
 */
module ArtifactInvariants {
  import opened Base
  import opened CaseDomain
  import opened Tables
  import opened CaseSpine
  import opened Artifacts
  import opened DeliveryInvariants
  import opened CaseInvariants
  import ArtifactLedger

  type IntentTable = map<Uuid, UploadIntent>
  type ArtifactTable = map<Uuid, ArtifactRow>

  /** The artifact carries what its intent declared, dated when the intent was completed. */
  predicate Fulfils(artifact: ArtifactRow, intent: UploadIntent) {
    && intent.completedAt == Some(artifact.createdAt)
    && artifact == ArtifactOf(intent, artifact.encryptionKey, artifact.createdAt)
  }

  ghost predicate HasCompletedIntent(intents: IntentTable, artifact: ArtifactRow) {
    exists i :: i in intents && Fulfils(artifact, intents[i])
  }

  /** Completed intents and artifacts correspond one to one, with equal metadata. */
  ghost predicate IntentsMatchArtifacts(intents: IntentTable, artifacts: ArtifactTable) {
    && (forall i :: i in intents ==> intents[i].id == i)
    && (forall i, j :: i in intents && j in intents ==> intents[i].artifactId == intents[j].artifactId ==> i == j)
    && (forall i :: i in intents ==>
          if intents[i].Completed()
          then intents[i].artifactId in artifacts && Fulfils(artifacts[intents[i].artifactId], intents[i])
          else intents[i].artifactId !in artifacts)
    && (forall a :: a in artifacts ==> artifacts[a].id == a && HasCompletedIntent(intents, artifacts[a]))
  }

  predicate Opens(row: LedgerRow, a: Uuid) {
    row.artifactId == a && row.attempt == 1 && row.state.Quarantined?
  }

  ghost predicate HasOpening(ledger: seq<LedgerRow>, a: Uuid) {
    exists i :: 0 <= i < |ledger| && Opens(ledger[i], a)
  }

  /** The ledger is one that its trigger admits, about existing artifacts, each with its first row. */
  ghost predicate LedgerMatchesArtifacts(artifacts: ArtifactTable, ledger: seq<LedgerRow>) {
    && ArtifactLedger.Reachable(ledger)
    && (forall i :: 0 <= i < |ledger| ==> ledger[i].artifactId in artifacts)
    && (forall a :: a in artifacts ==> HasOpening(ledger, a))
  }

  predicate Announces(event: EventRow, artifact: ArtifactRow) {
    && event.eventType.ArtifactCompleted?
    && event.transitionId.None?
    && event.caseId == artifact.caseId
    && event.occurredAt == artifact.createdAt
    && event.payload
       == ArtifactPayload(artifact.id, artifact.kind, artifact.caseId, artifact.classification, artifact.sha256)
  }

  ghost predicate HasAnnouncement(events: EventTable, artifact: ArtifactRow) {
    exists e :: e in events && Announces(events[e], artifact)
  }

  /** Completion events and artifacts correspond one to one. */
  ghost predicate EventsMatchArtifacts(artifacts: ArtifactTable, events: EventTable) {
    && (forall a :: a in artifacts ==> artifacts[a].id == a && HasAnnouncement(events, artifacts[a]))
    && (forall e :: e in events && events[e].eventType.ArtifactCompleted? ==>
          && events[e].payload.ArtifactPayload?
          && events[e].payload.artifactId in artifacts
          && Announces(events[e], artifacts[events[e].payload.artifactId]))
    && (forall e, f :: e in events && f in events ==>
          events[e].eventType.ArtifactCompleted? && events[f].eventType.ArtifactCompleted? ==>
          events[e].payload == events[f].payload ==> e == f)
  }

  // ---------------------------------------------------------------- declare

  lemma DeclareEffect(db: Db, intent: UploadIntent, auditId: Uuid)
    requires !intent.Completed() && DeclareUpload(db, intent, auditId).Success?
    ensures var db' := DeclareUpload(db, intent, auditId).value;
            && db' == db.(intents := db.intents[intent.id := intent], audit := db'.audit)
            && intent.id !in db.intents
            && (forall i :: i in db.intents ==> db.intents[i].artifactId != intent.artifactId)
  {
  }

  lemma IntentWitnessKept(intents: IntentTable, intent: UploadIntent, artifact: ArtifactRow)
    requires HasCompletedIntent(intents, artifact)
    requires intent.id in intents ==> !intents[intent.id].Completed()
    ensures HasCompletedIntent(intents[intent.id := intent], artifact)
  {
    var i :| i in intents && Fulfils(artifact, intents[i]);
    var intents' := intents[intent.id := intent];
    assert i in intents' && Fulfils(artifact, intents'[i]);
  }

  lemma DeclareKeepsIntents(intents: IntentTable, artifacts: ArtifactTable, intent: UploadIntent)
    requires IntentsMatchArtifacts(intents, artifacts)
    requires intent.id !in intents && !intent.Completed()
    requires forall i :: i in intents ==> intents[i].artifactId != intent.artifactId
    ensures IntentsMatchArtifacts(intents[intent.id := intent], artifacts)
  {
    forall a | a in artifacts
      ensures HasCompletedIntent(intents[intent.id := intent], artifacts[a])
    {
      IntentWitnessKept(intents, intent, artifacts[a]);
    }
  }

  // ---------------------------------------------------------------- complete

  ghost predicate CompletionWrites(
      db: Db, db': Db, intent: UploadIntent, key: string, now: Time, ids: CompletionIds, event: EventRow)
  {
    var artifact := ArtifactOf(intent, key, now);
    var row := QuarantinedRow(intent, ids.ledgerId, now);
    && intent.artifactId !in db.artifacts
    && db'.artifacts == db.artifacts[intent.artifactId := artifact]
    && ArtifactLedger.LedgerInsertable(db.ledger, row)
    && db'.ledger == db.ledger + [row]
    && AddsEvent(db, db', event, ids.outboxId)
    && Announces(event, artifact)
    && db'.intents == db.intents[intent.id := intent.(completedAt := Some(now))]
    && db'.cases == db.cases && db'.transitions == db.transitions
    && db'.eventActorRequired == db.eventActorRequired
  }

  /** What a successful completion changes. */
  lemma CompletionEffect(db: Db, intent: UploadIntent, key: string, now: Time, ids: CompletionIds)
    requires WriteCompletion(db, intent, key, now, ids).Success?
    ensures intent.caseId in db.cases
    ensures CompletionWrites(db, WriteCompletion(db, intent, key, now, ids).value, intent, key, now, ids,
                             CompletionEvent(intent, ids.eventId, db.cases[intent.caseId].version, now))
  {
    var db1 := InsertArtifact(db, ArtifactOf(intent, key, now)).value;
    var db2 := InsertLedger(db1, QuarantinedRow(intent, ids.ledgerId, now)).value;
    assert db2 == db.(artifacts := db1.artifacts, ledger := db2.ledger);
    var event := CompletionEvent(intent, ids.eventId, db.cases[intent.caseId].version, now);
    InsertEventAndOutboxEffect(db2, event, ids.outboxId);
  }

  lemma CompletionKeepsIntents(
      intents: IntentTable, artifacts: ArtifactTable, intent: UploadIntent, key: string, now: Time)
    requires IntentsMatchArtifacts(intents, artifacts)
    requires intent.id in intents && intents[intent.id] == intent && !intent.Completed()
    ensures IntentsMatchArtifacts(intents[intent.id := intent.(completedAt := Some(now))],
                                  artifacts[intent.artifactId := ArtifactOf(intent, key, now)])
  {
    var done := intent.(completedAt := Some(now));
    var intents' := intents[intent.id := done];
    var artifact := ArtifactOf(intent, key, now);
    assert intents'[intent.id] == done && Fulfils(artifact, done);
    assert HasCompletedIntent(intents', artifact);
    forall a | a in artifacts
      ensures HasCompletedIntent(intents', artifacts[a])
    {
      IntentWitnessKept(intents, done, artifacts[a]);
    }
  }

  lemma OpeningKept(ledger: seq<LedgerRow>, row: LedgerRow, a: Uuid)
    requires HasOpening(ledger, a)
    ensures HasOpening(ledger + [row], a)
  {
    var i :| 0 <= i < |ledger| && Opens(ledger[i], a);
    assert Opens((ledger + [row])[i], a);
  }

  lemma CompletionKeepsLedger(artifacts: ArtifactTable, ledger: seq<LedgerRow>, artifact: ArtifactRow, row: LedgerRow)
    requires LedgerMatchesArtifacts(artifacts, ledger)
    requires ArtifactLedger.LedgerInsertable(ledger, row) && Opens(row, artifact.id)
    ensures LedgerMatchesArtifacts(artifacts[artifact.id := artifact], ledger + [row])
  {
    ArtifactLedger.AppendKeepsReachable(ledger, row);
    assert Opens((ledger + [row])[|ledger|], artifact.id);
    forall a | a in artifacts
      ensures HasOpening(ledger + [row], a)
    {
      OpeningKept(ledger, row, a);
    }
  }

  lemma AnnouncementKept(events: EventTable, events': EventTable, event: EventRow, artifact: ArtifactRow)
    requires AddsEventRow(events, events', event) && HasAnnouncement(events, artifact)
    ensures HasAnnouncement(events', artifact)
  {
    var e :| e in events && Announces(events[e], artifact);
    assert e in events' && Announces(events'[e], artifact);
  }

  lemma CompletionKeepsAnnouncements(
      artifacts: ArtifactTable, artifact: ArtifactRow, events: EventTable, events': EventTable, event: EventRow)
    requires EventsMatchArtifacts(artifacts, events) && artifact.id !in artifacts
    requires AddsEventRow(events, events', event) && Announces(event, artifact)
    ensures EventsMatchArtifacts(artifacts[artifact.id := artifact], events')
  {
    assert Announces(events'[event.id], artifact);
    forall a | a in artifacts
      ensures HasAnnouncement(events', artifacts[a])
    {
      AnnouncementKept(events, events', event, artifacts[a]);
    }
  }

  lemma OtherEventKeepsAnnouncements(artifacts: ArtifactTable, events: EventTable, events': EventTable, event: EventRow)
    requires EventsMatchArtifacts(artifacts, events)
    requires AddsEventRow(events, events', event) && !event.eventType.ArtifactCompleted?
    ensures EventsMatchArtifacts(artifacts, events')
  {
    forall a | a in artifacts
      ensures HasAnnouncement(events', artifacts[a])
    {
      AnnouncementKept(events, events', event, artifacts[a]);
    }
  }

  // ---------------------------------------------------------------- process

  lemma ProcessingKeepsLedger(artifacts: ArtifactTable, ledger: seq<LedgerRow>, row: LedgerRow)
    requires LedgerMatchesArtifacts(artifacts, ledger) && row.artifactId in artifacts
    requires ArtifactLedger.LedgerInsertable(ledger, row)
    ensures LedgerMatchesArtifacts(artifacts, ledger + [row])
  {
    ArtifactLedger.AppendKeepsReachable(ledger, row);
    forall a | a in artifacts
      ensures HasOpening(ledger + [row], a)
    {
      OpeningKept(ledger, row, a);
    }
  }

  // ---------------------------------------------------------------- one to one

  /** The first row of an artifact's ledger is unique. */
  lemma OpeningUnique(ledger: seq<LedgerRow>, a: Uuid, i: nat, j: nat)
    requires ArtifactLedger.Reachable(ledger)
    requires i < |ledger| && j < |ledger| && Opens(ledger[i], a) && Opens(ledger[j], a)
    ensures i == j
  {
    if i < j {
      ArtifactLedger.StatesOncePerAttempt(ledger, i, j);
    } else if j < i {
      ArtifactLedger.StatesOncePerAttempt(ledger, j, i);
    }
  }
}
