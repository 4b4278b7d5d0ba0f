/** What optimistic concurrency and idempotent creation guarantee over whole runs. */
module CaseTheorems {
  import opened Base
  import opened CaseDomain
  import opened Tables
  import opened CaseSpine
  import opened Artifacts
  import opened Machine
  import opened DeliveryInvariants
  import opened CaseInvariants
  import opened ArtifactInvariants
  import opened Invariants
  import opened History
  import opened DeliveryTheorems

  // ---------------------------------------------------------------- compare-and-swap

  lemma ReachableCases(s: System)
    requires Reachable(s)
    ensures CaseInv(s)
  {
    ReachableInv(s);
    hide DeliveryInv, CaseInv, ArtifactInv;
  }

  /** (state, version) is the fold of the case's transitions, whose versions are exactly 1..version. */
  lemma ProjectionIsFoldOfHistory(s: System, caseId: Uuid)
    requires Reachable(s) && caseId in s.db.cases
    ensures var h := HistoryOf(s.db.transitions, caseId); var row := s.db.cases[caseId];
            && Replay(h) == Some((row.state, row.version))
            && row.version == |h|
            && row.state == (if h == [] then New else h[|h| - 1].toState)
            && forall i :: 0 <= i < |h| ==> Follows(h, i)
  {
    ReachableCases(s);
    hide DecisionsMatch, SnapshotsSound, KeysUnique, CreationEvents, TransitionEvents, OtherEvents;
    ReplayIsLinked(HistoryOf(s.db.transitions, caseId));
  }

  /** A client's read is the case as it stands; a read of a missing case leaves what the client held. */
  lemma ReadsAreCurrent(s: System, client: Uuid, caseId: Uuid)
    ensures var s' := Next(s, ReadStep(client, caseId));
            && s'.db == s.db
            && (forall other :: other in s'.snapshots && other != client <==> other in s.snapshots && other != client)
            && (forall other :: other in s.snapshots && other != client ==> s'.snapshots[other] == s.snapshots[other])
            && if caseId in s.db.cases
               then client in s'.snapshots && s'.snapshots[client]
                 == CaseSnapshot(caseId, s.db.cases[caseId].state, s.db.cases[caseId].version)
               else s'.snapshots == s.snapshots
  {
  }

  /** However stale the snapshot, a write that commits records the state that it really replaced. */
  lemma CommittedWriteRecordsTrueState(
      s: System, client: Uuid, command: TransitionCommand, outboxId: Uuid, auditId: Uuid)
    requires Reachable(s) && Enabled(s, TransitionStep(client, command, outboxId, auditId))
    requires Next(s, TransitionStep(client, command, outboxId, auditId)) != s
    ensures var s' := Next(s, TransitionStep(client, command, outboxId, auditId));
            && command.caseId in s.db.cases
            && |s'.db.transitions| == |s.db.transitions| + 1
            && var row := s'.db.transitions[|s.db.transitions|];
               && row.caseId == command.caseId
               && row.fromState == s.db.cases[command.caseId].state
               && row.toState == command.toState == s'.db.cases[command.caseId].state
               && row.version == s.db.cases[command.caseId].version + 1 == s'.db.cases[command.caseId].version
  {
    hide ProjectionsReplay, DecisionsMatch, KeysUnique, CreationEvents, TransitionEvents, OtherEvents, SnapshotsSound,
      TransitionWrites, ApplyTransition, PersistTransition, Reachable;
    ReachableCases(s);
    var outcome := ApplyTransition(s.snapshots[client], command).value;
    TransitionEffect(s.db, outcome, command.actor, outboxId, auditId);
    WrittenRow(s.db, PersistTransition(s.db, outcome, command.actor, outboxId, auditId).value.0, s.snapshots, client,
               command, outboxId);
  }

  lemma WrittenRow(
      db: Db, db': Db, snapshots: map<Uuid, CaseSnapshot>, client: Uuid, command: TransitionCommand, outboxId: Uuid)
    requires client in snapshots && SnapshotsSound(db.cases, snapshots)
    requires ApplyTransition(snapshots[client], command).Success?
    requires TransitionWrites(db, db', ApplyTransition(snapshots[client], command).value, command.actor, outboxId)
    ensures && command.caseId in db.cases && command.caseId in db'.cases
            && |db'.transitions| == |db.transitions| + 1
            && var row := db'.transitions[|db.transitions|];
               && row.caseId == command.caseId
               && row.fromState == db.cases[command.caseId].state
               && row.toState == command.toState == db'.cases[command.caseId].state
               && row.version == db.cases[command.caseId].version + 1 == db'.cases[command.caseId].version
  {
    hide SnapshotsSound, AddsEvent, SameOtherTables;
    SwapSeesTrueState(db, snapshots, client, command);
  }

  lemma {:induction false} HistoryContains(transitions: seq<TransitionRow>, i: nat)
    requires i < |transitions|
    ensures exists j :: 0 <= j < |HistoryOf(transitions, transitions[i].caseId)|
                        && HistoryOf(transitions, transitions[i].caseId)[j] == transitions[i]
  {
    var n := |transitions| - 1;
    var front := transitions[..n];
    var c := transitions[i].caseId;
    if i < n {
      assert front[i] == transitions[i];
      HistoryContains(front, i);
      var j :| 0 <= j < |HistoryOf(front, c)| && HistoryOf(front, c)[j] == front[i];
      assert HistoryOf(transitions, c)[j] == transitions[i];
    } else {
      assert HistoryOf(transitions, c)[|HistoryOf(front, c)|] == transitions[i];
    }
  }

  lemma VersionsAreBounded(s: System, caseId: Uuid)
    requires CaseInv(s) && caseId in s.db.cases
    ensures VersionsBounded(s.db, caseId)
  {
    hide DecisionsMatch, SnapshotsSound, KeysUnique, CreationEvents, TransitionEvents, OtherEvents;
    var h := HistoryOf(s.db.transitions, caseId);
    ReplayIsLinked(h);
    forall i | 0 <= i < |s.db.transitions| && s.db.transitions[i].caseId == caseId
      ensures s.db.transitions[i].version <= s.db.cases[caseId].version
    {
      HistoryContains(s.db.transitions, i);
      var j :| 0 <= j < |h| && h[j] == s.db.transitions[i];
      assert Follows(h, j);
    }
  }

  /**
   * In every reachable state, a command that the pure state machine accepts for a held snapshot,
   * with fresh ids, commits exactly when that snapshot's version is still current; and at commit
   * the deferred trigger finds the history that it requires.
   */
  lemma AcceptedCommandCommitsIffCurrent(
      s: System, client: Uuid, command: TransitionCommand, outboxId: Uuid, auditId: Uuid)
    requires Reachable(s) && Enabled(s, TransitionStep(client, command, outboxId, auditId))
    requires ApplyTransition(s.snapshots[client], command).Success?
    requires FreshTransitionIds(s.db, command, outboxId, auditId)
    ensures command.caseId in s.db.cases
    ensures var s' := Next(s, TransitionStep(client, command, outboxId, auditId));
            && (s' != s <==> s.db.cases[command.caseId].version == s.snapshots[client].version)
            && (s' != s ==> TransitionHistoryHolds(s'.db, s.db.cases[command.caseId], s'.db.cases[command.caseId]))
  {
    ReachableCases(s);
    VersionsAreBounded(s, command.caseId);
    hide DecisionsMatch, KeysUnique, CreationEvents, TransitionEvents, OtherEvents, Reachable;
    AcceptedOutcomeCommits(s.db, s.snapshots[client], command, outboxId, auditId);
    hide FreshTransitionIds, VersionsBounded, TransitionHistoryHolds, ProjectionsReplay;
    WriteIsVisible(s, client, command, outboxId, auditId);
    hide PersistTransition, Next;
  }

  /** A transition step changes the system exactly when its transaction commits. */
  lemma WriteIsVisible(s: System, client: Uuid, command: TransitionCommand, outboxId: Uuid, auditId: Uuid)
    requires Enabled(s, TransitionStep(client, command, outboxId, auditId))
    requires ApplyTransition(s.snapshots[client], command).Success?
    ensures var s' := Next(s, TransitionStep(client, command, outboxId, auditId));
            var w := PersistTransition(s.db, ApplyTransition(s.snapshots[client], command).value, command.actor,
                                       outboxId, auditId);
            && (s' != s <==> w.Success?)
            && (w.Success? ==> s'.db == w.value.0 && command.caseId in s'.db.cases
                               && s'.db.cases[command.caseId] == w.value.1)
  {
    var outcome := ApplyTransition(s.snapshots[client], command).value;
    var w := PersistTransition(s.db, outcome, command.actor, outboxId, auditId);
    if w.Success? {
      TransitionEffect(s.db, outcome, command.actor, outboxId, auditId);
      assert |w.value.0.transitions| > |s.db.transitions|;
    }
  }

  // ---------------------------------------------------------------- idempotent creation

  /** A key belongs to its case for ever, with the request it was created with. */
  lemma KeyIsOwnedForEver(s: System, steps: seq<Step>, caseId: Uuid)
    requires Reachable(s) && IsRun(s, steps) && caseId in s.db.cases
    ensures var s' := Run(s, steps);
            && KeyOwners(s'.db, s.db.cases[caseId].idempotencyKey) == {caseId}
            && s'.db.cases[caseId].request == s.db.cases[caseId].request
  {
    hide DeliveryInv, CaseInv, ArtifactInv, IsRun, Run, Reachable, Evolves, KeyOwners;
    RunEvolves(s, steps);
    ReachableInv(s);
    RunKeepsInv(s, steps);
    InvKeysUnique(Run(s, steps));
    CaseKept(s.db, Run(s, steps).db, caseId);
    OwnerIsUnique(Run(s, steps).db, caseId);
  }

  lemma InvKeysUnique(s: System)
    requires CaseInv(s)
    ensures KeysUnique(s.db)
  {
    hide ProjectionsReplay, DecisionsMatch, SnapshotsSound, CreationEvents, TransitionEvents, OtherEvents;
  }

  lemma CaseKept(db: Db, db': Db, caseId: Uuid)
    requires Evolves(db, db') && caseId in db.cases
    ensures caseId in db'.cases && CaseEvolves(db.cases[caseId], db'.cases[caseId])
  {
    hide CaseEvolves, OutboxEvolves, Kept, KeyedById;
  }

  lemma OwnerIsUnique(db: Db, caseId: Uuid)
    requires KeysUnique(db) && caseId in db.cases
    ensures KeyOwners(db, db.cases[caseId].idempotencyKey) == {caseId}
  {
  }

  /** A replayed key answers with the current projection, or conflicts; it never writes. */
  lemma ReplayWritesNothing(s: System, c: CreateCaseCommand, outboxId: Uuid, auditId: Uuid, caseId: Uuid)
    requires Reachable(s) && c.Valid()
    requires caseId in s.db.cases && s.db.cases[caseId].idempotencyKey == c.idempotencyKey
    ensures Next(s, CreateStep(c, outboxId, auditId)) == s
    ensures CreateCase(s.db, c, outboxId, auditId)
            == if s.db.cases[caseId].request == c.RequestFingerprint()
               then Success((s.db, CreateCaseResult(s.db.cases[caseId], false)))
               else Failure(IdempotencyConflict(caseId))
  {
    ReachableCases(s);
    hide SnapshotsSound, DecisionsMatch, CreationEvents, TransitionEvents, OtherEvents, Reachable;
    assert caseId in KeyOwners(s.db, c.idempotencyKey);
  }

  /** Each case has exactly one creation event, and that event exactly one outbox row. */
  lemma OneCreationEventPerCase(s: System, caseId: Uuid) returns (e: Uuid, o: Uuid)
    requires Reachable(s) && caseId in s.db.cases
    ensures e in s.db.events && Creates(s.db.events[e], caseId)
    ensures forall f :: f in s.db.events && s.db.events[f].eventType.CaseCreated? && s.db.events[f].caseId == caseId ==>
      f == e
    ensures o in s.db.outbox && s.db.outbox[o].caseEventId == e && Mirrors(s.db.outbox[o], s.db.events[e])
    ensures forall p :: p in s.db.outbox && s.db.outbox[p].caseEventId == e ==> p == o
  {
    ReachableInv(s);
    hide ArtifactInv, ReceiptsMatch, DeliveriesMatch, HoldersInformed, Reachable;
    hide ProjectionsReplay, DecisionsMatch, SnapshotsSound, KeysUnique, TransitionEvents, OtherEvents;
    assert HasCreation(s.db.events, caseId);
    e :| e in s.db.events && Creates(s.db.events[e], caseId);
    o :| o in s.db.outbox && s.db.outbox[o].caseEventId == e;
  }

  // ---------------------------------------------------------------- whole-run case history

  ghost predicate LegalEdges(h: seq<TransitionRow>) {
    forall i :: 0 <= i < |h| ==> h[i].toState in AllowedTransitions(h[i].fromState)
  }

  function StopsForInformation(h: seq<TransitionRow>): nat {
    if h == [] then 0
    else StopsForInformation(h[..|h| - 1]) + (if h[|h| - 1].toState.NeedsInformation? then 1 else 0)
  }

  /** The version of a case that has stopped n times for information. */
  predicate VersionAt(state: CaseState, n: nat, version: nat) {
    match state
    case New => n == 0 && version == 0
    case Investigating => version == 1 + 2 * n
    case NeedsInformation => n > 0 && version == 2 * n
    case Diagnosed => version == 2 + 2 * n
    case FixProposed => version == 3 + 2 * n
    case Confirmed => version == 4 + 2 * n
    case Resolved => version == 5 + 2 * n
    case Learned => version == 6 + 2 * n
  }

  lemma {:induction false} VersionFollowsHistory(h: seq<TransitionRow>)
    requires LegalEdges(h) && Replay(h).Some?
    ensures VersionAt(Replay(h).value.0, StopsForInformation(h), Replay(h).value.1)
  {
    if h != [] {
      VersionFollowsHistory(h[..|h| - 1]);
      assert h[|h| - 1].toState in AllowedTransitions(h[|h| - 1].fromState);
    }
  }

  ghost predicate Passed(h: seq<TransitionRow>, state: CaseState) {
    exists i :: 0 <= i < |h| && h[i].toState == state
  }

  lemma PassedKept(h: seq<TransitionRow>, state: CaseState)
    requires h != [] && Passed(h[..|h| - 1], state)
    ensures Passed(h, state)
  {
    var i :| 0 <= i < |h| - 1 && h[..|h| - 1][i].toState == state;
    assert h[i].toState == state;
  }

  /** The only way to learn is through resolution, and to resolution through confirmation. */
  lemma {:induction false} PathIsForced(h: seq<TransitionRow>)
    requires LegalEdges(h) && Replay(h).Some?
    ensures var state := Replay(h).value.0;
            && (state in {Confirmed, Resolved, Learned} ==> Passed(h, Confirmed))
            && (state in {Resolved, Learned} ==> Passed(h, Resolved))
            && (state == Learned ==> Passed(h, Learned))
  {
    if h != [] {
      var front := h[..|h| - 1];
      var last := h[|h| - 1];
      PathIsForced(front);
      assert last.toState in AllowedTransitions(last.fromState);
      assert Passed(h, last.toState);
      if Passed(front, Confirmed) {
        PassedKept(h, Confirmed);
      }
      if Passed(front, Resolved) {
        PassedKept(h, Resolved);
      }
    }
  }

  predicate ConfirmedByHuman(row: TransitionRow, command: TransitionCommand) {
    && row.toState.Confirmed? && row.actorKind.Human? && row.approvalId.Some?
    && command.actor.id == row.actorId && command.actor.kind.Human? && command.actor.roles * CONFIRM_ROLES != {}
  }

  predicate ResolvedByHuman(row: TransitionRow, command: TransitionCommand) {
    && row.toState.Resolved? && row.actorKind.Human?
    && row.verificationNote.Some? && !Blank(row.verificationNote.value)
    && command.actor.id == row.actorId && command.actor.roles * RESOLVE_ROLES != {}
  }

  predicate LearnedByService(row: TransitionRow) {
    row.toState.Learned? && row.actorKind.Service? && row.knowledgeItemId.Some?
  }

  lemma HistoryIsLegal(s: System, caseId: Uuid)
    requires CaseInv(s)
    ensures LegalEdges(HistoryOf(s.db.transitions, caseId))
  {
    hide ProjectionsReplay, SnapshotsSound, KeysUnique, CreationEvents, TransitionEvents, OtherEvents;
    var h := HistoryOf(s.db.transitions, caseId);
    forall j | 0 <= j < |h|
      ensures h[j].toState in AllowedTransitions(h[j].fromState)
    {
      HistoryRowIsCommitted(s.db.transitions, caseId, j);
      var i :| 0 <= i < |s.db.transitions| && s.db.transitions[i] == h[j];
      assert DecidedBy(s.db.transitions[i], s.accepted[i]);
    }
  }

  /** Every case's version is determined by its state and its stops for information. */
  lemma VersionCountsStops(s: System, caseId: Uuid)
    requires Reachable(s) && caseId in s.db.cases
    ensures VersionAt(s.db.cases[caseId].state, StopsForInformation(HistoryOf(s.db.transitions, caseId)),
                      s.db.cases[caseId].version)
  {
    ReachableCases(s);
    HistoryIsLegal(s, caseId);
    hide DecisionsMatch, SnapshotsSound, KeysUnique, CreationEvents, TransitionEvents, OtherEvents, LegalEdges;
    VersionFollowsHistory(HistoryOf(s.db.transitions, caseId));
  }

  lemma CommittedDecision(s: System, caseId: Uuid, state: CaseState) returns (i: nat)
    requires CaseInv(s) && Passed(HistoryOf(s.db.transitions, caseId), state)
    ensures i < |s.db.transitions| == |s.accepted|
    ensures s.db.transitions[i].caseId == caseId && s.db.transitions[i].toState == state
    ensures DecidedBy(s.db.transitions[i], s.accepted[i])
  {
    hide ProjectionsReplay, SnapshotsSound, KeysUnique, CreationEvents, TransitionEvents, OtherEvents;
    var h := HistoryOf(s.db.transitions, caseId);
    var j :| 0 <= j < |h| && h[j].toState == state;
    HistoryRowIsCommitted(s.db.transitions, caseId, j);
    i :| 0 <= i < |s.db.transitions| && s.db.transitions[i] == h[j];
    assert DecidedBy(s.db.transitions[i], s.accepted[i]);
  }

  lemma DecisionEvidence(row: TransitionRow, command: TransitionCommand)
    requires DecidedBy(row, command)
    ensures row.toState == Confirmed ==> ConfirmedByHuman(row, command)
    ensures row.toState == Resolved ==> ResolvedByHuman(row, command)
    ensures row.toState == Learned ==> LearnedByService(row)
  {
  }

  /**
   * A resolved or learned case has in its history a human confirmation by a confirm role with
   * an approval, and a human resolution with a note; a learned one also has the transition of
   * a service identity with a knowledge item.
   */
  lemma ClosedCasesWereApproved(s: System, caseId: Uuid) returns (confirmation: nat, resolution: nat, learning: nat)
    requires Reachable(s) && caseId in s.db.cases && s.db.cases[caseId].state in {Resolved, Learned}
    ensures confirmation < |s.db.transitions| && resolution < |s.db.transitions| && |s.accepted| == |s.db.transitions|
    ensures s.db.transitions[confirmation].caseId == s.db.transitions[resolution].caseId == caseId
    ensures ConfirmedByHuman(s.db.transitions[confirmation], s.accepted[confirmation])
    ensures ResolvedByHuman(s.db.transitions[resolution], s.accepted[resolution])
    ensures s.db.cases[caseId].state == Learned ==>
      && learning < |s.db.transitions| && s.db.transitions[learning].caseId == caseId
      && LearnedByService(s.db.transitions[learning])
  {
    ReachableCases(s);
    HistoryIsLegal(s, caseId);
    hide DecisionsMatch, SnapshotsSound, KeysUnique, CreationEvents, TransitionEvents, OtherEvents, LegalEdges;
    PathIsForced(HistoryOf(s.db.transitions, caseId));
    hide Passed, ProjectionsReplay, DecidedBy, ConfirmedByHuman, ResolvedByHuman, LearnedByService, Reachable;
    confirmation := CommittedDecision(s, caseId, Confirmed);
    DecisionEvidence(s.db.transitions[confirmation], s.accepted[confirmation]);
    resolution := CommittedDecision(s, caseId, Resolved);
    DecisionEvidence(s.db.transitions[resolution], s.accepted[resolution]);
    learning := 0;
    if s.db.cases[caseId].state == Learned {
      learning := CommittedDecision(s, caseId, Learned);
      DecisionEvidence(s.db.transitions[learning], s.accepted[learning]);
    }
  }

  lemma DecisionWasAllowed(row: TransitionRow, command: TransitionCommand)
    requires DecidedBy(row, command)
    ensures MayMove(row.fromState, command) && row.toState == command.toState
    ensures row.actorKind == command.actor.kind && row.actorId == command.actor.id
  {
    hide MayMove, ActorAuthorized, ConstraintsMet;
    AcceptedIff(CaseSnapshot(row.caseId, row.fromState, row.version - 1), command);
  }

  /**
   * Behind every committed transition is a command that its actor might give: a model never
   * moves a case, and a human who does is an administrator, an operator or an approver.
   */
  lemma CommittedTransitionsWereAllowed(s: System, i: nat)
    requires Reachable(s) && i < |s.db.transitions|
    ensures |s.accepted| == |s.db.transitions|
    ensures var row, command := s.db.transitions[i], s.accepted[i]; var roles := command.actor.roles;
            && MayMove(row.fromState, command) && row.toState == command.toState
            && row.actorKind == command.actor.kind && row.actorId == command.actor.id
            && !row.actorKind.Model?
            && (row.actorKind.Human? ==>
                  OrgAdmin in roles || Operator in roles || Approver in roles || PlatformAdmin in roles)
  {
    hide ProjectionsReplay, SnapshotsSound, KeysUnique, CreationEvents, TransitionEvents, OtherEvents, DecidedBy,
      Reachable;
    ReachableCases(s);
    DecisionWasAllowed(s.db.transitions[i], s.accepted[i]);
  }

  /** Over any run a case keeps everything that it was created with. */
  lemma CaseKeepsItsColumns(s: System, steps: seq<Step>, caseId: Uuid)
    requires IsRun(s, steps) && caseId in s.db.cases
    ensures caseId in Run(s, steps).db.cases
    ensures var before, after := s.db.cases[caseId], Run(s, steps).db.cases[caseId];
            && after.id == before.id && after.assetId == before.assetId && after.title == before.title
            && after.category == before.category && after.severity == before.severity
            && after.idempotencyKey == before.idempotencyKey && after.request == before.request
            && after.createdBy == before.createdBy && after.correlationId == before.correlationId
            && after.createdAt == before.createdAt && after.version >= before.version
  {
    hide Run, IsRun, Evolves;
    RunEvolves(s, steps);
    CaseKept(s.db, Run(s, steps).db, caseId);
  }

  // ---------------------------------------------------------------- what the commands let in

  /** At most so long, with something to see in it. */
  ghost predicate Legible(s: string, most: nat) {
    |s| <= most && exists i :: 0 <= i < |s| && s[i] !in " \t\r\n"
  }

  ghost predicate Named(row: CaseRow) {
    && Legible(row.title, 500) && Legible(row.idempotencyKey, 255)
    && (row.category.Some? ==> Legible(row.category.value, 100))
  }

  ghost predicate CasesNamed(cases: CaseTable) {
    forall c :: c in cases ==> Named(cases[c])
  }

  lemma NotBlankIsLegible(s: string)
    requires !Blank(s)
    ensures Legible(s, |s|)
  {
    var c :| c in s && !IsSpace(c);
    var i :| 0 <= i < |s| && s[i] == c;
  }

  lemma CreationNames(c: CreateCaseCommand)
    requires c.Valid()
    ensures Named(NewCaseRow(c))
  {
    NotBlankIsLegible(c.title);
    NotBlankIsLegible(c.idempotencyKey);
    if c.category.Some? {
      NotBlankIsLegible(c.category.value);
    }
  }

  lemma CompletionAddsNoCase(
      db: Db, caseId: Uuid, intentId: Uuid, head: Option<ObjectMetadata>, now: Time, ids: CompletionIds)
    requires Complete(db, caseId, intentId, head, now, ids).Success?
    ensures Complete(db, caseId, intentId, head, now, ids).value.0.cases == db.cases
  {
    hide WriteCompletion, AddsEvent, Announces;
    var intent := db.intents[intentId];
    if !intent.Completed() {
      CompletionEffect(db, intent, head.value.encryptionKey, now, ids);
    }
  }

  lemma DeclarationAddsNoCase(db: Db, intent: UploadIntent, auditId: Uuid)
    requires !intent.Completed() && DeclareUpload(db, intent, auditId).Success?
    ensures DeclareUpload(db, intent, auditId).value.cases == db.cases
  {
    hide IntentInsertable, AuditInsertable;
  }

  lemma TransitionAddsNoCase(s: System, client: Uuid, command: TransitionCommand, outboxId: Uuid, auditId: Uuid)
    requires client in s.snapshots
    ensures StepTransition(s, s.snapshots[client], command, outboxId, auditId).db.cases.Keys == s.db.cases.Keys
  {
    hide ApplyTransition, PersistTransition;
    var decision := ApplyTransition(s.snapshots[client], command);
    if decision.Success? && PersistTransition(s.db, decision.value, command.actor, outboxId, auditId).Success? {
      TransitionEffect(s.db, decision.value, command.actor, outboxId, auditId);
    }
  }

  /** Only a creation adds a case. */
  lemma OtherStepsAddNoCase(s: System, step: Step)
    requires Enabled(s, step) && !step.CreateStep?
    ensures Next(s, step).db.cases.Keys == s.db.cases.Keys
  {
    hide StepTransition, Complete, DeclareUpload;
    match step
    case TransitionStep(client, command, outboxId, auditId) =>
      TransitionAddsNoCase(s, client, command, outboxId, auditId);
    case DeclareStep(intent, auditId) =>
      if DeclareUpload(s.db, intent, auditId).Success? {
        DeclarationAddsNoCase(s.db, intent, auditId);
      }
    case CompleteStep(caseId, intentId, head, at, ids) =>
      if Complete(s.db, caseId, intentId, head, at, ids).Success? {
        CompletionAddsNoCase(s.db, caseId, intentId, head, at, ids);
      }
    case _ =>
  }

  lemma StepNames(s: System, step: Step)
    requires Enabled(s, step) && CasesNamed(s.db.cases)
    ensures CasesNamed(Next(s, step).db.cases)
  {
    hide Named, Enabled, Next, CreateCase, WriteNewCase, Evolves, CreateCaseCommand.Valid;
    var next := Next(s, step);
    NextEvolves(s, step);
    if step.CreateStep? {
      CreationStepNames(s, step.create, step.outboxId, step.auditId);
    } else {
      OtherStepsAddNoCase(s, step);
      forall c | c in next.db.cases
        ensures Named(next.db.cases[c])
      {
        CaseKept(s.db, next.db, c);
        EvolvedIsNamed(s.db.cases[c], next.db.cases[c]);
      }
    }
  }

  lemma EvolvedIsNamed(old_: CaseRow, new_: CaseRow)
    requires Named(old_) && CaseEvolves(old_, new_)
    ensures Named(new_)
  {
    hide Legible;
  }

  lemma CreationStepNames(s: System, c: CreateCaseCommand, outboxId: Uuid, auditId: Uuid)
    requires Enabled(s, CreateStep(c, outboxId, auditId)) && CasesNamed(s.db.cases)
    ensures CasesNamed(Next(s, CreateStep(c, outboxId, auditId)).db.cases)
  {
    hide Named, WriteNewCase, CreateCaseCommand.Valid;
    CreationNames(c);
    if WriteNewCase(s.db, c, outboxId, auditId).Success? {
      CreateEffect(s.db, c, outboxId, auditId);
    }
  }

  lemma {:induction false} RunNames(s: System, steps: seq<Step>)
    requires IsRun(s, steps) && CasesNamed(s.db.cases)
    ensures CasesNamed(Run(s, steps).db.cases)
    decreases |steps|
  {
    hide CasesNamed, Next, Enabled;
    if steps != [] {
      StepNames(s, steps[0]);
      RunNames(Next(s, steps[0]), steps[1..]);
    }
  }

  /** In every reachable state a case has a legible title and key, and a legible category or none. */
  lemma CasesAreNamed(s: System, caseId: Uuid)
    requires Reachable(s) && caseId in s.db.cases
    ensures var row := s.db.cases[caseId];
            && Legible(row.title, 500) && Legible(row.idempotencyKey, 255)
            && (row.category.Some? ==> Legible(row.category.value, 100))
  {
    hide IsRun, Run, Legible;
    var leaseFor: Time, consumer: string, required: bool, clock: Time, steps: seq<Step> :|
      && IsRun(Init(leaseFor, consumer, required, clock), steps)
      && Run(Init(leaseFor, consumer, required, clock), steps) == s;
    RunNames(Init(leaseFor, consumer, required, clock), steps);
  }
}
