/**
 * The pure case state machine (services/api/netops_api/domain/cases.py).
 * A command is decided against a snapshot without any I/O.
 */
module CaseDomain {
  import opened Base

  datatype CaseState =
    | New | Investigating | Diagnosed | FixProposed
    | NeedsInformation | Confirmed | Resolved | Learned

  datatype CaseRole = OrgAdmin | Operator | Approver | Auditor | IntegrationAdmin | PlatformAdmin

  datatype ActorKind = Human | Service | Model

  datatype Actor = Actor(id: Uuid, kind: ActorKind, roles: set<CaseRole>) {
    /** What the constructor accepts: only humans carry roles, and they carry at least one. */
    predicate Valid() {
      kind.Human? <==> roles != {}
    }
  }

  const CASE_WRITE_ROLES: set<CaseRole> := {OrgAdmin, Operator, Approver, PlatformAdmin}
  const CONFIRM_ROLES: set<CaseRole> := {OrgAdmin, Approver, PlatformAdmin}
  const RESOLVE_ROLES: set<CaseRole> := {OrgAdmin, Operator, Approver, PlatformAdmin}

  /** The event types that a case can emit; the strings they stand for are in `EventTypeOf`. */
  datatype EventType =
    | CaseCreated | CaseInvestigating | AnalysisCompleted | RecommendationProposed
    | CaseNeedsInformation | ApprovalGranted | CaseResolved | MemoryIndexed
    | ArtifactCompleted

  datatype CaseSnapshot = CaseSnapshot(caseId: Uuid, state: CaseState, version: nat)

  datatype TransitionCommand = TransitionCommand(
    transitionId: Uuid,
    eventId: Uuid,
    caseId: Uuid,
    expectedVersion: nat,
    toState: CaseState,
    actor: Actor,
    correlationId: Uuid,
    occurredAt: Time,
    approvalId: Option<Uuid>,
    verificationNote: Option<string>,
    knowledgeItemId: Option<Uuid>,
    note: Option<string>)
  {
    /** What the constructors of the command and of its actor accept. */
    predicate Valid() {
      && actor.Valid()
      && (verificationNote.Some? ==> !Blank(verificationNote.value))
      && (note.Some? ==> !Blank(note.value))
    }
  }

  datatype CaseStateTransition = CaseStateTransition(
    transitionId: Uuid,
    caseId: Uuid,
    fromState: CaseState,
    toState: CaseState,
    version: nat,
    actorId: Uuid,
    correlationId: Uuid,
    occurredAt: Time,
    approvalId: Option<Uuid>,
    verificationNote: Option<string>,
    knowledgeItemId: Option<Uuid>,
    note: Option<string>)

  datatype CaseEventCommand = CaseEventCommand(
    eventId: Uuid,
    eventType: EventType,
    caseId: Uuid,
    aggregateVersion: nat,
    transitionId: Uuid,
    actorId: Uuid,
    correlationId: Uuid,
    occurredAt: Time)

  datatype TransitionOutcome = TransitionOutcome(
    snapshot: CaseSnapshot,
    transition: CaseStateTransition,
    event: CaseEventCommand)

  datatype TransitionError =
    | CaseIdentityMismatch
    | StaleVersion(expected: nat, actual: nat)
    | InvalidTransition(fromState: CaseState, toState: CaseState)
    | TransitionNotAuthorized
    | TransitionConstraint

  function AllowedTransitions(state: CaseState): set<CaseState> {
    match state
    case New => {Investigating}
    case Investigating => {Diagnosed, NeedsInformation}
    case NeedsInformation => {Investigating}
    case Diagnosed => {FixProposed}
    case FixProposed => {Confirmed}
    case Confirmed => {Resolved}
    case Resolved => {Learned}
    case Learned => {}
  }

  function EventTypeOf(state: CaseState): EventType {
    match state
    case Investigating => CaseInvestigating             // case.investigating.v1
    case Diagnosed => AnalysisCompleted                 // analysis.completed.v1
    case FixProposed => RecommendationProposed          // recommendation.proposed.v1
    case NeedsInformation => CaseNeedsInformation       // case.needs_information.v1
    case Confirmed => ApprovalGranted                   // approval.granted.v1
    case Resolved => CaseResolved                       // case.resolved.v1
    case Learned => MemoryIndexed                       // memory.indexed.v1
    case New => CaseCreated                             // case.created.v1
  }

  /** The authorization checks, in the order in which they are made. */
  predicate ActorAuthorized(command: TransitionCommand) {
    var actor := command.actor;
    if actor.kind.Model? then false
    else if command.toState in {Confirmed, Resolved} && !actor.kind.Human? then false
    else if command.toState.Confirmed? && actor.roles * CONFIRM_ROLES == {} then false
    else if command.toState.Resolved? && actor.roles * RESOLVE_ROLES == {} then false
    else if actor.kind.Human? && actor.roles * CASE_WRITE_ROLES == {} then false
    else !(command.toState.Learned? && !actor.kind.Service?)
  }

  predicate ConstraintsMet(command: TransitionCommand) {
    && (command.toState.Confirmed? ==> command.approvalId.Some?)
    && (command.toState.Resolved? ==> command.verificationNote.Some?)
    && (command.toState.Learned? ==> command.knowledgeItemId.Some?)
    && (command.toState.NeedsInformation? ==> command.note.Some?)
  }

  function ApplyTransition(snapshot: CaseSnapshot, command: TransitionCommand)
    : Result<TransitionOutcome, TransitionError>
  {
    if snapshot.caseId != command.caseId then
      Failure(CaseIdentityMismatch)
    else if snapshot.version != command.expectedVersion then
      Failure(StaleVersion(command.expectedVersion, snapshot.version))
    else if command.toState !in AllowedTransitions(snapshot.state) then
      Failure(InvalidTransition(snapshot.state, command.toState))
    else if !ActorAuthorized(command) then
      Failure(TransitionNotAuthorized)
    else if !ConstraintsMet(command) then
      Failure(TransitionConstraint)
    else
      var nextVersion := snapshot.version + 1;
      Success(TransitionOutcome(
        CaseSnapshot(snapshot.caseId, command.toState, nextVersion),
        CaseStateTransition(
          command.transitionId, snapshot.caseId, snapshot.state, command.toState, nextVersion,
          command.actor.id, command.correlationId, command.occurredAt,
          command.approvalId, command.verificationNote, command.knowledgeItemId, command.note),
        CaseEventCommand(
          command.eventId, EventTypeOf(command.toState), snapshot.caseId, nextVersion,
          command.transitionId, command.actor.id, command.correlationId, command.occurredAt)))
  }

  // ---------------------------------------------------------------- what is accepted, written out

  predicate HasAny(roles: set<CaseRole>, a: CaseRole, b: CaseRole, c: CaseRole) {
    a in roles || b in roles || c in roles
  }

  /** Who may take which step, and with what evidence, one step at a time. */
  predicate MayMove(from: CaseState, command: TransitionCommand) {
    var actor := command.actor;
    var writer := actor.kind.Human? && (HasAny(actor.roles, OrgAdmin, Operator, Approver)
                                         || PlatformAdmin in actor.roles);
    var approver := actor.kind.Human? && HasAny(actor.roles, OrgAdmin, Approver, PlatformAdmin);
    match (from, command.toState)
    case (New, Investigating) => writer || actor.kind.Service?
    case (Investigating, Diagnosed) => writer || actor.kind.Service?
    case (Investigating, NeedsInformation) => (writer || actor.kind.Service?) && command.note.Some?
    case (NeedsInformation, Investigating) => writer || actor.kind.Service?
    case (Diagnosed, FixProposed) => writer || actor.kind.Service?
    case (FixProposed, Confirmed) => approver && command.approvalId.Some?
    case (Confirmed, Resolved) => writer && command.verificationNote.Some?
    case (Resolved, Learned) => actor.kind.Service? && command.knowledgeItemId.Some?
    case _ => false
  }

  /** A step that the life cycle has, whoever asks for it. */
  predicate IsEdge(from: CaseState, to: CaseState) {
    || (from == New && to == Investigating)
    || (from == Investigating && (to == Diagnosed || to == NeedsInformation))
    || (from == NeedsInformation && to == Investigating)
    || (from == Diagnosed && to == FixProposed)
    || (from == FixProposed && to == Confirmed)
    || (from == Confirmed && to == Resolved)
    || (from == Resolved && to == Learned)
  }

  lemma EdgesAreAllowed(from: CaseState, to: CaseState)
    ensures to in AllowedTransitions(from) <==> IsEdge(from, to)
  {
    match from {
      case New =>
      case Investigating =>
      case NeedsInformation =>
      case Diagnosed =>
      case FixProposed =>
      case Confirmed =>
      case Resolved =>
      case Learned =>
    }
  }

  lemma MayMoveIsAuthorized(from: CaseState, command: TransitionCommand)
    requires IsEdge(from, command.toState)
    ensures ActorAuthorized(command) && ConstraintsMet(command) <==> MayMove(from, command)
  {
    var roles := command.actor.roles;
    assert roles * CONFIRM_ROLES != {} <==> HasAny(roles, OrgAdmin, Approver, PlatformAdmin) by {
      Overlap(roles, CONFIRM_ROLES);
    }
    assert roles * RESOLVE_ROLES != {} <==> HasAny(roles, OrgAdmin, Operator, Approver) || PlatformAdmin in roles by {
      Overlap(roles, RESOLVE_ROLES);
    }
    assert roles * CASE_WRITE_ROLES != {}
      <==> HasAny(roles, OrgAdmin, Operator, Approver) || PlatformAdmin in roles by {
      Overlap(roles, CASE_WRITE_ROLES);
    }
  }

  lemma Overlap(roles: set<CaseRole>, allowed: set<CaseRole>)
    ensures roles * allowed != {} <==> exists r :: r in roles && r in allowed
  {
    if roles * allowed != {} {
      var r :| r in roles * allowed;
      assert r in roles && r in allowed;
    }
    if exists r :: r in roles && r in allowed {
      var r :| r in roles && r in allowed;
      assert r in roles * allowed;
    }
  }

  /** A command is accepted exactly on its own case, at its version, for a step that its actor may take. */
  lemma AcceptedIff(snapshot: CaseSnapshot, command: TransitionCommand)
    ensures ApplyTransition(snapshot, command).Success?
            <==> && snapshot.caseId == command.caseId
                 && snapshot.version == command.expectedVersion
                 && MayMove(snapshot.state, command)
  {
    hide MayMove, ActorAuthorized, ConstraintsMet, AllowedTransitions;
    EdgesAreAllowed(snapshot.state, command.toState);
    if IsEdge(snapshot.state, command.toState) {
      MayMoveIsAuthorized(snapshot.state, command);
    } else if MayMove(snapshot.state, command) {
      OnlyEdges(snapshot.state, command);
    }
  }

  lemma OnlyEdges(from: CaseState, command: TransitionCommand)
    requires MayMove(from, command)
    ensures IsEdge(from, command.toState)
  {
  }

  /** The command with every piece of evidence supplied. */
  function WithEvidence(command: TransitionCommand): TransitionCommand {
    command.(approvalId := Some(0), verificationNote := Some("x"), knowledgeItemId := Some(0), note := Some("x"))
  }

  /** Which refusal a caller sees: identity before version before life cycle before authority before evidence. */
  lemma RefusedBecause(snapshot: CaseSnapshot, command: TransitionCommand)
    ensures var answer := ApplyTransition(snapshot, command); var state := snapshot.state;
            var current := snapshot.caseId == command.caseId && snapshot.version == command.expectedVersion;
            && (answer == Failure(CaseIdentityMismatch) <==> snapshot.caseId != command.caseId)
            && (answer == Failure(StaleVersion(command.expectedVersion, snapshot.version))
                <==> snapshot.caseId == command.caseId && snapshot.version != command.expectedVersion)
            && (answer == Failure(InvalidTransition(state, command.toState))
                <==> current && !IsEdge(state, command.toState))
            && (answer == Failure(TransitionNotAuthorized)
                <==> current && IsEdge(state, command.toState) && !MayMove(state, WithEvidence(command)))
            && (answer == Failure(TransitionConstraint)
                <==> current && MayMove(state, WithEvidence(command)) && !MayMove(state, command))
  {
    hide MayMove, ActorAuthorized, ConstraintsMet, AllowedTransitions, IsEdge;
    EdgesAreAllowed(snapshot.state, command.toState);
    EvidenceIsNoAuthority(command);
    if IsEdge(snapshot.state, command.toState) {
      MayMoveIsAuthorized(snapshot.state, command);
      MayMoveIsAuthorized(snapshot.state, WithEvidence(command));
    } else if MayMove(snapshot.state, WithEvidence(command)) {
      OnlyEdges(snapshot.state, WithEvidence(command));
    }
  }

  lemma EvidenceIsNoAuthority(command: TransitionCommand)
    ensures ActorAuthorized(WithEvidence(command)) == ActorAuthorized(command)
    ensures ConstraintsMet(WithEvidence(command))
  {
  }

  /** What an accepted command records: one step of the version, and the command's own data unchanged. */
  lemma AcceptedRecords(snapshot: CaseSnapshot, command: TransitionCommand)
    requires ApplyTransition(snapshot, command).Success?
    ensures var o := ApplyTransition(snapshot, command).value;
            && o.snapshot.caseId == o.transition.caseId == o.event.caseId == command.caseId
            && o.transition.fromState == snapshot.state && o.transition.toState == o.snapshot.state == command.toState
            && o.snapshot.version == o.transition.version == o.event.aggregateVersion == command.expectedVersion + 1
            && o.transition.transitionId == o.event.transitionId == command.transitionId
            && o.event.eventId == command.eventId
            && o.transition.actorId == o.event.actorId == command.actor.id
            && o.transition.correlationId == o.event.correlationId == command.correlationId
            && o.transition.occurredAt == o.event.occurredAt == command.occurredAt
            && o.transition.approvalId == command.approvalId && o.transition.note == command.note
            && o.transition.verificationNote == command.verificationNote
            && o.transition.knowledgeItemId == command.knowledgeItemId
    ensures var e := ApplyTransition(snapshot, command).value.event.eventType;
            && (command.toState == Investigating <==> e == CaseInvestigating)
            && (command.toState == Diagnosed <==> e == AnalysisCompleted)
            && (command.toState == FixProposed <==> e == RecommendationProposed)
            && (command.toState == NeedsInformation <==> e == CaseNeedsInformation)
            && (command.toState == Confirmed <==> e == ApprovalGranted)
            && (command.toState == Resolved <==> e == CaseResolved)
            && (command.toState == Learned <==> e == MemoryIndexed)
  {
    hide ActorAuthorized, ConstraintsMet;
  }
}
