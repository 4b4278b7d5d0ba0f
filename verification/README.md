# NetOps: verified model

A Dafny model of the case, delivery and artifact core of the NetOps platform, and of the
stand-alone algorithms around it.

**One step machine.** `Machine` models the tenant's database and the processes around it:
clients that read snapshots and write transitions, publisher workers that lease, hand off and
settle outbox rows, uploads that are declared and completed, scanners that append to the
processing ledger, crashes that drop leases, and a clock. Every step is one committed
transaction; a run is any sequence of enabled steps. `Tables` holds the rows, CHECKs, keys and
triggers; `CaseDomain` the pure transition rules; `CaseSpine`, `Outbox`, `Artifacts` and
`ArtifactLedger` the statements, and `CaseRecords` what the case statements write, column by
column. The invariants (`DeliveryInvariants`, `CaseInvariants`, `ArtifactInvariants`, `Invariants`,
`History`) carry the theorems over all reachable states (`DeliveryTheorems`, `LeaseTheorems`,
`CaseTheorems`, `ArtifactTheorems`, `Integrity`). `DeliveryLog` states what a history of leases and
settlements means without looking at the table.

**The code as it runs.** `Repositories` has the repositories as classes that run statement after
statement and roll back to a savepoint, each method proved equal to its specification function.
`Publisher` has the publisher worker; between any two of its transactions other processes take
arbitrary steps.

**Algorithms.** `Pagination` (case list over a keyset), `EventFeed` (replay from a cursor), `Sse`
(event stream printer and incremental parser), `TextLines` and `Redaction` (line-preserving
redactor), `CiscoIos` and `Phase2Validator` (streaming parser and peer validator), `RateLimiter`
(fixed windows with pruning) and `Clamd` (INSTREAM framing). `Base` and `Order` are shared, and
`Witnesses` holds concrete runs on which a promise fails.

`dafny verify dfyconfig.toml` checks everything.

## Assumptions

- One organization's rows. Row-level security and the `organization_id` predicates restrict every
  statement to them.
- Each statement or savepoint is one atomic step, and a savepoint is all or nothing.
- Lease tokens are fresh. All other ids are arbitrary: a repeated one violates a key, and the
  transaction fails. Theorems that need fresh ids say so.
- The machine has one global clock that never goes back, and one `lease_for`.
- A digest is the thing digested: the request fingerprint is its fields, a receipt keeps the payload.
- The later migration `20260716_06` drops the unique (case, type, version) key of case_events and
  adds a unique transition_id; the model has the schema after it.

## Where the code differs from what it promises

- An upload completion inserts an event without an actor, and no migration makes
  `case_events.actor_id` nullable. `Artifacts.CompletionNeedsNullableActor` gives the exact
  condition of one call, and `ArtifactTheorems.DeclaredSchemaCompletesNothing` what it means over
  all runs: with the declared column no upload is ever completed. The other artifact theorems are
  stated for either column and say something about a nullable one.
- `publish_once` counts a lost acknowledgement but not a lost retry. The contract of `PublishOnce`
  says that the counters add up to `leased` exactly when every raised event's lease still held its
  row just before the retry; `Witnesses.LostRetryIsUncounted` is a sweep in which one did not.
- Replay of the event feed misses an event that commits with a key below one already delivered:
  `Witnesses.FeedMissesLateEvent` shows it, and `EventFeed.GapFreeIff` says exactly when nothing
  is missed.
- With a nullable actor column a replay stops for good before the first completion event that it
  should deliver (`EventFeed.PageRaisesIff`, `EventFeed.StuckBeforeMalformedRow`); with the declared
  one it never meets any (`EventFeed.DeclaredSchemaNeverRaises`).
- A second scan verdict in one attempt is possible when rows are not stamped in commit order:
  `ArtifactLedger.SkewedClockAdmitsSecondVerdict` shows it, and `ArtifactLedger.SecondVerdictIff`
  says exactly when.
- A truncated event stream can end in a syntax error rather than silently; `Sse.TruncatedStream`
  says which cuts do what.

The rate limiter admits one call per window even when `max_requests` is not positive, which its
configuration excludes; its bound is therefore stated with `max(1, max_requests)`.

## Model

| member | source | states |
|---|---|---|
| `DeliveryTheorems.AcknowledgedOnlyWithReceipt` | services/worker/netops_worker/outbox_publisher.py:135-176 | in every reachable state of every interleaving, with crashes, each published row has a receipt, and each receipt is of exactly one committed event and carries its payload |
| `DeliveryTheorems.DrainedMeansOneReceiptPerEvent` | services/worker/netops_worker/outbox_transport.py:67-82 | when nothing is unpublished, receipts and case events correspond one to one |
| `DeliveryTheorems.PayloadMismatchUnreachable` | services/api/netops_api/application/outbox.py:175-221 | no handoff of a lease that any worker holds, however stale, can meet a receipt with another payload |
| `DeliveryTheorems.ReceiptsAreForEver` | services/api/alembic/versions/20260715_02_case_spine.py:341-403 | no run changes or removes a receipt |
| `DeliveryTheorems.SettlementFence` | services/api/netops_api/application/outbox.py:291-315 | a lease can settle its row if and only if it is the row's most recent lease and was not settled before: stale workers are fenced off |
| `DeliveryTheorems.AttemptsConserved` | services/api/netops_api/application/outbox.py:265-315 | attempt_count = retries settled + leases superseded + 1 if published or currently leased; a row is never both; locked_at and locked_by are set together |
| `DeliveryTheorems.SettledOncePublishedFinal` | services/api/netops_api/application/outbox.py:123-162 | no lease settles twice, and after publication a row is never leased or settled again |
| `DeliveryTheorems.EligibleFromReady` | services/api/netops_api/application/outbox.py:265-289 | an unpublished row is eligible exactly from max(available_at, locked_at + lease_for) on, whoever leased it |
| `LeaseTheorems.LeaseExcludes` | services/api/netops_api/application/outbox.py:265-289 | after a lease at time t each row of the batch is held by that token and no other, and anybody else can lease it exactly from t + lease_for on; the attempt is counted once |
| `LeaseTheorems.CrashForgets` | services/api/netops_api/application/outbox.py:82-85 | a crashed worker can neither hand off, acknowledge nor reschedule what it had leased; the tables, and the other leases, are as they were |
| `LeaseTheorems.LeaseHoldsWhileYoung` | services/api/netops_api/application/outbox.py:265-289 | over runs: a lease taken at t still holds in every later state before t + lease_for, whatever others do, unless its own holder settled it |
| `LeaseTheorems.RetryWaits` | services/api/netops_api/application/outbox.py:304-315 | a retried row is held by nobody and can be leased exactly from its retry time on; it carries the error code and its attempts |
| `LeaseTheorems.RetriedRowWaits` | services/api/netops_api/application/outbox.py:304-315 | over runs: it stays exactly as it is until then |
| `LeaseTheorems.PublicationIsFinal` | services/api/netops_api/application/outbox.py:291-302 | a published row carries its time, no error and no holder, and is never eligible again |
| `LeaseTheorems.UntouchedUntilReady` | services/api/netops_api/application/outbox.py:265-315 | over any run a row is unchanged until it is ready to be leased, unless its own holder settles it, and for good once it is published |
| `LeaseTheorems.BusinessColumnsImmutable` | services/api/alembic/versions/20260715_02_case_spine.py:405-437 | over any run an outbox row keeps its business columns, attempts only grow, and a publication is never taken back |
| `DeliveryTheorems.SweepMakesProgress` | services/worker/netops_worker/outbox_publisher.py:135-176 | with every unpublished row eligible, one crash-free sweep is a run that publishes min(limit, unpublished) more rows and adds no event |
| `DeliveryTheorems.SweepsDrain` | services/worker/netops_worker/outbox_publisher.py:135-176 | as many sweeps of `limit` as cover the unpublished rows are one run, and it publishes all of them; the unpublished count is the measure |
| `DeliveryTheorems.NoEventIsLost` | services/api/netops_api/application/outbox.py:265-316 | from every reachable state there is a time from which on, whatever the clock reads, ceil(n/limit) crash-free sweeps are a run that leaves nothing unpublished and one receipt for every event |
| `Outbox.BatchIsQueuePrefix` | services/api/netops_api/application/outbox.py:265-289 | a lease takes a prefix of the queue: an eligible row is left out only when the batch is full of rows that are available sooner, or as soon and created sooner, or both alike with a smaller id |
| `Outbox.BatchSize` | services/api/netops_api/application/outbox.py:92-121 | when every unpublished row is eligible, a lease takes min(limit, unpublished) of them |
| `Outbox.RecordOnceMeaning` | services/api/netops_api/application/outbox.py:175-221 | new exactly when the consumer has no receipt, replay exactly when the receipt has the same payload; afterwards there is a receipt and no earlier one changed |
| `DeliveryLog.LeasesConserved` | services/api/netops_api/application/outbox.py:265-315 | over any well-formed delivery history, leases = retries + superseded + 1 if held or published, and never both |
| `DeliveryLog.HolderIsMostRecentUnsettled` | services/api/netops_api/application/outbox.py:291-315 | the current holder of a row is the token of its most recent lease, if that is unsettled |
| `DeliveryInvariants.LeaseRespectsGuard` | services/api/alembic/versions/20260715_02_case_spine.py:405-437 | the lease statement passes the outbox mutation guard for every row |
| `DeliveryInvariants.SettlementRespectsGuard` | services/api/alembic/versions/20260715_02_case_spine.py:405-437 | so do the acknowledgement and the retry, for any lease |
| `DeliveryInvariants.HandoffNeverMismatches` | services/worker/netops_worker/outbox_transport.py:67-82 | a held lease remembers a committed event with its payload, so its handoff is new or a replay |
| `Invariants.NextKeepsInv` | services/api/alembic/versions/20260715_02_case_spine.py:405-519 | every enabled step of clients, workers, clock and uploads keeps the invariants that tie all the tables together |
| `Invariants.RunKeepsInv` | services/worker/netops_worker/outbox_publisher.py:135-176 | so does every run |
| `History.RunEvolves` | services/api/alembic/versions/20260715_02_case_spine.py:379-441 | over any run events, receipts, artifacts, transitions and ledger rows are only appended, only completion events lack an actor, cases keep their identity, asset, key and request with versions that never decrease, and every outbox row changes only as the guard allows |
| `History.RunAppends` | services/api/alembic/versions/20260715_02_case_spine.py:379-400 | over any run the audit trail is only appended to and case inputs are never changed or removed |
| `Repositories.TenantOutboxRepository.LeaseAvailable` | services/api/netops_api/application/outbox.py:92-121 | argument checks as in the source; leases exactly the batch, row by row, and returns what each row now carries; a refused call changes nothing |
| `Repositories.TenantOutboxRepository.MarkPublished` | services/api/netops_api/application/outbox.py:123-136 | publishes and unlocks if the lease is held, else raises and leaves the table as it was |
| `Repositories.TenantOutboxRepository.ScheduleRetry` | services/api/netops_api/application/outbox.py:138-162 | the safe-code check first; then reschedules and unlocks if the lease is held, else raises and leaves the table as it was |
| `Repositories.SafeCodeIff` | services/api/netops_api/application/outbox.py:23 | which strings are safe codes, character by character |
| `Repositories.LeasedEventShowsRow` | services/api/netops_api/application/outbox.py:244-258 | what a worker is handed are the columns of the row as the lease statement leaves it, under a lease that holds |
| `Repositories.TenantConsumerInbox.RecordOnce` | services/api/netops_api/application/outbox.py:175-221 | a new receipt, a silent replay, or a mismatch, decided on the stripped consumer name; an existing receipt is never replaced |
| `Repositories.TenantCaseRepository.CreateCase` | services/api/netops_api/application/cases.py:233-292 | the committed creation, the replay of an earlier one, or a failure that leaves every table as it was |
| `Repositories.TenantCaseRepository.PersistTransition` | services/api/netops_api/application/cases.py:310-348 | the committed write, or a failure (lost compare-and-swap or failing insert) that leaves every table as it was |
| `Repositories.TenantArtifactIntentRepository.Create` | services/api/netops_api/application/artifact_intents.py:90-131 | a declared upload, or a failure that changes no table |
| `Repositories.TenantArtifactIntentRepository.Complete` | services/api/netops_api/application/artifact_intents.py:133-225 | a committed completion, the answer to a repeated one, or a failure that changes no table |
| `Repositories.TenantArtifactProcessingRepository.RecordScanOutcome` | services/api/netops_api/application/artifact_processing.py:81-137 | the appended verdict row, or a failure that leaves the ledger as it was |
| `Repositories.Database.InsertEventAndOutbox` | services/api/netops_api/application/cases.py:475-515 | the event and its outbox row in order, and whether both were accepted |
| `Publisher.OthersRun` | services/worker/netops_worker/outbox_publisher.py:135-176 | whatever other processes do between two transactions is a run, and leaves this worker's leases and settlements alone |
| `Publisher.Deployment.Lease` | services/worker/netops_worker/outbox_publisher.py:143-151 | the leasing transaction is the machine's lease step; the worker remembers every leased row with its event and payload |
| `Publisher.Deployment.Handoff` | services/worker/netops_worker/outbox_transport.py:67-82 | the handoff transaction is the machine's step; unless the payload differs it leaves a receipt with the payload |
| `Publisher.OutboxPublisher.Present` | services/worker/netops_worker/outbox_transport.py:67-82 | one transport call between whatever other processes do before and after it; if it hands over, the receipt is committed and stays |
| `Publisher.OutboxPublisher.Acknowledge` | services/worker/netops_worker/outbox_publisher.py:189-197 | with other processes acting at every point between the transactions: the event has its receipt before it can be acknowledged, and the returned flag is whether this token's settlement was committed |
| `Publisher.OutboxPublisher.Reject` | services/worker/netops_worker/outbox_publisher.py:199-211 | the same for a raising transport, which may have committed the receipt before it raised |
| `Publisher.ExchangeSettles` | services/worker/netops_worker/outbox_publisher.py:158-174 | an accepted event is acknowledged; a raised one is retried under its own safe code or, without one, under transport.failed |
| `Publisher.OutboxPublisher.PublishOnce` | services/worker/netops_worker/outbox_publisher.py:135-176 | a whole sweep with arbitrary interference is exactly the prescribed run and keeps the invariants; published and retries are the accepted and the raised events whose lease still held its row when they were settled, and are its token's committed settlements; lost are the other accepted ones; the counters add up to leased if and only if for every raised event the lease still held just before its retry |
| `Witnesses.LostRetryIsUncounted` | services/worker/netops_worker/outbox_publisher.py:158-165 | a reachable state and a sweep of one raising event whose lease a rival takes over: leased is one and every counter is zero |
| `CaseTheorems.ProjectionIsFoldOfHistory` | services/api/netops_api/application/cases.py:310-348 | in every reachable state a case's transitions have versions exactly 1..version, each linked to the one before, and their fold is (state, version) |
| `CaseTheorems.CommittedWriteRecordsTrueState` | services/api/netops_api/application/cases.py:651-659 | although only the version is compared, a write that commits records as from_state the true state at that moment |
| `CaseTheorems.ReadsAreCurrent` | services/api/netops_api/application/cases.py:294-308 | a read gives the client the state and version of the case row, and nothing else changes; a missing case gives it nothing |
| `CaseTheorems.AcceptedCommandCommitsIffCurrent` | services/api/netops_api/application/cases.py:208-219 | with fresh ids, a command accepted on any snapshot ever read commits if and only if the case still has the snapshot's version; otherwise the state is unchanged |
| `CaseTheorems.KeyIsOwnedForEver` | services/api/netops_api/application/cases.py:233-292 | an idempotency key belongs to one case for ever, with the request it was created with |
| `CaseTheorems.ReplayWritesNothing` | services/api/netops_api/application/cases.py:254-260 | a replay returns the current projection for the same request, conflicts for another, and writes nothing either way |
| `CaseTheorems.OneCreationEventPerCase` | services/api/alembic/versions/20260715_02_case_spine.py:443-511 | each case has exactly one creation event, and that event exactly one outbox row that mirrors it |
| `CaseTheorems.VersionCountsStops` | services/api/netops_api/domain/cases.py:52-61 | with n entries into needs_information the version is 0 at new, 1+2n at investigating, 2n at needs_information and 2+2n .. 6+2n from diagnosed to learned |
| `CaseTheorems.ClosedCasesWereApproved` | services/api/netops_api/domain/cases.py:238-273 | a resolved or learned case has in its history a human confirmation by a confirm role with an approval and a human resolution with a note; a learned one also a service transition with a knowledge item |
| `CaseTheorems.CommittedTransitionsWereAllowed` | services/api/netops_api/domain/cases.py:238-273 | behind every committed transition is a command that its actor might give; a model never moves a case, and a human who does is an administrator, an operator or an approver |
| `CaseTheorems.CaseKeepsItsColumns` | services/api/netops_api/application/cases.py:651-659 | over any run a case keeps everything it was created with but state, version and time of change |
| `CaseTheorems.CasesAreNamed` | services/api/netops_api/application/cases.py:75-81 | in every reachable state a case has a title of at most 500 characters and a key of at most 255, each with a visible character, and no category or such a one of at most 100 |
| `CaseDomain.AcceptedIff` | services/api/netops_api/domain/cases.py:186-273 | a command is accepted if and only if it is for the snapshot's case and version and its actor may take that step with that evidence, written out step by step |
| `CaseDomain.RefusedBecause` | services/api/netops_api/domain/cases.py:186-273 | which refusal a caller sees, exactly: identity before version before life cycle before authority before evidence |
| `CaseDomain.AcceptedRecords` | services/api/netops_api/domain/cases.py:204-235 | an accepted command advances the version by one and records its own data and the event type of its target state |
| `CaseSpine.AcceptedOutcomeMeetsChecks` | services/api/alembic/versions/20260715_02_case_spine.py:190-223 | whatever apply_transition accepts satisfies every CHECK of case_transitions, although the two tests of blankness differ |
| `CaseRecords.ChecksEnforceAllButRoles` | services/api/alembic/versions/20260715_02_case_spine.py:190-223 | the CHECKs of case_transitions admit a row exactly when the domain would for an actor with every role, and required notes are not blank |
| `CaseSpine.AcceptedOutcomeCommits` | services/api/alembic/versions/20260715_02_case_spine.py:443-519 | an accepted outcome written with fresh ids commits if and only if its version is current, and then the deferred history trigger holds |
| `CaseSpine.CreationCommits` | services/api/alembic/versions/20260715_02_case_spine.py:443-515 | a creation with a free key and fresh ids commits with its creation history in place |
| `CaseRecords.FingerprintIff` | services/api/netops_api/application/cases.py:94-115 | two requests have one fingerprint exactly when title, category, severity, asset and input agree; ids, actor and time do not count |
| `CaseRecords.CreatedRows` | services/api/netops_api/application/cases.py:233-292 | a creation adds one case, one event and one outbox row and leaves every other row as it was |
| `CaseRecords.CreatedCase` | services/api/netops_api/application/cases.py:621-634 | every column of the new case |
| `CaseRecords.CreatedEvent` | services/api/netops_api/application/cases.py:475-515 | every column of its creation event and of the outbox row, which nobody has leased yet |
| `CaseRecords.CreatedInput` | services/api/netops_api/application/cases.py:455-473 | the supplied input is stored, none otherwise, and one audit row is appended |
| `CaseRecords.AdvancedProjection` | services/api/netops_api/application/cases.py:651-659 | a transition changes state, version and time of one case and nothing else in the table |
| `CaseRecords.RecordedTransition` | services/api/netops_api/application/cases.py:434-453 | every column of the transition row that is appended |
| `CaseRecords.RecordedEvent` | services/api/netops_api/application/cases.py:475-515 | every column of its event and of the outbox row |
| `CaseRecords.RecordedAudit` | services/api/netops_api/application/cases.py:517-543 | every column of the audit row that is appended |
| `CaseRecords.LostSwapReports` | services/api/netops_api/application/cases.py:426-432 | a lost compare-and-swap reports the expected and the found version, or that the case does not exist |
| `Integrity.ReachableTablesAreSound` | services/api/alembic/versions/20260715_02_case_spine.py:59-373 | in every reachable state no row of any table is an orphan, none shares a unique key, and each passes its CHECKs |
| `Integrity.Sha256Iff` | services/api/alembic/versions/20260715_02_case_spine.py:153 | which strings are digests, character by character |
| `CaseInvariants.ReplayIsLinked` | services/api/netops_api/domain/cases.py:186-235 | a history that replays has versions 1..n and linked states |
| `CaseInvariants.SwapSeesTrueState` | services/api/netops_api/application/cases.py:651-659 | a version match on a snapshot read earlier implies a state match |
| `ArtifactTheorems.ArtifactHasOneTrail` | services/api/netops_api/application/artifact_intents.py:133-225 | every artifact has exactly one completed intent, first ledger row, completion event and outbox row, all with its declared metadata |
| `ArtifactTheorems.TrailsAreOfArtifacts` | services/api/netops_api/application/artifact_intents.py:133-225 | conversely intents are completed exactly when their artifact exists, and every ledger row and completion event is of an existing artifact |
| `ArtifactTheorems.CompletingAgainChangesNothing` | services/api/netops_api/application/artifact_intents.py:145-160 | after any run, and past the deadline, completing again answers the same artifact and time and changes nothing |
| `ArtifactTheorems.RunKeepsCompleted` | services/api/netops_api/application/artifact_intents.py:384-391 | no run changes a completed intent |
| `Artifacts.CompletionIsIdempotent` | services/api/netops_api/application/artifact_intents.py:145-160 | the same for two consecutive calls with any arguments |
| `Artifacts.CompletionAnswers` | services/api/netops_api/application/artifact_intents.py:133-165 | which answer a completion gets, exactly: unknown, already completed, expired, store unavailable, or mismatch when content type, length or digest differs; one that succeeds was open and matched in all three |
| `Artifacts.CompletionRecords` | services/api/netops_api/application/artifact_intents.py:166-225 | every column of the artifact, ledger row, event, audit row and intent that a completion writes; audio is kept 30 days and a configuration 90 |
| `Artifacts.CompletionNeedsNullableActor` | services/api/netops_api/application/artifact_intents.py:408-418 | a pending, unexpired upload whose HEAD result is valid and matches, with fresh ids, is completed if and only if case_events.actor_id admits NULL, which the declared column does not |
| `ArtifactTheorems.DeclaredSchemaCompletesNothing` | services/api/alembic/versions/20260715_02_case_spine.py:241 | over all runs: while the column is NOT NULL there is never an artifact, a ledger row, a completion event or a completed intent |
| `ArtifactLedger.AttemptsAreContiguous` | services/api/alembic/versions/20260716_05_artifact_processing_ledger.py:101-149 | the attempts of an artifact are exactly 1..n, each opened by a quarantined row |
| `ArtifactLedger.LaterRowsBelongToHighestAttempt` | services/api/alembic/versions/20260716_05_artifact_processing_ledger.py:101-149 | any later row was accepted while its attempt was the highest and after its quarantined row; redacted needs verified in the same attempt |
| `ArtifactLedger.StatesOncePerAttempt` | services/api/alembic/versions/20260716_05_artifact_processing_ledger.py:87-93 | no state occurs twice in an attempt |
| `ArtifactLedger.OrderedHistoriesAreWellFormed` | services/api/alembic/versions/20260716_05_artifact_processing_ledger.py:101-149 | an attempt whose rows are stamped in commit order, whatever the others are, is a prefix of quarantined-verified-redacted, quarantined-verified-failed or quarantined-failed |
| `ArtifactLedger.RowAcceptedIff` | services/api/alembic/versions/20260716_05_artifact_processing_ledger.py:61-149 | for an attempt stamped in commit order, a row is accepted if and only if its id is new, it has a failure code exactly when failed, and it opens the next attempt or extends the highest attempt's history to one of the three |
| `ArtifactLedger.ActiveRowIsLast` | services/api/netops_api/application/artifact_processing.py:144-155 | the row that a verdict answers is the last by attempt, then time, then id |
| `ArtifactLedger.RecordedVerdict` | services/api/netops_api/application/artifact_processing.py:108-136 | every column of a verdict row: verified when clean, failed with the reason when not, in the attempt and under the correlation it answers |
| `ArtifactLedger.VerdictAcceptedIff` | services/api/netops_api/application/artifact_processing.py:81-155 | a verdict is accepted if and only if the latest row of the highest attempt is quarantined and the same verdict was not given in it |
| `ArtifactLedger.OneVerdictPerAttempt` | services/api/netops_api/application/artifact_processing.py:81-155 | if the rows of the first verdict's attempt are stamped in commit order, a second accepted verdict belongs to a later attempt |
| `ArtifactLedger.SecondVerdictIff` | services/api/netops_api/application/artifact_processing.py:144-155 | directly after a verdict a second one is accepted in the attempt if and only if that verdict was not given in it and the first was not stamped after the quarantined row it answered |
| `ArtifactLedger.SkewedClockAdmitsSecondVerdict` | services/api/netops_api/application/artifact_processing.py:144-155 | without it a second verdict can be recorded in one attempt: a concrete ledger |
| `Pagination.PageMeaning` | services/api/netops_api/application/cases.py:350-389 | a page holds at most `limit` rows, all selected and in order; it names a next cursor if and only if selected rows were left out, and those all lie beyond the cursor |
| `Pagination.PageShows` | services/api/netops_api/application/cases.py:716-740 | one page: every row in scope and as asked for, newest first and larger id first among equals, beyond the cursor |
| `Pagination.ListedUnlessExcluded` | services/api/netops_api/application/cases.py:716-740 | a case is listed unless its asset is outside the allow-list, its state or severity is another, or no text matches |
| `Pagination.ListRefusedIff` | services/api/netops_api/application/cases.py:361-366 | which calls are refused, exactly |
| `Pagination.UnmodifiedRowsAppearOnce` | services/api/netops_api/application/cases.py:716-740 | following next_cursor to the end, with any table and limit at each page, returns every matching row that is not modified during the walk exactly once |
| `Pagination.WalkDescends` | services/api/netops_api/application/cases.py:716-740 | the pages of a walk, put together, are strictly descending in (updated_at, id), and every returned row matched the filter in some table of the walk |
| `Pagination.NonMatchingRowsNeverAppear` | services/api/netops_api/application/cases.py:716-740 | a case that matches in no table of the walk is never returned |
| `Pagination.FrozenWalkIsSortedTable` | services/api/netops_api/application/cases.py:716-740 | on a table that does not change, the pages together are the matching rows sorted by (updated_at, id) descending |
| `Pagination.FrozenPagesNonEmpty` | services/api/netops_api/application/cases.py:374-389 | on such a table no page is empty while a row matches |
| `Pagination.FrozenWalkEnds` | services/api/netops_api/application/cases.py:374-389 | on such a table following next_cursor ends: a walk exists and has PageCount pages |
| `Pagination.PageCountIsCeiling` | services/api/netops_api/application/cases.py:374-389 | PageCount is max(1, ceil(n / limit)) |
| `Pagination.NextLeavesFewer` | services/api/netops_api/application/cases.py:374-389 | a page names a next cursor if and only if more than `limit` rows are selected, and exactly `limit` fewer are selected beyond it |
| `Pagination.ReachableCasesAreKeyed` | services/api/alembic/versions/20260715_02_case_spine.py:59-106 | the case table of every reachable state is keyed by case id, as a walk assumes |
| `EventFeed.ReplayDeliversPrefix` | services/api/netops_api/application/event_feed.py:54-78 | if new visible events sort after what was delivered, resumed reads with any limits and any commits between them deliver a prefix of the visible history in (occurred_at, id) order, and all of it once a page is short |
| `EventFeed.GapFreeIff` | services/api/netops_api/application/event_feed.py:54-78 | while history is only appended to, a replay delivers a prefix of the visible history if and only if between any two reads new visible events sort after what was delivered; otherwise a visible event is missed although a later one was delivered |
| `EventFeed.ReplayCanContinue` | services/api/netops_api/application/event_feed.py:71-75 | whatever the timestamps of events committed meanwhile, a client that resumes from the last event it was given is never told that its cursor is not available; it gets its page unless a row of the page cannot be converted |
| `EventFeed.PageDelivers` | services/api/netops_api/application/event_feed.py:116-161 | one page: every event in scope, in order of time and id, after the cursor |
| `EventFeed.PageLeavesOut` | services/api/netops_api/application/event_feed.py:116-161 | an event in scope is left out only when it is not after the cursor or the page is full of earlier ones |
| `EventFeed.ReadRefusedIff` | services/api/netops_api/application/event_feed.py:62-75 | which reads are refused, exactly |
| `EventFeed.RunKeepsHistory` | services/api/netops_api/application/event_feed.py:54-78 | a replay whose databases are states along one run of the machine meets the hypotheses of these theorems: history is kept and stays visible |
| `EventFeed.PageRaisesIff` | services/api/netops_api/application/event_feed.py:90-100 | in every reachable state a page raises if and only if it holds a completion event, whose actor is NULL |
| `EventFeed.StuckBeforeMalformedRow` | services/api/netops_api/application/event_feed.py:54-78 | when the next event has no actor, the read raises at every limit: the replay stops before it |
| `EventFeed.DeclaredSchemaNeverRaises` | services/api/netops_api/application/event_feed.py:90-100 | while the actor column is NOT NULL, no page raises in any reachable state |
| `EventFeed.ReplayAscends` | services/api/netops_api/application/event_feed.py:148-162 | whatever the timestamps of new commits, a replay never repeats an event or goes back |
| `EventFeed.LateEventIsNeverDelivered` | services/api/netops_api/application/event_feed.py:148-162 | an event that commits with a key below one already delivered is never delivered, however the replay goes on; if it is visible, what is delivered has a gap and is no prefix of the history |
| `Witnesses.FeedMissesLateEvent` | services/api/netops_api/application/event_feed.py:148-162 | two reachable states and a replay of two reads that misses a visible event |
| `EventFeed.VisibleEventsStay` | services/api/netops_api/application/event_feed.py:116-119 | steps that only append history never hide or move a visible event |
| `Sse.PrintedStreamRoundTrips` | services/api/netops_api/api/events.py:112-125 | decoding the printed stream yields exactly the printed events in order and leaves no residue |
| `Sse.StreamCaseEvents` | packages/api-client/src/generated.ts:279-329 | the nested loops yield what the concatenated text decodes to, wherever it was cut into chunks |
| `Sse.TruncatedStream` | packages/api-client/src/generated.ts:305-329 | a stream cut within a frame yields the complete frames; then nothing while the data line has not begun, a syntax error while the data is partial, and the event once the data is whole |
| `Sse.SplitConcat` | packages/api-client/src/generated.ts:305-324 | frames that are complete stay complete when more text arrives; only the residue is carried over |
| `Sse.ParseCaseEventFrame` | packages/api-client/src/generated.ts:355-372 | the line-by-line assignments give the last id, the last event and all data lines |
| `Sse.FrameMeaning` | packages/api-client/src/generated.ts:355-372 | a frame is an event exactly when it has an id, its last event line says case and it has data; the last id counts |
| `Sse.JoinedLinesSplit` | packages/api-client/src/generated.ts:370 | the data lines of a frame are the lines of its data |
| `Redaction.RedactCiscoConfig` | services/api/netops_api/ingestion/redaction.py:159-216 | the single pass with its open-block flag redacts line i whole exactly when it begins a key or some earlier BEGIN has no END between it and line i-1, applies the patterns in order to every other line, and reports the recorded matches |
| `Redaction.RedactionKeepsLineStructure` | services/api/netops_api/ingestion/redaction.py:159-186 | splitting the output again gives the same number of lines with the same endings in order, each with its redacted body |
| `Redaction.WholeLineShowsNothing` | services/api/netops_api/ingestion/redaction.py:242-244 | a line of a private key comes out as its indentation and the literal marker, nothing else |
| `Redaction.SubstituteWeaves` | services/api/netops_api/ingestion/redaction.py:188-192 | substitution keeps exactly the text outside the matched spans, in order, with one marker in the place of each |
| `Redaction.PatternWork` | services/api/netops_api/ingestion/redaction.py:219-225 | each pattern weaves its rule's literal marker into what the patterns before it left |
| `Redaction.MarkersAre` | services/api/netops_api/ingestion/redaction.py:12-22 | the literal marker of every rule |
| `Redaction.PemMarkers` | services/api/netops_api/ingestion/redaction.py:149-156 | which lines begin or end a private key: the PEM markers, with or without an algorithm, white space at the ends and letter case apart |
| `Redaction.PrivateKeyLinesAreWhole` | services/api/netops_api/ingestion/redaction.py:176-186 | a line counts for the private-key rule if and only if it was replaced whole |
| `Redaction.UncountedLinesAreCopied` | services/api/netops_api/ingestion/redaction.py:188-202 | a line that is not counted as redacted is copied unchanged |
| `Redaction.ReportIsConsistent` | services/api/netops_api/ingestion/redaction.py:204-216 | for every reported rule: its line count is the size of its line set and at most redacted_line_count, which is at most the source lines; private-key occurrences <= lines, inline-rule lines <= occurrences |
| `Redaction.ReportCounts` | services/api/netops_api/ingestion/redaction.py:204-216 | the source line count, and each rule's occurrences as the sum over its matches; the private-key rule's are the BEGIN lines |
| `Redaction.ReportIsSorted` | services/api/netops_api/ingestion/redaction.py:204-215 | the report lists its rules by strictly ascending id |
| `Redaction.RedactedLinesAreUnion` | services/api/netops_api/ingestion/redaction.py:204-216 | redacted_line_count is the size of the union of the reported rules' line sets |
| `Redaction.Tally.RecordMatch` | services/api/netops_api/ingestion/redaction.py:228-239 | adds the line to the rule's set and to the redacted lines, and the occurrences to the rule's count |
| `TextLines.SplitIsSplit` | services/api/netops_api/ingestion/redaction.py:247-252 | splitting loses nothing, and every line is a body without breaks and one ending |
| `TextLines.JoinedLinesSplitBack` | services/api/netops_api/ingestion/redaction.py:247-252 | lines of that shape, no lone CR before a lone LF, come back from the text they are joined to |
| `CiscoIos.ParseCiscoIosConfig` | services/api/netops_api/parsers/cisco_ios/parser.py:142-214 | one pass with one open builder computes what the text says rule by rule: each block's settings and peers are those of the lines it owns, with the globals and the warnings in line order |
| `CiscoIos.OwnerMeaning` | services/api/netops_api/parsers/cisco_ios/parser.py:166-191 | the owner of a line is the last significant line without indentation before it, if that line declares an association |
| `CiscoIos.ProfileIff` | services/api/netops_api/parsers/cisco_ios/parser.py:24 | a profile declaration is exactly the four words of the grammar |
| `CiscoIos.CryptoMapIff` | services/api/netops_api/parsers/cisco_ios/parser.py:25-28 | a crypto map declaration is crypto, map or dynamic-map, a name and a sequence number, and may go on |
| `CiscoIos.GlobalLifetimeIff` | services/api/netops_api/parsers/cisco_ios/parser.py:29-33 | a global lifetime is exactly six words, with a unit and a value |
| `CiscoIos.SetLifetimeIff` | services/api/netops_api/parsers/cisco_ios/parser.py:34-38 | a block lifetime is exactly five words, with a unit and a value |
| `CiscoIos.SetPeerIff` | services/api/netops_api/parsers/cisco_ios/parser.py:39 | a peer command is set peer and an address, and may go on |
| `CiscoIos.LifetimePrefixIff` | services/api/netops_api/parsers/cisco_ios/parser.py:40-43 | the four ways in which a line starts like a lifetime command, well formed or not |
| `CiscoIos.UnitIff` | services/api/netops_api/parsers/cisco_ios/parser.py:29-38 | which word is which unit |
| `CiscoIos.DeclarationNames` | services/api/netops_api/parsers/cisco_ios/parser.py:120-139 | what a declaration names: kind, name and, for a map, the number written in decimal |
| `CiscoIos.LifetimeValues` | services/api/netops_api/parsers/cisco_ios/parser.py:77-117 | a positive decimal value is a setting on its line; zero and negative ones are warnings |
| `CiscoIos.LifetimeNonsense` | services/api/netops_api/parsers/cisco_ios/parser.py:77-117 | a value that is no number, and a command of the wrong shape, are warnings |
| `CiscoIos.NumbersReadBack` | services/api/netops_api/parsers/cisco_ios/parser.py:98-101 | a number written in decimal, with either sign or none, is read back |
| `CiscoIos.UnderscoresSeparate` | services/api/netops_api/parsers/cisco_ios/parser.py:98-101 | one underscore between digits is skipped; doubled, leading or trailing it makes the text no number |
| `CiscoIos.TooManyDigits` | services/api/netops_api/parsers/cisco_ios/parser.py:98-101 | digits alone are a number unless there are more than 4300 of them |
| `CiscoIos.WordsOfLine` | services/api/netops_api/parsers/cisco_ios/parser.py:66-74 | a line is cut into its words wherever blanks separate them; the indentation is the blanks before the first |
| `CiscoIos.SignificantIff` | services/api/netops_api/parsers/cisco_ios/parser.py:163-168 | a line counts unless it is blank or starts with an exclamation mark; it is top level exactly without indentation |
| `CiscoIos.ReverseScanFindsLastLine` | services/api/netops_api/parsers/cisco_ios/models.py:78-84 | the setting found by the reverse scan is the one on the last line of the block, or of the globals, that sets the unit; none is found only if no line sets it |
| `Phase2Validator.ValidatePhase2Lifetime` | services/api/netops_api/validators/cisco_ios_ipsec.py:123-243 | one finding for each local association in order, or the single not-applicable one |
| `Phase2Validator.FindingTable` | services/api/netops_api/validators/cisco_ios_ipsec.py:72-243 | status, severity, explanation, values and evidence of every finding, decided by the peer, the pairing and the two lifetimes in this order |
| `Phase2Validator.PairingIff` | services/api/netops_api/validators/cisco_ios_ipsec.py:95-120 | a pairing is accepted exactly when the map names an association and the peer has exactly one of that name |
| `Phase2Validator.FindingCitesDecidingLines` | services/api/netops_api/validators/cisco_ios_ipsec.py:31-44 | from text to finding: a PASS or FAIL cites one line of each text, each the line that decides its block's lifetime, with exactly the values on those lines, and the two blocks are paired by the supplied map |
| `Phase2Validator.PairingLeadsBack` | services/api/netops_api/validators/cisco_ios_ipsec.py:95-120 | seen from the peer with the inverse map, a pairing leads back if and only if the local identifier is unique |
| `Phase2Validator.SwapMirrorsFinding` | services/api/netops_api/validators/cisco_ios_ipsec.py:123-243 | swapping local and peer keeps the status and swaps observed, expected and the evidence |
| `RateLimiter.FixedWindowRateLimiter.Check` | services/api/netops_api/core/rate_limit.py:30-43 | prunes, decides on the window of the key and records the request: the new map and the answer of one call |
| `RateLimiter.FixedWindowRateLimiter.Prune` | services/api/netops_api/core/rate_limit.py:45-52 | removes exactly the expired windows |
| `RateLimiter.PruningIsInvisible` | services/api/netops_api/core/rate_limit.py:45-52 | for clock-ordered calls the pruned map answers every call as a limiter that never prunes and sees only that key |
| `RateLimiter.AdmissionsBounded` | services/api/netops_api/core/rate_limit.py:30-43 | any half-open interval of window_seconds admits at most 2 * max(1, max_requests) - 1 calls per key |
| `RateLimiter.BoundIsReached` | services/api/netops_api/core/rate_limit.py:30-43 | for every max_requests and every positive window some clock-ordered calls reach that bound |
| `RateLimiter.OnlyLiveWindowsRetained` | services/api/netops_api/core/rate_limit.py:45-52 | after a call every window in the map is still running |
| `RateLimiter.WaitingHelps` | services/api/netops_api/core/rate_limit.py:39-41 | a refused key that waits retry_after, whatever other keys do meanwhile, is admitted, and more than a second earlier it would be refused again; 1 <= retry_after <= window_seconds + 1 |
| `Clamd.Scan` | services/worker/netops_worker/clamav.py:87-93 | CLEAN implies that the whole file, within the limit, and the terminator were sent and that the reply ends in `: OK`; a malware verdict that it ends in ` FOUND`; without failures each verdict is given exactly then, and any failure is UNAVAILABLE or that same verdict |
| `Clamd.ScanStream` | services/worker/netops_worker/clamav.py:95-110 | what has been sent is always a part of the complete conversation, and of a file over the limit never more than frames; an error is returned only after a failed read, send or receive |
| `Clamd.ReadResponse` | services/worker/netops_worker/clamav.py:113-123 | however the reply is fragmented, the result is its prefix before the first NUL if that lies within 4096 bytes, else an error |
| `Clamd.VerdictMeaning` | services/worker/netops_worker/clamav.py:126-133 | which verdict a file and a reply get, on the bytes of the reply |
| `Clamd.ResponseMeaning` | services/worker/netops_worker/clamav.py:126-133 | a response is clean exactly when it ends in `: OK`, malware exactly when it ends in ` FOUND` after another word, white space apart, and no verdict otherwise |
| `Clamd.CommandText` | services/worker/netops_worker/clamav.py:25-101 | the command in ASCII, the chunk size and the reply limit |
| `Clamd.LengthRoundTrips` | services/worker/netops_worker/clamav.py:106 | a frame length is four bytes in network order and is read back |
| `Clamd.ConversationDecodes` | services/worker/netops_worker/clamav.py:101-108 | after the command, decoding the 4-byte big-endian frames recovers exactly the chunks of the file and its end |
| `Clamd.OversizedNeverTerminated` | services/worker/netops_worker/clamav.py:102-107 | a file over the limit is never read as terminated, wherever the scan stopped |
| `Clamd.PartNeverTerminates` | services/worker/netops_worker/clamav.py:102-107 | no part of the frames of non-empty chunks is read as terminated |

## Left out

- DeliveryTheorems.NoEventIsLost: speaks of crash-free sweeps without interference; that such sweeps are ever scheduled is not modelled.
- Invariants.NextKeepsInv: row locks, SKIP LOCKED and advisory locks are not modelled, because every statement is one atomic step.
- Outbox.BatchIsQueuePrefix: the order in which the leased rows are returned is not promised by the source (RETURNING has no ORDER BY), and no per-case delivery order is claimed.
- Pagination.UnmodifiedRowsAppearOnce: `ILIKE` and the text form of ids are an arbitrary predicate; an invalid severity cannot be written in the model's type.
- EventFeed.ReplayDeliversPrefix: pages are the ordered keys that identify the events; of the conversion of their columns only the actor's can fail and is modelled.
- Sse.StreamCaseEvents: text is characters, so UTF-8 decoding across chunks is left out; `JSON.parse` is a predicate that says which data lines are JSON, and event data is its text.
- Sse.TruncatedStream: assumes that no proper prefix of an event's data is itself JSON, as holds for an object.
- Redaction.RedactCiscoConfig: the inline patterns are arbitrary match finders, so which texts count as secrets is not modelled; idempotence does not hold in general and is not claimed.
- TextLines.SplitIsSplit: only LF, CR and CRLF break lines; the other breaks of `str.splitlines` are outside the alphabet.
- CiscoIos.ParseCiscoIosConfig: whitespace is space and tab and digits are ASCII; sequence numbers too long for `int()` are left out, and a warning carries its facts rather than its sentence.
- Phase2Validator.ValidatePhase2Lifetime: rule id, rule version and unit are constants of every result and left out; an identifier is the triple that its text encodes.
- RateLimiter.AdmissionsBounded: assumes calls ordered by the clock they read; the source reads it outside its lock. The clock is a real number, not a float.
- Clamd.Scan: the adapter's settings, timeouts and address are left out; connecting, reading, sending and receiving may each fail.
- Upper length limits of stored text columns, the asset foreign key, and timezone checks.
- Safe-code alphabets: the ledger's CHECK does not admit `:` where the application does; ledger codes are not constrained in the model.
- HTTP routes, authentication and session code, the web interface, object storage, Temporal workflows and telemetry: input and output around the modelled core.
- Config validators other than the Phase 2 lifetime rule, the configuration preview and the client generator are not modelled.
