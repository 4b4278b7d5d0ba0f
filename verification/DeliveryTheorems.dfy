/** What the outbox guarantees in every reachable state of every interleaving. */
module DeliveryTheorems {
  import opened Base
  import opened Tables
  import opened CaseSpine
  import opened Outbox
  import opened Machine
  import opened DeliveryLog
  import opened DeliveryInvariants
  import opened Invariants
  import opened History

  /** A state that some run leads to, from empty tables and with any configuration. */
  ghost predicate Reachable(s: System) {
    exists leaseFor: Time, consumer: string, required: bool, clock: Time, steps: seq<Step> ::
      IsRun(Init(leaseFor, consumer, required, clock), steps)
      && Run(Init(leaseFor, consumer, required, clock), steps) == s
  }

  lemma ReachableInv(s: System)
    requires Reachable(s)
    ensures Inv(s)
  {
    hide Inv;
    var leaseFor: Time, consumer: string, required: bool, clock: Time, steps: seq<Step> :|
      IsRun(Init(leaseFor, consumer, required, clock), steps)
      && Run(Init(leaseFor, consumer, required, clock), steps) == s;
    InitInv(leaseFor, consumer, required, clock);
    RunKeepsInv(Init(leaseFor, consumer, required, clock), steps);
  }

  // ---------------------------------------------------------------- exactly-once effect

  function ReceiptIds(inbox: InboxTable): set<Uuid> {
    set k | k in inbox :: k.eventId
  }

  /** Nothing is acknowledged without its receipt, and a receipt is of one committed event, unchanged. */
  lemma AcknowledgedOnlyWithReceipt(s: System)
    requires Reachable(s)
    ensures forall o :: o in s.db.outbox && s.db.outbox[o].publishedAt.Some? ==>
      var k := InboxKey(s.consumer, s.db.outbox[o].caseEventId);
      k in s.db.inbox && s.db.inbox[k].payload == s.db.outbox[o].payload
    ensures forall k :: k in s.db.inbox ==>
      k.consumer == s.consumer && k.eventId in s.db.events && s.db.inbox[k].payload == s.db.events[k.eventId].payload
  {
    ReachableInv(s);
    hide DeliveriesMatch, HoldersInformed, CaseInv, ArtifactInv;
    forall o | o in s.db.outbox && s.db.outbox[o].publishedAt.Some?
      ensures var k := InboxKey(s.consumer, s.db.outbox[o].caseEventId);
              k in s.db.inbox && s.db.inbox[k].payload == s.db.outbox[o].payload
    {
      assert Mirrors(s.db.outbox[o], s.db.events[s.db.outbox[o].caseEventId]);
    }
  }

  lemma DrainedKeys(consumer: string, events: EventTable, outbox: OutboxTable, inbox: InboxTable)
    requires OutboxMirrorsEvents(events, outbox) && ReceiptsMatch(consumer, events, outbox, inbox)
    requires Unpublished(outbox) == {}
    ensures inbox.Keys == set e | e in events.Keys :: InboxKey(consumer, e)
    ensures ReceiptIds(inbox) == events.Keys
  {
    forall e | e in events
      ensures InboxKey(consumer, e) in inbox
    {
      var o :| o in outbox && outbox[o].caseEventId == e;
      assert o !in Unpublished(outbox);
    }
    assert forall e :: e in events ==> InboxKey(consumer, e).eventId == e;
  }

  /** Once nothing is unpublished, receipts and case events correspond one to one. */
  lemma DrainedMeansOneReceiptPerEvent(s: System)
    requires Reachable(s) && Unpublished(s.db.outbox) == {}
    ensures ReceiptIds(s.db.inbox) == s.db.events.Keys
    ensures |s.db.inbox.Keys| == |s.db.events.Keys|
  {
    ReachableInv(s);
    hide OutboxMirrorsEvents, ReceiptsMatch, DeliveriesMatch, HoldersInformed, CaseInv, ArtifactInv;
    DrainedKeys(s.consumer, s.db.events, s.db.outbox, s.db.inbox);
    KeysCount(s.consumer, s.db.events.Keys);
  }

  lemma KeysCount(consumer: string, ids: set<Uuid>)
    ensures |set e | e in ids :: InboxKey(consumer, e)| == |ids|
  {
    if ids != {} {
      var x :| x in ids;
      KeysCount(consumer, ids - {x});
      assert (set e | e in ids :: InboxKey(consumer, e))
             == (set e | e in ids - {x} :: InboxKey(consumer, e)) + {InboxKey(consumer, x)};
    }
  }

  /** No handoff is ever refused for a changed payload. */
  lemma PayloadMismatchUnreachable(s: System, lease: OutboxLease)
    requires Reachable(s) && lease in s.held
    ensures !RecordOnce(s.db.inbox, HandoffKey(s, lease), s.held[lease].payload, s.clock).1.PayloadMismatch?
  {
    ReachableInv(s);
    hide DeliveriesMatch, CaseInv, ArtifactInv;
    HandoffNeverMismatches(s, lease);
  }

  /** A receipt, once written, is the receipt of its event for ever. */
  lemma ReceiptsAreForEver(s: System, steps: seq<Step>, k: InboxKey)
    requires IsRun(s, steps) && k in s.db.inbox
    ensures k in Run(s, steps).db.inbox && Run(s, steps).db.inbox[k] == s.db.inbox[k]
  {
    RunEvolves(s, steps);
    assert Kept(s.db.inbox, Run(s, steps).db.inbox);
  }

  // ---------------------------------------------------------------- fencing and conservation

  /** A lease can be settled exactly when it is its row's most recent lease and was not settled yet. */
  lemma SettlementFence(s: System, lease: OutboxLease)
    requires Reachable(s) && lease.outboxId in s.db.outbox
    ensures Holds(s.db.outbox, lease)
            <==> MostRecentToken(s.log, lease.outboxId) == Some(lease.token)
                 && !Settled(s.log, lease.outboxId, lease.token)
  {
    ReachableInv(s);
    hide OutboxMirrorsEvents, ReceiptsMatch, HoldersInformed, CaseInv, ArtifactInv;
    assert RowMatches(s.db.outbox[lease.outboxId], Fold(s.log, lease.outboxId));
    HolderIsMostRecentUnsettled(s.log, lease.outboxId, lease.token);
    LeasesConserved(s.log, lease.outboxId);
  }

  /** attempt_count = retries settled + leases superseded + 1 if published or currently locked. */
  lemma AttemptsConserved(s: System, o: Uuid)
    requires Reachable(s) && o in s.db.outbox
    ensures var row := s.db.outbox[o]; var life := Fold(s.log, o);
            && row.attemptCount
               == life.retries + life.superseded + (if row.publishedAt.Some? || row.lockedBy.Some? then 1 else 0)
            && !(row.publishedAt.Some? && row.lockedBy.Some?)
            && row.lockedAt.Some? == row.lockedBy.Some?
  {
    ReachableInv(s);
    hide OutboxMirrorsEvents, ReceiptsMatch, HoldersInformed, CaseInv, ArtifactInv;
    assert RowMatches(s.db.outbox[o], Fold(s.log, o));
    LeasesConserved(s.log, o);
  }

  /** No lease is settled twice, and nothing is delivered or leased after publication. */
  lemma SettledOncePublishedFinal(s: System, i: nat, j: nat)
    requires Reachable(s) && i < j < |s.log|
    ensures !s.log[i].Leased? && s.log[j].outboxId == s.log[i].outboxId && s.log[j].token == s.log[i].token
            ==> s.log[j].Leased?
    ensures s.log[i].Published? ==> s.log[j].outboxId != s.log[i].outboxId
  {
    ReachableInv(s);
    hide OutboxMirrorsEvents, ReceiptsMatch, HoldersInformed, CaseInv, ArtifactInv;
    if !s.log[i].Leased? && s.log[j].outboxId == s.log[i].outboxId && s.log[j].token == s.log[i].token {
      SettledAtMostOnce(s.log, i, j);
    }
    if s.log[i].Published? {
      PublishedIsFinal(s.log, i, j);
    }
  }

  // ---------------------------------------------------------------- no event is lost

  /** Everything unpublished can be leased now. */
  ghost predicate AllEligible(s: System) {
    forall o :: o in Unpublished(s.db.outbox) ==> Eligible(s.db.outbox[o], s.clock, s.leaseFor)
  }

  /** From this time on the row is eligible, if it is unpublished. */
  function ReadyAt(row: OutboxRow, leaseFor: Time): Time {
    if row.lockedAt.Some? && row.availableAt < row.lockedAt.value + leaseFor
    then row.lockedAt.value + leaseFor
    else row.availableAt
  }

  /** An unpublished row is eligible exactly from then on, whoever leased it and crashed. */
  lemma EligibleFromReady(s: System, o: Uuid, now: Time)
    requires o in Unpublished(s.db.outbox)
    ensures Eligible(s.db.outbox[o], now, s.leaseFor) <==> ReadyAt(s.db.outbox[o], s.leaseFor) <= now
  {
  }

  lemma LateTimeExists(outbox: OutboxTable, leaseFor: Time, clock: Time, ids: set<Uuid>)
    returns (now: Time)
    requires ids <= outbox.Keys
    ensures now >= clock
    ensures forall o :: o in ids ==> ReadyAt(outbox[o], leaseFor) <= now
  {
    if ids == {} {
      now := clock;
    } else {
      var x :| x in ids;
      now := LateTimeExists(outbox, leaseFor, clock, ids - {x});
      if now < ReadyAt(outbox[x], leaseFor) {
        now := ReadyAt(outbox[x], leaseFor);
      }
      assert forall o :: o in ids ==> o == x || o in ids - {x};
    }
  }

  /** What one crash-free worker does with a batch it leased. */
  function BatchSteps(batch: seq<Uuid>, token: Token): seq<Step> {
    if batch == [] then []
    else [HandoffStep(OutboxLease(batch[0], token)), PublishStep(OutboxLease(batch[0], token))]
         + BatchSteps(batch[1..], token)
  }

  function SweepSteps(s: System, token: Token, limit: nat): seq<Step> {
    [LeaseStep(token, limit)] + BatchSteps(Batch(s.db.outbox, s.clock, s.leaseFor, limit), token)
  }

  ghost predicate Deliverable(s: System, batch: seq<Uuid>, token: Token) {
    && (forall i, j :: 0 <= i < j < |batch| ==> batch[i] != batch[j])
    && (forall i :: 0 <= i < |batch| ==>
          OutboxLease(batch[i], token) in s.held && Holds(s.db.outbox, OutboxLease(batch[i], token)))
  }

  /** What a settled batch leaves: its rows published, the others untouched. */
  ghost predicate BatchSettled(s: System, s': System, batch: seq<Uuid>) {
    && s'.clock == s.clock && s'.leaseFor == s.leaseFor && s'.tokens == s.tokens
    && s'.db.outbox.Keys == s.db.outbox.Keys
    && s'.db.events == s.db.events
    && forall o :: o in s.db.outbox ==>
         if o in batch then s'.db.outbox[o].publishedAt.Some? else s'.db.outbox[o] == s.db.outbox[o]
  }

  /** Handing over and then acknowledging one leased row. */
  function Delivered(s: System, lease: OutboxLease): System
    requires lease in s.held
  {
    StepPublish(StepHandoff(s, lease), lease)
  }

  predicate CanAcknowledge(s: System, lease: OutboxLease) {
    && lease in s.held
    && var mid := StepHandoff(s, lease);
       lease in mid.held && mid.held[lease].handedOff
  }

  lemma DeliverOne(s: System, lease: OutboxLease)
    requires Inv(s) && lease in s.held && Holds(s.db.outbox, lease)
    ensures CanAcknowledge(s, lease)
    ensures BatchSettled(s, Delivered(s, lease), [lease.outboxId])
    ensures Delivered(s, lease).held.Keys == s.held.Keys - {lease}
  {
    hide DeliveriesMatch, CaseInv, ArtifactInv, OutboxMirrorsEvents, ReceiptsMatch, HoldersInformed;
    HandoffNeverMismatches(s, lease);
  }

  lemma SettledOneThenRest(s: System, mid: System, s': System, batch: seq<Uuid>)
    requires batch != [] && BatchSettled(s, mid, batch[..1]) && BatchSettled(mid, s', batch[1..])
    requires forall i, j :: 0 <= i < j < |batch| ==> batch[i] != batch[j]
    ensures BatchSettled(s, s', batch)
  {
    assert batch == batch[..1] + batch[1..];
    assert batch[0] !in batch[1..];
    assert batch[..1] == [batch[0]];
  }

  lemma DeliverableRest(s: System, mid: System, batch: seq<Uuid>, token: Token)
    requires batch != [] && Deliverable(s, batch, token)
    requires BatchSettled(s, mid, [batch[0]]) && mid.held.Keys == s.held.Keys - {OutboxLease(batch[0], token)}
    ensures Deliverable(mid, batch[1..], token)
  {
    forall i | 0 <= i < |batch[1..]|
      ensures OutboxLease(batch[1..][i], token) in mid.held
      ensures Holds(mid.db.outbox, OutboxLease(batch[1..][i], token))
    {
      assert batch[1..][i] == batch[i + 1] && batch[i + 1] != batch[0];
    }
  }

  lemma TwoSteps(s: System, lease: OutboxLease, rest: seq<Step>)
    requires CanAcknowledge(s, lease) && IsRun(Delivered(s, lease), rest)
    ensures var steps := [HandoffStep(lease), PublishStep(lease)] + rest;
            IsRun(s, steps) && Run(s, steps) == Run(Delivered(s, lease), rest)
  {
    hide StepHandoff, StepPublish;
    var mid := StepHandoff(s, lease);
    var steps := [HandoffStep(lease), PublishStep(lease)] + rest;
    assert Next(s, steps[0]) == mid && Next(mid, steps[1]) == StepPublish(mid, lease);
    assert steps[1..][1..] == rest && steps[1..][0] == PublishStep(lease);
    assert IsRun(mid, steps[1..]) && Run(mid, steps[1..]) == Run(StepPublish(mid, lease), rest);
  }

  lemma DeliverKeepsInv(s: System, lease: OutboxLease)
    requires Inv(s) && CanAcknowledge(s, lease)
    ensures Inv(Delivered(s, lease))
  {
    hide Inv, StepHandoff, StepPublish;
    HandoffKeepsInv(s, lease);
    SettleStepKeepsInv(StepHandoff(s, lease), PublishStep(lease));
  }

  lemma FirstOfBatch(s: System, batch: seq<Uuid>, token: Token)
    requires batch != [] && Deliverable(s, batch, token)
    ensures OutboxLease(batch[0], token) in s.held && Holds(s.db.outbox, OutboxLease(batch[0], token))
    ensures forall i, j :: 0 <= i < j < |batch| ==> batch[i] != batch[j]
  {
  }

  lemma NothingToSettle(s: System, token: Token)
    ensures IsRun(s, BatchSteps([], token)) && BatchSettled(s, Run(s, BatchSteps([], token)), [])
  {
  }

  /** A crash-free worker that holds its batch publishes all of it. */
  lemma {:induction false} BatchIsPublished(s: System, batch: seq<Uuid>, token: Token)
    requires Inv(s) && Deliverable(s, batch, token)
    ensures IsRun(s, BatchSteps(batch, token))
    ensures BatchSettled(s, Run(s, BatchSteps(batch, token)), batch)
    decreases |batch|
  {
    hide Inv, Delivered, CanAcknowledge, Deliverable, BatchSettled, IsRun, Run, Holds;
    if batch == [] {
      NothingToSettle(s, token);
    } else {
      var lease := OutboxLease(batch[0], token);
      FirstOfBatch(s, batch, token);
      DeliverOne(s, lease);
      DeliverKeepsInv(s, lease);
      var mid := Delivered(s, lease);
      DeliverableRest(s, mid, batch, token);
      BatchIsPublished(mid, batch[1..], token);
      TwoSteps(s, lease, BatchSteps(batch[1..], token));
      assert batch[..1] == [batch[0]];
      SettledOneThenRest(s, mid, Run(s, BatchSteps(batch, token)), batch);
    }
  }

  // ---------------------------------------------------------------- sweeps

  /** One sweep: lease a batch, then hand over and acknowledge each of its rows. */
  lemma SweepPublishesBatch(s: System, token: Token, limit: nat)
    requires Inv(s) && token !in s.tokens && 1 <= limit <= 100
    ensures IsRun(s, SweepSteps(s, token, limit))
    ensures var batch := Batch(s.db.outbox, s.clock, s.leaseFor, limit);
            BatchSettled(StepLease(s, token, limit), Run(s, SweepSteps(s, token, limit)), batch)
    ensures Inv(Run(s, SweepSteps(s, token, limit)))
  {
    var batch := Batch(s.db.outbox, s.clock, s.leaseFor, limit);
    var leased := StepLease(s, token, limit);
    BatchIsDeliverable(s, token, limit);
    hide Inv, Deliverable, BatchSettled;
    LeaseKeepsInv(s, token, limit);
    hide StepLease;
    BatchIsPublished(leased, batch, token);
    var steps := SweepSteps(s, token, limit);
    assert steps[1..] == BatchSteps(batch, token) && Next(s, steps[0]) == leased;
    RunKeepsInv(s, steps);
  }

  lemma BatchIsDeliverable(s: System, token: Token, limit: nat)
    ensures Deliverable(StepLease(s, token, limit), Batch(s.db.outbox, s.clock, s.leaseFor, limit), token)
  {
    var batch := Batch(s.db.outbox, s.clock, s.leaseFor, limit);
    forall i | 0 <= i < |batch|
      ensures OutboxLease(batch[i], token) in StepLease(s, token, limit).held
      ensures Holds(StepLease(s, token, limit).db.outbox, OutboxLease(batch[i], token))
    {
      assert batch[i] in batch;
      assert OutboxLease(batch[i], token) in HeldBatch(s.db.outbox, batch, token);
    }
  }

  function Sweep(s: System, token: Token, limit: nat): System {
    if IsRun(s, SweepSteps(s, token, limit)) then Run(s, SweepSteps(s, token, limit)) else s
  }

  /** Sweeps one after the other, each with its own token. */
  function Sweeps(s: System, tokens: seq<Token>, limit: nat): System
    decreases |tokens|
  {
    if tokens == [] then s else Sweeps(Sweep(s, tokens[0], limit), tokens[1..], limit)
  }

  lemma UnpublishedAfterSweep(s: System, s': System, leased: System, batch: seq<Uuid>, token: Token, limit: nat)
    requires batch == Batch(s.db.outbox, s.clock, s.leaseFor, limit) && leased == StepLease(s, token, limit)
    requires BatchSettled(leased, s', batch)
    ensures Unpublished(s'.db.outbox) == Unpublished(s.db.outbox) - BatchIds(batch)
    ensures forall o :: o in Unpublished(s'.db.outbox) ==> s'.db.outbox[o] == s.db.outbox[o]
    ensures BatchIds(batch) <= Unpublished(s.db.outbox)
    ensures s'.clock == s.clock && s'.leaseFor == s.leaseFor && s'.tokens == s.tokens + {token}
    ensures s'.db.events == s.db.events
  {
    forall o | o in batch
      ensures o in Unpublished(s.db.outbox)
    {
      var i :| 0 <= i < |batch| && batch[i] == o;
    }
  }

  function BatchIds(batch: seq<Uuid>): set<Uuid> {
    set o | o in batch
  }

  lemma {:induction false} DistinctCount(batch: seq<Uuid>)
    requires forall i, j :: 0 <= i < j < |batch| ==> batch[i] != batch[j]
    ensures |BatchIds(batch)| == |batch|
  {
    if batch == [] {
      assert BatchIds(batch) == {};
    } else {
      var n := |batch| - 1;
      var front := batch[..n];
      DistinctCount(front);
      assert batch == front + [batch[n]];
      assert batch[n] !in BatchIds(front);
      assert BatchIds(batch) == BatchIds(front) + {batch[n]};
    }
  }

  lemma DifferenceSize(all: set<Uuid>, some: set<Uuid>)
    requires some <= all
    ensures |all - some| == |all| - |some|
  {
    assert all == (all - some) + some;
  }

  lemma EligibilityKept(s: System, s': System)
    requires AllEligible(s) && s'.clock == s.clock && s'.leaseFor == s.leaseFor
    requires Unpublished(s'.db.outbox) <= Unpublished(s.db.outbox)
    requires forall o :: o in Unpublished(s'.db.outbox) ==> s'.db.outbox[o] == s.db.outbox[o]
    ensures AllEligible(s')
  {
  }

  /** A sweep at a time when everything is eligible publishes min(limit, unpublished) events. */
  lemma SweepMakesProgress(s: System, token: Token, limit: nat)
    requires Inv(s) && AllEligible(s) && token !in s.tokens && 1 <= limit <= 100
    ensures IsRun(s, SweepSteps(s, token, limit))
    ensures var s' := Sweep(s, token, limit);
            && Inv(s') && AllEligible(s')
            && |Unpublished(s'.db.outbox)| == |Unpublished(s.db.outbox)| - Min(limit, |Unpublished(s.db.outbox)|)
            && s'.tokens == s.tokens + {token}
            && s'.db.events == s.db.events
  {
    hide Inv, BatchSettled, IsRun, Run, Batch, StepLease, Unpublished, Eligible, SweepSteps;
    var batch := Batch(s.db.outbox, s.clock, s.leaseFor, limit);
    SweepPublishesBatch(s, token, limit);
    BatchSize(s.db.outbox, s.clock, s.leaseFor, limit);
    DistinctCount(batch);
    UnpublishedAfterSweep(s, Sweep(s, token, limit), StepLease(s, token, limit), batch, token, limit);
    DifferenceSize(Unpublished(s.db.outbox), BatchIds(batch));
    EligibilityKept(s, Sweep(s, token, limit));
  }

  /** The steps of the sweeps, one after the other. */
  function SweepsSteps(s: System, tokens: seq<Token>, limit: nat): seq<Step>
    decreases |tokens|
  {
    if tokens == [] then []
    else SweepSteps(s, tokens[0], limit) + SweepsSteps(Sweep(s, tokens[0], limit), tokens[1..], limit)
  }

  lemma SweepsUnfold(s: System, tokens: seq<Token>, limit: nat)
    requires tokens != []
    ensures Sweeps(s, tokens, limit) == Sweeps(Sweep(s, tokens[0], limit), tokens[1..], limit)
    ensures SweepsSteps(s, tokens, limit)
            == SweepSteps(s, tokens[0], limit) + SweepsSteps(Sweep(s, tokens[0], limit), tokens[1..], limit)
  {
  }

  lemma SweepIsRun(s: System, token: Token, limit: nat)
    requires IsRun(s, SweepSteps(s, token, limit))
    ensures Sweep(s, token, limit) == Run(s, SweepSteps(s, token, limit))
  {
  }

  lemma OneSweepLess(n: nat, k: nat, limit: nat)
    requires n <= (k + 1) * limit
    ensures n - Min(limit, n) <= k * limit
  {
    assert (k + 1) * limit == k * limit + limit;
  }

  /** With n unpublished events, any k sweeps with k * limit >= n publish all of them. */
  lemma {:induction false} SweepsDrain(s: System, tokens: seq<Token>, limit: nat)
    requires Inv(s) && AllEligible(s) && 1 <= limit <= 100
    requires forall i :: 0 <= i < |tokens| ==> tokens[i] !in s.tokens
    requires forall i, j :: 0 <= i < j < |tokens| ==> tokens[i] != tokens[j]
    requires |Unpublished(s.db.outbox)| <= |tokens| * limit
    ensures IsRun(s, SweepsSteps(s, tokens, limit))
    ensures Run(s, SweepsSteps(s, tokens, limit)) == Sweeps(s, tokens, limit)
    ensures Unpublished(Sweeps(s, tokens, limit).db.outbox) == {}
    ensures Sweeps(s, tokens, limit).db.events == s.db.events
    ensures Inv(Sweeps(s, tokens, limit))
    decreases |tokens|
  {
    hide Inv, AllEligible, Sweep, Sweeps, SweepSteps, SweepsSteps, Unpublished, IsRun, Run;
    if tokens == [] {
      NoSweeps(s, limit);
    } else {
      SweepsUnfold(s, tokens, limit);
      SweepMakesProgress(s, tokens[0], limit);
      var mid := Sweep(s, tokens[0], limit);
      var rest := tokens[1..];
      OneSweepLess(|Unpublished(s.db.outbox)|, |rest|, limit);
      SweepsDrain(mid, rest, limit);
      SweepIsRun(s, tokens[0], limit);
      RunConcat(s, SweepSteps(s, tokens[0], limit), SweepsSteps(mid, rest, limit));
    }
  }

  lemma NoSweeps(s: System, limit: nat)
    ensures SweepsSteps(s, [], limit) == [] && Sweeps(s, [], limit) == s && IsRun(s, []) && Run(s, []) == s
  {
  }

  lemma TickNext(s: System, now: Time)
    requires s.clock <= now
    ensures Enabled(s, TickStep(now)) && Next(s, TickStep(now)) == s.(clock := now)
  {
  }

  lemma TickMakesEligible(s: System, now: Time)
    requires forall o :: o in Unpublished(s.db.outbox) ==> ReadyAt(s.db.outbox[o], s.leaseFor) <= now
    ensures AllEligible(s.(clock := now))
  {
  }

  /** When the clock reads `now`, these sweeps can all be run and publish everything. */
  ghost predicate DrainsAt(s: System, now: Time, tokens: seq<Token>, limit: nat) {
    && s.clock <= now && Enabled(s, TickStep(now))
    && var late := Next(s, TickStep(now));
       && IsRun(late, SweepsSteps(late, tokens, limit))
       && var drained := Run(late, SweepsSteps(late, tokens, limit));
          && Unpublished(drained.db.outbox) == {}
          && drained.db.events == s.db.events
          && ReceiptIds(drained.db.inbox) == s.db.events.Keys
  }

  lemma DrainsOnceReady(s: System, now: Time, tokens: seq<Token>, limit: nat)
    requires Inv(s) && 1 <= limit <= 100 && s.clock <= now
    requires forall i :: 0 <= i < |tokens| ==> tokens[i] !in s.tokens
    requires forall i, j :: 0 <= i < j < |tokens| ==> tokens[i] != tokens[j]
    requires |Unpublished(s.db.outbox)| <= |tokens| * limit
    requires forall o :: o in Unpublished(s.db.outbox) ==> ReadyAt(s.db.outbox[o], s.leaseFor) <= now
    ensures DrainsAt(s, now, tokens, limit)
  {
    TickNext(s, now);
    hide Inv, Sweeps, SweepsSteps, ReadyAt, AllEligible, ReceiptIds, Next, Enabled, Unpublished, IsRun, Run;
    TickKeepsInv(s, now);
    TickMakesEligible(s, now);
    SweepsDrain(s.(clock := now), tokens, limit);
    DrainedInv(Sweeps(s.(clock := now), tokens, limit));
  }

  /**
   * No event is lost: from every reachable state there is a time from which on, whatever the
   * clock reads, crash-free sweeps of `limit` rows are a run that publishes every event, and
   * then each has its one receipt.
   */
  lemma NoEventIsLost(s: System, tokens: seq<Token>, limit: nat) returns (now: Time)
    requires Reachable(s) && 1 <= limit <= 100
    requires forall i :: 0 <= i < |tokens| ==> tokens[i] !in s.tokens
    requires forall i, j :: 0 <= i < j < |tokens| ==> tokens[i] != tokens[j]
    requires |Unpublished(s.db.outbox)| <= |tokens| * limit
    ensures forall later :: now <= later ==> DrainsAt(s, later, tokens, limit)
  {
    hide Inv, Reachable, ReadyAt, DrainsAt;
    ReachableInv(s);
    assert Unpublished(s.db.outbox) <= s.db.outbox.Keys;
    hide Unpublished;
    now := LateTimeExists(s.db.outbox, s.leaseFor, s.clock, Unpublished(s.db.outbox));
    forall later | now <= later
      ensures DrainsAt(s, later, tokens, limit)
    {
      DrainsOnceReady(s, later, tokens, limit);
    }
  }

  lemma DrainedInv(s: System)
    requires Inv(s) && Unpublished(s.db.outbox) == {}
    ensures ReceiptIds(s.db.inbox) == s.db.events.Keys
  {
    hide OutboxMirrorsEvents, ReceiptsMatch, DeliveriesMatch, HoldersInformed, CaseInv, ArtifactInv;
    DrainedKeys(s.consumer, s.db.events, s.db.outbox, s.db.inbox);
  }
}
