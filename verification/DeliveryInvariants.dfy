/**
 * What ties case_events, outbox_events, consumer_inbox, the workers' leases and the
 * delivery log together, and why every kind of table change keeps it.
 */
module DeliveryInvariants {
  import opened Base
  import opened Tables
  import opened CaseSpine
  import opened Outbox
  import opened Machine
  import opened DeliveryLog

  type EventTable = map<Uuid, EventRow>
  type InboxTable = map<InboxKey, Receipt>

  predicate Mirrors(row: OutboxRow, event: EventRow) {
    && row.caseId == event.caseId
    && row.eventType == event.eventType
    && row.aggregateVersion == event.aggregateVersion
    && row.correlationId == event.correlationId
    && row.payload == event.payload
  }

  /** Every event has exactly one outbox row, and that row carries the event unchanged. */
  ghost predicate OutboxMirrorsEvents(events: EventTable, outbox: OutboxTable) {
    && (forall e :: e in events ==> events[e].id == e)
    && (forall o :: o in outbox ==>
          && outbox[o].id == o
          && outbox[o].caseEventId in events
          && Mirrors(outbox[o], events[outbox[o].caseEventId]))
    && (forall e :: e in events ==> exists o :: o in outbox && outbox[o].caseEventId == e)
    && (forall o, p :: o in outbox && p in outbox ==> outbox[o].caseEventId == outbox[p].caseEventId ==> o == p)
  }

  /** Receipts are of committed events with their payload, and nothing is published without one. */
  ghost predicate ReceiptsMatch(consumer: string, events: EventTable, outbox: OutboxTable, inbox: InboxTable) {
    && (forall k :: k in inbox ==>
          && k.consumer == consumer
          && k.eventId in events
          && inbox[k].payload == events[k.eventId].payload)
    && (forall o :: o in outbox && outbox[o].publishedAt.Some? ==> InboxKey(consumer, outbox[o].caseEventId) in inbox)
  }

  predicate RowMatches(row: OutboxRow, life: Lifecycle) {
    && row.attemptCount == life.leases
    && row.lockedBy == life.holder
    && row.publishedAt.Some? == life.published
    && row.lockedAt.Some? == row.lockedBy.Some?
  }

  /** The delivery columns of every row are what the log says they are. */
  ghost predicate DeliveriesMatch(outbox: OutboxTable, log: Log, tokens: set<Token>) {
    && WellFormed(log)
    && (forall i :: 0 <= i < |log| ==> log[i].outboxId in outbox && log[i].token in tokens)
    && (forall o :: o in outbox ==> RowMatches(outbox[o], Fold(log, o)))
  }

  ghost predicate HeldMatches(
      consumer: string, lease: OutboxLease, held: Held, outbox: OutboxTable, inbox: InboxTable, log: Log)
  {
    && lease.outboxId in outbox
    && held.eventId == outbox[lease.outboxId].caseEventId
    && held.payload == outbox[lease.outboxId].payload
    && (held.handedOff ==> InboxKey(consumer, held.eventId) in inbox)
    && (exists i :: 0 <= i < |log| && log[i] == Leased(lease.outboxId, lease.token))
  }

  /** What a worker remembers is still what the tables say, however stale its lease is. */
  ghost predicate HoldersInformed(
      consumer: string, held: map<OutboxLease, Held>, outbox: OutboxTable, inbox: InboxTable, log: Log)
  {
    forall l :: l in held ==> HeldMatches(consumer, l, held[l], outbox, inbox, log)
  }

  // ---------------------------------------------------------------- a new event with its outbox row

  ghost predicate AddsEvent(db: Db, db': Db, event: EventRow, outboxId: Uuid) {
    && event.id !in db.events
    && outboxId !in db.outbox
    && (event.transitionId.Some? ==> forall e :: e in db.events ==> db.events[e].transitionId != event.transitionId)
    && (forall o :: o in db.outbox ==> db.outbox[o].caseEventId != event.id)
    && db'.events == db.events[event.id := event]
    && db'.outbox == db.outbox[outboxId := NewOutboxRow(outboxId, event)]
    && db'.inbox == db.inbox
  }

  lemma NewRowMirrors(outboxId: Uuid, event: EventRow)
    ensures var row := NewOutboxRow(outboxId, event);
            row.id == outboxId && row.caseEventId == event.id && Mirrors(row, event)
  {
  }

  lemma AddsEventKeepsMirror(db: Db, db': Db, event: EventRow, outboxId: Uuid)
    requires AddsEvent(db, db', event, outboxId) && OutboxMirrorsEvents(db.events, db.outbox)
    ensures OutboxMirrorsEvents(db'.events, db'.outbox)
  {
    hide Mirrors, NewOutboxRow;
    NewRowMirrors(outboxId, event);
    assert db'.outbox[outboxId].caseEventId == event.id;
    forall e | e in db'.events
      ensures exists o :: o in db'.outbox && db'.outbox[o].caseEventId == e
    {
      if e != event.id {
        var o :| o in db.outbox && db.outbox[o].caseEventId == e;
        assert db'.outbox[o].caseEventId == e;
      }
    }
  }

  lemma AddsEventKeepsReceipts(consumer: string, db: Db, db': Db, event: EventRow, outboxId: Uuid)
    requires AddsEvent(db, db', event, outboxId) && ReceiptsMatch(consumer, db.events, db.outbox, db.inbox)
    ensures ReceiptsMatch(consumer, db'.events, db'.outbox, db'.inbox)
  {
  }

  lemma AddsEventKeepsDeliveries(db: Db, db': Db, event: EventRow, outboxId: Uuid, log: Log, tokens: set<Token>)
    requires AddsEvent(db, db', event, outboxId) && DeliveriesMatch(db.outbox, log, tokens)
    ensures DeliveriesMatch(db'.outbox, log, tokens)
  {
    FoldUnmentioned(log, outboxId);
  }

  lemma AddsEventKeepsHolders(
      consumer: string, held: map<OutboxLease, Held>, db: Db, db': Db, event: EventRow, outboxId: Uuid, log: Log)
    requires AddsEvent(db, db', event, outboxId)
    requires HoldersInformed(consumer, held, db.outbox, db.inbox, log)
    ensures HoldersInformed(consumer, held, db'.outbox, db'.inbox, log)
  {
    forall l | l in held
      ensures HeldMatches(consumer, l, held[l], db'.outbox, db'.inbox, log)
    {
      assert HeldMatches(consumer, l, held[l], db.outbox, db.inbox, log);
    }
  }

  // ---------------------------------------------------------------- an update that passes the guard

  lemma GuardKeepsMirror(events: EventTable, outbox: OutboxTable, outbox': OutboxTable)
    requires OutboxMirrorsEvents(events, outbox) && GuardAllows(outbox, outbox')
    ensures OutboxMirrorsEvents(events, outbox')
  {
    forall o | o in outbox'
      ensures outbox'[o].id == o && outbox'[o].caseEventId == outbox[o].caseEventId
      ensures Mirrors(outbox'[o], events[outbox[o].caseEventId])
    {
      assert OutboxMutationAllowed(outbox[o], outbox'[o]);
    }
    forall e | e in events
      ensures exists o :: o in outbox' && outbox'[o].caseEventId == e
    {
      var o :| o in outbox && outbox[o].caseEventId == e;
      assert o in outbox' && outbox'[o].caseEventId == e;
    }
  }

  lemma GuardKeepsHolders(
      consumer: string, held: map<OutboxLease, Held>, outbox: OutboxTable, outbox': OutboxTable,
      inbox: InboxTable, log: Log, log': Log)
    requires HoldersInformed(consumer, held, outbox, inbox, log)
    requires GuardAllows(outbox, outbox') && log <= log'
    ensures HoldersInformed(consumer, held, outbox', inbox, log')
  {
    forall l | l in held
      ensures HeldMatches(consumer, l, held[l], outbox', inbox, log')
    {
      assert HeldMatches(consumer, l, held[l], outbox, inbox, log);
      assert OutboxMutationAllowed(outbox[l.outboxId], outbox'[l.outboxId]);
      var i :| 0 <= i < |log| && log[i] == Leased(l.outboxId, l.token);
      assert log'[i] == log[i];
    }
  }

  lemma LeaseRespectsGuard(outbox: OutboxTable, batch: seq<Uuid>, token: Token, now: Time)
    ensures GuardAllows(outbox, LeaseAvailable(outbox, batch, token, now))
  {
  }

  lemma SettlementRespectsGuard(outbox: OutboxTable, lease: OutboxLease, at: Time, errorCode: string)
    requires Holds(outbox, lease)
    ensures GuardAllows(outbox, MarkPublished(outbox, lease, at).value)
    ensures GuardAllows(outbox, ScheduleRetry(outbox, lease, at, errorCode).value)
  {
  }

  lemma GuardReflexive(outbox: OutboxTable)
    ensures GuardAllows(outbox, outbox)
  {
  }

  // ---------------------------------------------------------------- lease

  lemma LeasedRowMatches(
      outbox: OutboxTable, log: Log, batch: seq<Uuid>, token: Token, now: Time, o: Uuid)
    requires o in outbox && RowMatches(outbox[o], Fold(log, o))
    requires o in batch ==> outbox[o].publishedAt.None?
    requires BatchFolded(log, batch, token, log + LeaseEntries(batch, token))
    ensures RowMatches(LeaseAvailable(outbox, batch, token, now)[o], Fold(log + LeaseEntries(batch, token), o))
  {
    hide Fold, LeaseEntries;
  }

  lemma BatchUnpublished(outbox: OutboxTable, now: Time, leaseFor: Time, limit: nat)
    ensures forall o :: o in Batch(outbox, now, leaseFor, limit) ==> o in outbox && outbox[o].publishedAt.None?
  {
    hide Batch;
    var batch := Batch(outbox, now, leaseFor, limit);
    forall o | o in batch
      ensures o in outbox && outbox[o].publishedAt.None?
    {
      var i :| 0 <= i < |batch| && batch[i] == o;
      assert Eligible(outbox[batch[i]], now, leaseFor);
    }
  }

  lemma LeaseKeepsDeliveries(s: System, token: Token, limit: nat)
    requires DeliveriesMatch(s.db.outbox, s.log, s.tokens) && token !in s.tokens
    ensures var s' := StepLease(s, token, limit); DeliveriesMatch(s'.db.outbox, s'.log, s'.tokens)
  {
    hide Batch, WellFormed, Fold, RowMatches, LeaseEntries, BatchFolded;
    var batch := Batch(s.db.outbox, s.clock, s.leaseFor, limit);
    BatchUnpublished(s.db.outbox, s.clock, s.leaseFor, limit);
    forall i | 0 <= i < |batch|
      ensures !Fold(s.log, batch[i]).published
    {
      assert batch[i] in batch;
      UnpublishedLife(s.db.outbox[batch[i]], Fold(s.log, batch[i]));
    }
    AppendBatch(s.log, batch, token);
    forall o | o in s.db.outbox
      ensures RowMatches(LeaseAvailable(s.db.outbox, batch, token, s.clock)[o],
                         Fold(s.log + LeaseEntries(batch, token), o))
    {
      LeasedRowMatches(s.db.outbox, s.log, batch, token, s.clock, o);
    }
    EntriesInTables(s, batch, token);
  }

  lemma UnpublishedLife(row: OutboxRow, life: Lifecycle)
    requires RowMatches(row, life) && row.publishedAt.None?
    ensures !life.published
  {
  }

  lemma EntriesInTables(s: System, batch: seq<Uuid>, token: Token)
    requires forall i :: 0 <= i < |batch| ==> batch[i] in s.db.outbox
    requires forall i :: 0 <= i < |s.log| ==> s.log[i].outboxId in s.db.outbox && s.log[i].token in s.tokens
    ensures var log' := s.log + LeaseEntries(batch, token);
            forall i :: 0 <= i < |log'| ==> log'[i].outboxId in s.db.outbox && log'[i].token in s.tokens + {token}
  {
  }

  lemma LeaseKeepsHolders(s: System, token: Token, limit: nat)
    requires HoldersInformed(s.consumer, s.held, s.db.outbox, s.db.inbox, s.log)
    ensures var s' := StepLease(s, token, limit);
            HoldersInformed(s'.consumer, s'.held, s'.db.outbox, s'.db.inbox, s'.log)
  {
    var batch := Batch(s.db.outbox, s.clock, s.leaseFor, limit);
    var s' := StepLease(s, token, limit);
    LeaseRespectsGuard(s.db.outbox, batch, token, s.clock);
    GuardKeepsHolders(s.consumer, s.held, s.db.outbox, s'.db.outbox, s.db.inbox, s.log, s'.log);
    var taken := HeldBatch(s.db.outbox, batch, token);
    forall l | l in taken
      ensures HeldMatches(s.consumer, l, taken[l], s'.db.outbox, s.db.inbox, s'.log)
    {
      TakenMatches(s, token, limit, l);
    }
    assert s'.held == s.held + taken;
  }

  lemma TakenMatches(s: System, token: Token, limit: nat, l: OutboxLease)
    requires l in HeldBatch(s.db.outbox, Batch(s.db.outbox, s.clock, s.leaseFor, limit), token)
    ensures var batch := Batch(s.db.outbox, s.clock, s.leaseFor, limit);
            HeldMatches(s.consumer, l, HeldBatch(s.db.outbox, batch, token)[l],
                        LeaseAvailable(s.db.outbox, batch, token, s.clock), s.db.inbox,
                        s.log + LeaseEntries(batch, token))
  {
    var batch := Batch(s.db.outbox, s.clock, s.leaseFor, limit);
    var i :| 0 <= i < |batch| && batch[i] == l.outboxId;
    assert (s.log + LeaseEntries(batch, token))[|s.log| + i] == Leased(l.outboxId, token);
  }

  lemma LeaseKeepsReceipts(s: System, token: Token, limit: nat)
    requires ReceiptsMatch(s.consumer, s.db.events, s.db.outbox, s.db.inbox)
    ensures var s' := StepLease(s, token, limit);
            ReceiptsMatch(s'.consumer, s'.db.events, s'.db.outbox, s'.db.inbox)
  {
  }

  // ---------------------------------------------------------------- settle

  lemma PublishKeepsDeliveries(s: System, lease: OutboxLease)
    requires DeliveriesMatch(s.db.outbox, s.log, s.tokens)
    ensures var s' := StepPublish(s, lease); DeliveriesMatch(s'.db.outbox, s'.log, s'.tokens)
  {
    if Holds(s.db.outbox, lease) {
      SettlementAppends(s.db.outbox, s.log, s.tokens, lease, Published(lease.outboxId, lease.token));
    }
  }

  lemma RetryKeepsDeliveries(s: System, lease: OutboxLease, delay: Time, errorCode: string)
    requires DeliveriesMatch(s.db.outbox, s.log, s.tokens)
    ensures var s' := StepRetry(s, lease, delay, errorCode); DeliveriesMatch(s'.db.outbox, s'.log, s'.tokens)
  {
    if Holds(s.db.outbox, lease) {
      SettlementAppends(s.db.outbox, s.log, s.tokens, lease, Retried(lease.outboxId, lease.token));
    }
  }

  /** A settlement that finds its row is a valid entry of the log. */
  lemma SettlementAppends(outbox: OutboxTable, log: Log, tokens: set<Token>, lease: OutboxLease, d: Delivery)
    requires DeliveriesMatch(outbox, log, tokens) && Holds(outbox, lease)
    requires !d.Leased? && d.outboxId == lease.outboxId && d.token == lease.token
    ensures WellFormed(log + [d]) && d.token in tokens
    ensures forall o :: Fold(log + [d], o) == if o == d.outboxId then Fold(log, o).After(d) else Fold(log, o)
    ensures RowMatches(outbox[lease.outboxId], Fold(log, lease.outboxId))
  {
    assert RowMatches(outbox[lease.outboxId], Fold(log, lease.outboxId));
    AppendDelivery(log, d);
    HolderWasLeased(log, lease.outboxId, lease.token);
  }

  lemma PublishKeepsReceipts(s: System, lease: OutboxLease)
    requires lease in s.held && s.held[lease].handedOff
    requires ReceiptsMatch(s.consumer, s.db.events, s.db.outbox, s.db.inbox)
    requires HoldersInformed(s.consumer, s.held, s.db.outbox, s.db.inbox, s.log)
    ensures ReceiptsMatch(s.consumer, s.db.events, StepPublish(s, lease).db.outbox, s.db.inbox)
  {
    assert HeldMatches(s.consumer, lease, s.held[lease], s.db.outbox, s.db.inbox, s.log);
  }

  lemma RetryKeepsReceipts(s: System, lease: OutboxLease, delay: Time, errorCode: string)
    requires ReceiptsMatch(s.consumer, s.db.events, s.db.outbox, s.db.inbox)
    ensures ReceiptsMatch(s.consumer, s.db.events, StepRetry(s, lease, delay, errorCode).db.outbox, s.db.inbox)
  {
  }

  lemma SettleKeepsHolders(s: System, s': System, lease: OutboxLease, at: Time, errorCode: string)
    requires HoldersInformed(s.consumer, s.held, s.db.outbox, s.db.inbox, s.log)
    requires s'.held == s.held - {lease} && s.log <= s'.log
    requires s'.db.outbox == s.db.outbox
             || Some(s'.db.outbox) == MarkPublished(s.db.outbox, lease, at)
             || Some(s'.db.outbox) == ScheduleRetry(s.db.outbox, lease, at, errorCode)
    ensures HoldersInformed(s.consumer, s'.held, s'.db.outbox, s.db.inbox, s'.log)
  {
    if s'.db.outbox == s.db.outbox {
      GuardReflexive(s.db.outbox);
    } else {
      SettlementRespectsGuard(s.db.outbox, lease, at, errorCode);
    }
    GuardKeepsHolders(s.consumer, s.held, s.db.outbox, s'.db.outbox, s.db.inbox, s.log, s'.log);
  }

  // ---------------------------------------------------------------- hand off

  /** The stored payload of a replayed event never differs from the one handed over. */
  lemma HandoffNeverMismatches(s: System, lease: OutboxLease)
    requires lease in s.held
    requires OutboxMirrorsEvents(s.db.events, s.db.outbox)
    requires ReceiptsMatch(s.consumer, s.db.events, s.db.outbox, s.db.inbox)
    requires HoldersInformed(s.consumer, s.held, s.db.outbox, s.db.inbox, s.log)
    ensures !RecordOnce(s.db.inbox, HandoffKey(s, lease), s.held[lease].payload, s.clock).1.PayloadMismatch?
    ensures s.held[lease].eventId in s.db.events
    ensures s.held[lease].payload == s.db.events[s.held[lease].eventId].payload
  {
    assert HeldMatches(s.consumer, lease, s.held[lease], s.db.outbox, s.db.inbox, s.log);
    assert Mirrors(s.db.outbox[lease.outboxId], s.db.events[s.held[lease].eventId]);
  }

  lemma HandoffKeepsReceipts(s: System, lease: OutboxLease)
    requires lease in s.held
    requires OutboxMirrorsEvents(s.db.events, s.db.outbox)
    requires ReceiptsMatch(s.consumer, s.db.events, s.db.outbox, s.db.inbox)
    requires HoldersInformed(s.consumer, s.held, s.db.outbox, s.db.inbox, s.log)
    ensures ReceiptsMatch(s.consumer, s.db.events, s.db.outbox, StepHandoff(s, lease).db.inbox)
  {
    HandoffNeverMismatches(s, lease);
    hide OutboxMirrorsEvents, HoldersInformed;
  }

  lemma HandoffKeepsHolders(s: System, lease: OutboxLease)
    requires lease in s.held
    requires HoldersInformed(s.consumer, s.held, s.db.outbox, s.db.inbox, s.log)
    ensures var s' := StepHandoff(s, lease);
            HoldersInformed(s.consumer, s'.held, s.db.outbox, s'.db.inbox, s.log)
  {
    var s' := StepHandoff(s, lease);
    forall l | l in s'.held
      ensures HeldMatches(s.consumer, l, s'.held[l], s.db.outbox, s'.db.inbox, s.log)
    {
      assert HeldMatches(s.consumer, l, s.held[l], s.db.outbox, s.db.inbox, s.log);
    }
  }
}
