/**
 * The statements of the transactional outbox and of the consumer inbox
 * (services/api/netops_api/application/outbox.py), each as one guarded update.
 */
module Outbox {
  import opened Base
  import opened Order
  import opened Tables

  /** The opaque ownership token needed to settle one delivery attempt. */
  datatype OutboxLease = OutboxLease(outboxId: Uuid, token: Token)

  type OutboxTable = map<Uuid, OutboxRow>

  // ---------------------------------------------------------------- lease

  predicate Eligible(row: OutboxRow, now: Time, leaseFor: Time) {
    && row.publishedAt.None?
    && row.availableAt <= now
    && (row.lockedAt.None? || row.lockedAt.value <= now - leaseFor)
  }

  /** `ORDER BY available_at, created_at, id`. */
  function QueueKey(id: Uuid, row: OutboxRow): Key {
    Key(row.availableAt, row.createdAt, id)
  }

  function CandidateKeys(outbox: OutboxTable, now: Time, leaseFor: Time): set<Key> {
    set o | o in outbox && Eligible(outbox[o], now, leaseFor) :: QueueKey(o, outbox[o])
  }

  /** The ids that one lease statement takes: the first `limit` candidates. */
  function Batch(outbox: OutboxTable, now: Time, leaseFor: Time, limit: nat): (batch: seq<Uuid>)
    ensures forall i :: 0 <= i < |batch| ==>
      batch[i] in outbox && Eligible(outbox[batch[i]], now, leaseFor)
    ensures forall i, j :: 0 <= i < j < |batch| ==> batch[i] != batch[j]
  {
    var keys := TakeFirst(CandidateKeys(outbox, now, leaseFor), limit);
    var batch := seq(|keys|, i requires 0 <= i < |keys| =>
      assert keys[i] in CandidateKeys(outbox, now, leaseFor); keys[i].id as Uuid);
    assert forall i :: 0 <= i < |keys| ==> keys[i] in CandidateKeys(outbox, now, leaseFor);
    batch
  }

  function LeasedRow(row: OutboxRow, token: Token, now: Time): OutboxRow {
    row.(lockedAt := Some(now), lockedBy := Some(token), attemptCount := row.attemptCount + 1)
  }

  function LeaseAvailable(outbox: OutboxTable, batch: seq<Uuid>, token: Token, now: Time): OutboxTable
  {
    map o | o in outbox :: if o in batch then LeasedRow(outbox[o], token, now) else outbox[o]
  }

  // ---------------------------------------------------------------- settle

  predicate Holds(outbox: OutboxTable, lease: OutboxLease) {
    && lease.outboxId in outbox
    && outbox[lease.outboxId].publishedAt.None?
    && outbox[lease.outboxId].lockedBy == Some(lease.token)
  }

  function PublishedRow(row: OutboxRow, publishedAt: Time): OutboxRow {
    row.(publishedAt := Some(publishedAt), lockedAt := None, lockedBy := None, lastError := None)
  }

  function RetriedRow(row: OutboxRow, retryAt: Time, errorCode: string): OutboxRow {
    row.(availableAt := retryAt, lockedAt := None, lockedBy := None, lastError := Some(errorCode))
  }

  /** A stale or foreign lease matches no row, and the call raises without writing. */
  function MarkPublished(outbox: OutboxTable, lease: OutboxLease, publishedAt: Time): Option<OutboxTable> {
    if Holds(outbox, lease)
    then Some(outbox[lease.outboxId := PublishedRow(outbox[lease.outboxId], publishedAt)])
    else None
  }

  function ScheduleRetry(outbox: OutboxTable, lease: OutboxLease, retryAt: Time, errorCode: string)
    : Option<OutboxTable>
  {
    if Holds(outbox, lease)
    then Some(outbox[lease.outboxId := RetriedRow(outbox[lease.outboxId], retryAt, errorCode)])
    else None
  }

  // ---------------------------------------------------------------- inbox

  datatype Recorded = New | Replay | PayloadMismatch

  function RecordOnce(inbox: map<InboxKey, Receipt>, key: InboxKey, payload: Payload, processedAt: Time)
    : (map<InboxKey, Receipt>, Recorded)
  {
    if key !in inbox then (inbox[key := Receipt(payload, processedAt)], New)
    else if inbox[key].payload != payload then (inbox, PayloadMismatch)
    else (inbox, Replay)
  }

  // ---------------------------------------------------------------- the mutation guard

  /** Every row of the old table is still there and its change passes the trigger. */
  ghost predicate GuardAllows(old_: OutboxTable, new_: OutboxTable) {
    old_.Keys == new_.Keys && forall o :: o in old_ ==> OutboxMutationAllowed(old_[o], new_[o])
  }

  // ---------------------------------------------------------------- what a lease takes

  function Unpublished(outbox: OutboxTable): set<Uuid> {
    set o | o in outbox && outbox[o].publishedAt.None?
  }

  /** The row is available sooner; or as soon and created sooner; or both alike, with the smaller id. */
  predicate Sooner(outbox: OutboxTable, a: Uuid, b: Uuid)
    requires a in outbox && b in outbox
  {
    var x, y := outbox[a], outbox[b];
    || x.availableAt < y.availableAt
    || (x.availableAt == y.availableAt && x.createdAt < y.createdAt)
    || (x.availableAt == y.availableAt && x.createdAt == y.createdAt && a < b)
  }

  /** The batch is the queue's prefix: full, or everything that is eligible. */
  lemma BatchIsQueuePrefix(outbox: OutboxTable, now: Time, leaseFor: Time, limit: nat)
    ensures var batch := Batch(outbox, now, leaseFor, limit);
            && |batch| <= limit
            && (forall o :: o in outbox && Eligible(outbox[o], now, leaseFor) && o !in batch ==>
                  && |batch| == limit
                  && forall b :: b in batch ==> Sooner(outbox, b, o))
  {
    var cands := CandidateKeys(outbox, now, leaseFor);
    var keys := TakeFirst(cands, limit);
    var batch := Batch(outbox, now, leaseFor, limit);
    forall i | 0 <= i < |keys|
      ensures batch[i] in outbox && keys[i] == QueueKey(batch[i], outbox[batch[i]])
    {
      assert keys[i] in cands;
    }
    forall o | o in outbox && Eligible(outbox[o], now, leaseFor) && o !in batch
      ensures |batch| == limit
      ensures forall b :: b in batch ==> Sooner(outbox, b, o)
    {
      var k := QueueKey(o, outbox[o]);
      assert k in cands;
      assert k !in keys;
      assert |keys| == limit;
      forall b | b in batch
        ensures Sooner(outbox, b, o)
      {
        var i :| 0 <= i < |batch| && batch[i] == b;
        assert keys[i] in keys;
      }
    }
  }

  lemma CandidateCount(outbox: OutboxTable, now: Time, leaseFor: Time, ids: set<Uuid>)
    requires ids == set o | o in outbox && Eligible(outbox[o], now, leaseFor)
    ensures |CandidateKeys(outbox, now, leaseFor)| == |ids|
  {
    KeysOfIds(outbox, ids);
    assert CandidateKeys(outbox, now, leaseFor) == set o | o in ids :: QueueKey(o, outbox[o]);
  }

  lemma KeysOfIds(outbox: OutboxTable, ids: set<Uuid>)
    requires ids <= outbox.Keys
    ensures |set o | o in ids :: QueueKey(o, outbox[o])| == |ids|
  {
    if ids != {} {
      var x :| x in ids;
      var rest := ids - {x};
      KeysOfIds(outbox, rest);
      var all := set o | o in ids :: QueueKey(o, outbox[o]);
      var some := set o | o in rest :: QueueKey(o, outbox[o]);
      assert all == some + {QueueKey(x, outbox[x])};
      assert QueueKey(x, outbox[x]) !in some;
    }
  }

  /** When every unpublished row is eligible, a lease takes min(limit, unpublished) of them. */
  lemma BatchSize(outbox: OutboxTable, now: Time, leaseFor: Time, limit: nat)
    requires forall o :: o in Unpublished(outbox) ==> Eligible(outbox[o], now, leaseFor)
    ensures |Batch(outbox, now, leaseFor, limit)| == Min(limit, |Unpublished(outbox)|)
  {
    var ids := set o | o in outbox && Eligible(outbox[o], now, leaseFor);
    assert ids == Unpublished(outbox);
    CandidateCount(outbox, now, leaseFor, ids);
  }

  // ---------------------------------------------------------------- what the inbox records

  /**
   * The call is told that an event is new exactly when the consumer has no receipt of it, and
   * that it is a replay when the receipt is of the same payload. Afterwards there is a receipt,
   * and no earlier one has changed.
   */
  lemma RecordOnceMeaning(inbox: map<InboxKey, Receipt>, key: InboxKey, payload: Payload, processedAt: Time)
    ensures var (after, outcome) := RecordOnce(inbox, key, payload, processedAt);
            && (outcome == New <==> key !in inbox)
            && (outcome == Replay <==> key in inbox && inbox[key].payload == payload)
            && (outcome == PayloadMismatch <==> key in inbox && inbox[key].payload != payload)
            && after.Keys == inbox.Keys + {key}
            && (forall k :: k in inbox ==> after[k] == inbox[k])
            && (outcome == New ==> after[key].payload == payload && after[key].processedAt == processedAt)
  {
  }
}
