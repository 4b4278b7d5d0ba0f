/** What a delivery log says about one outbox row, independently of the table. */
module DeliveryLog {
  import opened Base
  import opened Tables
  import opened Machine

  type Log = seq<Delivery>

  /** The life of one row so far: counts of its leases by how they ended, and its current holder. */
  datatype Lifecycle = Lifecycle(
    leases: nat, retries: nat, superseded: nat, holder: Option<Token>, published: bool)
  {
    function After(d: Delivery): Lifecycle {
      match d
      case Leased(_, token) =>
        Lifecycle(leases + 1, retries, if holder.Some? then superseded + 1 else superseded, Some(token), published)
      case Retried(_, _) => Lifecycle(leases, retries + 1, superseded, None, published)
      case Published(_, _) => Lifecycle(leases, retries, superseded, None, true)
    }
  }

  function Fold(log: Log, o: Uuid): Lifecycle {
    if log == [] then Lifecycle(0, 0, 0, None, false)
    else
      var last := log[|log| - 1];
      var before := Fold(log[..|log| - 1], o);
      if last.outboxId == o then before.After(last) else before
  }

  /** A lease takes an unpublished row with a fresh token; a settlement is by the current holder. */
  ghost predicate ValidDelivery(log: Log, d: Delivery) {
    var before := Fold(log, d.outboxId);
    && !before.published
    && (d.Leased? ==> forall i :: 0 <= i < |log| ==> log[i] != Leased(d.outboxId, d.token))
    && (!d.Leased? ==> before.holder == Some(d.token))
  }

  ghost predicate WellFormed(log: Log) {
    forall k :: 0 <= k < |log| ==> ValidDelivery(log[..k], log[k])
  }

  lemma WellFormedPrefix(log: Log, k: nat)
    requires WellFormed(log) && k <= |log|
    ensures WellFormed(log[..k])
  {
    forall j | 0 <= j < k
      ensures ValidDelivery(log[..k][..j], log[..k][j])
    {
      assert log[..k][..j] == log[..j];
    }
  }

  lemma AppendDelivery(log: Log, d: Delivery)
    requires WellFormed(log) && ValidDelivery(log, d)
    ensures WellFormed(log + [d])
    ensures forall o :: Fold(log + [d], o) == if o == d.outboxId then Fold(log, o).After(d) else Fold(log, o)
  {
    var next := log + [d];
    assert next[..|log|] == log;
    forall k | 0 <= k < |next|
      ensures ValidDelivery(next[..k], next[k])
    {
      assert next[..k] == log[..k];
      assert log[..|log|] == log;
    }
  }

  /** A row that the log never mentions has not lived yet. */
  lemma {:induction false} FoldUnmentioned(log: Log, o: Uuid)
    requires forall i :: 0 <= i < |log| ==> log[i].outboxId != o
    ensures Fold(log, o) == Lifecycle(0, 0, 0, None, false)
  {
    if log != [] {
      FoldUnmentioned(log[..|log| - 1], o);
    }
  }

  ghost predicate BatchLeasable(log: Log, batch: seq<Uuid>, token: Token) {
    && (forall i, j :: 0 <= i < j < |batch| ==> batch[i] != batch[j])
    && (forall i :: 0 <= i < |batch| ==> !Fold(log, batch[i]).published)
    && (forall i :: 0 <= i < |log| ==> log[i].token != token)
  }

  lemma NextLeaseFresh(log: Log, batch: seq<Uuid>, token: Token, o: Uuid)
    requires BatchLeasable(log, batch, token) && o !in batch
    ensures forall i :: 0 <= i < |log + LeaseEntries(batch, token)| ==>
      (log + LeaseEntries(batch, token))[i] != Leased(o, token)
  {
  }

  ghost predicate BatchFolded(log: Log, batch: seq<Uuid>, token: Token, next: Log) {
    forall o :: Fold(next, o) == if o in batch then Fold(log, o).After(Leased(o, token)) else Fold(log, o)
  }

  lemma FoldOneMore(log: Log, front: seq<Uuid>, o: Uuid, token: Token, mid: Log)
    requires WellFormed(mid) && BatchFolded(log, front, token, mid) && o !in front
    requires !Fold(log, o).published
    requires forall i :: 0 <= i < |mid| ==> mid[i] != Leased(o, token)
    ensures WellFormed(mid + [Leased(o, token)])
    ensures BatchFolded(log, front + [o], token, mid + [Leased(o, token)])
  {
    assert Fold(mid, o) == Fold(log, o);
    AppendDelivery(mid, Leased(o, token));
  }

  lemma EntriesOneMore(front: seq<Uuid>, o: Uuid, token: Token)
    ensures LeaseEntries(front + [o], token) == LeaseEntries(front, token) + [Leased(o, token)]
  {
  }

  lemma LeasableOneLess(log: Log, front: seq<Uuid>, o: Uuid, token: Token)
    requires BatchLeasable(log, front + [o], token)
    ensures BatchLeasable(log, front, token) && o !in front && !Fold(log, o).published
  {
    var batch := front + [o];
    assert forall i :: 0 <= i < |front| ==> batch[i] == front[i];
    assert batch[|front|] == o;
  }

  /** One lease statement appends one valid entry per row of its batch. */
  lemma {:induction false} AppendBatch(log: Log, batch: seq<Uuid>, token: Token)
    requires WellFormed(log) && BatchLeasable(log, batch, token)
    ensures WellFormed(log + LeaseEntries(batch, token))
    ensures BatchFolded(log, batch, token, log + LeaseEntries(batch, token))
  {
    hide WellFormed;
    if batch == [] {
      assert log + LeaseEntries(batch, token) == log;
    } else {
      var front, o := batch[..|batch| - 1], batch[|batch| - 1];
      assert batch == front + [o];
      LeasableOneLess(log, front, o, token);
      AppendBatch(log, front, token);
      NextLeaseFresh(log, front, token, o);
      var mid := log + LeaseEntries(front, token);
      FoldOneMore(log, front, o, token, mid);
      EntriesOneMore(front, o, token);
      assert log + LeaseEntries(batch, token) == mid + [Leased(o, token)];
    }
  }

  // ---------------------------------------------------------------- conservation and fencing

  /** Every lease of a row was settled by a retry, superseded by a later lease, or is its last. */
  lemma {:induction false} LeasesConserved(log: Log, o: Uuid)
    requires WellFormed(log)
    ensures var l := Fold(log, o);
            && l.leases == l.retries + l.superseded + (if l.holder.Some? || l.published then 1 else 0)
            && !(l.holder.Some? && l.published)
  {
    if log != [] {
      WellFormedPrefix(log, |log| - 1);
      LeasesConserved(log[..|log| - 1], o);
      assert ValidDelivery(log[..|log| - 1], log[|log| - 1]);
    }
  }

  /** The token of the row's most recent lease. */
  function MostRecentToken(log: Log, o: Uuid): Option<Token> {
    if log == [] then None
    else
      var last := log[|log| - 1];
      if last.Leased? && last.outboxId == o then Some(last.token)
      else MostRecentToken(log[..|log| - 1], o)
  }

  predicate Settles(d: Delivery, o: Uuid, token: Token) {
    !d.Leased? && d.outboxId == o && d.token == token
  }

  ghost predicate Settled(log: Log, o: Uuid, token: Token) {
    exists i :: 0 <= i < |log| && Settles(log[i], o, token)
  }

  /** A settlement was preceded by the lease it settles. */
  lemma {:induction false} HolderWasLeased(log: Log, o: Uuid, token: Token)
    requires WellFormed(log)
    requires Fold(log, o).holder == Some(token) || Settled(log, o, token)
    ensures exists i :: 0 <= i < |log| && log[i] == Leased(o, token)
  {
    assert log != [];
    var n := |log| - 1;
    var front := log[..n];
    WellFormedPrefix(log, n);
    assert ValidDelivery(front, log[n]);
    assert forall i :: 0 <= i < n ==> log[i] == front[i];
    if log[n] != Leased(o, token) {
      HolderWasLeased(front, o, token);
      var i :| 0 <= i < n && front[i] == Leased(o, token);
      assert log[i] == Leased(o, token);
    }
  }

  lemma SettledAppend(front: Log, d: Delivery, o: Uuid, token: Token)
    ensures Settled(front + [d], o, token) <==> Settled(front, o, token) || Settles(d, o, token)
  {
    var log := front + [d];
    assert log[|front|] == d;
    if Settled(front, o, token) {
      var i :| 0 <= i < |front| && Settles(front[i], o, token);
      assert Settles(log[i], o, token);
    }
  }

  /** The current holder is the most recent lease, unless that lease has been settled. */
  lemma {:induction false} HolderIsMostRecentUnsettled(log: Log, o: Uuid, token: Token)
    requires WellFormed(log)
    ensures Fold(log, o).holder == Some(token)
            <==> MostRecentToken(log, o) == Some(token) && !Settled(log, o, token)
  {
    if log != [] {
      var n := |log| - 1;
      var front := log[..n];
      var d := log[n];
      assert log == front + [d];
      WellFormedPrefix(log, n);
      HolderIsMostRecentUnsettled(front, o, token);
      assert ValidDelivery(front, d);
      SettledAppend(front, d, o, token);
      hide WellFormed, Settled;
      if d == Leased(o, token) && Settled(front, o, token) {
        HolderWasLeased(front, o, token);
      }
      if !d.Leased? && d.outboxId == o {
        HolderIsMostRecentUnsettled(front, o, d.token);
      }
    }
  }

  /** No lease is settled twice. */
  lemma SettledAtMostOnce(log: Log, i: nat, j: nat)
    requires WellFormed(log) && i < j < |log| && Settles(log[i], log[j].outboxId, log[j].token)
    ensures log[j].Leased?
  {
    if !log[j].Leased? {
      var front := log[..j];
      WellFormedPrefix(log, j);
      assert ValidDelivery(front, log[j]);
      HolderIsMostRecentUnsettled(front, log[j].outboxId, log[j].token);
      assert false;
    }
  }

  lemma {:induction false} PublishedStays(log: Log, i: nat)
    requires i < |log| && log[i].Published?
    ensures Fold(log, log[i].outboxId).published
  {
    var n := |log| - 1;
    if i < n {
      assert log[..n][i] == log[i];
      PublishedStays(log[..n], i);
    }
  }

  /** Nothing happens to a row after it is published. */
  lemma PublishedIsFinal(log: Log, i: nat, j: nat)
    requires WellFormed(log) && i < j < |log| && log[i].Published?
    ensures log[j].outboxId != log[i].outboxId
  {
    assert ValidDelivery(log[..j], log[j]);
    assert log[..j][i] == log[i];
    PublishedStays(log[..j], i);
  }
}
