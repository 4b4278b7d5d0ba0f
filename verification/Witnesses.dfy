/** Concrete runs on which a promise fails; the theorems beside them say exactly when it holds. */
module Witnesses {
  import opened Base
  import opened Order
  import opened CaseDomain
  import opened Tables
  import opened CaseSpine
  import opened Outbox
  import opened Machine
  import opened CaseInvariants
  import opened DeliveryInvariants
  import opened DeliveryTheorems
  import opened Repositories
  import opened Publisher
  import EventFeed

  // ---------------------------------------------------------------- cases to work with

  function SampleCase(n: Uuid, key: string, at: Time): CreateCaseCommand {
    CreateCaseCommand(n, n, key, "title", None, Low, None, Actor(1, Service, {}), 1, at, None)
  }

  function CreateSample(n: Uuid, key: string, at: Time): Step {
    CreateStep(SampleCase(n, key, at), n, n)
  }

  function SampleEvent(n: Uuid, key: string, at: Time): EventRow {
    var c := SampleCase(n, key, at);
    NewEventRow(CreationEvent(c), None, Some(c.RequestFingerprint()))
  }

  /** No table mentions the number n or the key. */
  ghost predicate Unused(db: Db, n: Uuid, key: string) {
    && n !in db.cases && n !in db.events && n !in db.outbox
    && (forall o :: o in db.outbox ==> db.outbox[o].caseEventId != n)
    && (forall i :: 0 <= i < |db.audit| ==> db.audit[i].id != n)
    && (forall c :: c in db.cases ==> db.cases[c].idempotencyKey != key)
  }

  ghost predicate Sampled(s: System, s': System, n: Uuid, key: string, at: Time) {
    && s'.db.cases == s.db.cases[n := NewCaseRow(SampleCase(n, key, at))]
    && s'.db.events == s.db.events[n := SampleEvent(n, key, at)]
    && s'.db.outbox == s.db.outbox[n := NewOutboxRow(n, SampleEvent(n, key, at))]
    && |s'.db.audit| == |s.db.audit| + 1 && s'.db.audit[..|s.db.audit|] == s.db.audit
    && s'.db.audit[|s.db.audit|].id == n
    && s' == s.(db := s'.db)
  }

  lemma CreatesSample(s: System, n: Uuid, key: string, at: Time)
    requires Unused(s.db, n, key) && key != "" && !IsSpace(key[0]) && |key| <= 255
    ensures Enabled(s, CreateSample(n, key, at)) && Sampled(s, Next(s, CreateSample(n, key, at)), n, key, at)
  {
    hide CreationHistoryHolds, EventInsertable, OutboxInsertable, CaseInsertable, AuditInsertable;
    var c := SampleCase(n, key, at);
    assert key[0] in key && "title"[0] in "title";
    assert c.Valid();
    CreationCommits(s.db, c, n, n);
    CreateEffect(s.db, c, n, n);
    CreationAudit(s.db, c, n, n);
  }

  lemma CreationAudit(db: Db, c: CreateCaseCommand, outboxId: Uuid, auditId: Uuid)
    requires WriteNewCase(db, c, outboxId, auditId).Success?
    ensures var db' := WriteNewCase(db, c, outboxId, auditId).value;
            |db'.audit| == |db.audit| + 1 && db'.audit[..|db.audit|] == db.audit && db'.audit[|db.audit|].id == auditId
  {
    hide CaseInsertable, InputInsertable, EventInsertable, OutboxInsertable, AuditInsertable;
  }

  /** A single case created in an empty deployment. */
  lemma FirstSample(key: string, at: Time) returns (s: System)
    requires key != "" && !IsSpace(key[0]) && |key| <= 255
    ensures Sampled(Start(), s, 1, key, at) && Reachable(s)
  {
    hide Next, Enabled, Sampled;
    CreatesSample(Start(), 1, key, at);
    var steps := [CreateSample(1, key, at)];
    s := Next(Start(), steps[0]);
    assert steps[1..] == [];
    assert IsRun(Start(), steps) && Run(Start(), steps) == s;
    IsReachable(steps);
  }

  function Start(): System {
    Init(1, "c", false, 0)
  }

  lemma IsReachable(steps: seq<Step>)
    requires IsRun(Start(), steps)
    ensures Reachable(Run(Start(), steps))
  {
    hide IsRun, Run;
  }

  // ---------------------------------------------------------------- the event feed misses an event

  lemma KeysOfFirst(db: Db, at: Time)
    requires Sampled(Start(), Start().(db := db), 1, "a", at)
    ensures EventFeed.VisibleKeys(db, []) == {Key(at, 0, 1)}
  {
    assert EventFeed.Visible(db, [], 1);
  }

  lemma KeysOfBoth(s: System, s': System, at: Time, later: Time)
    requires Sampled(Start(), s, 1, "a", at) && Sampled(s, s', 2, "b", later)
    ensures EventFeed.VisibleKeys(s'.db, []) == {Key(at, 0, 1), Key(later, 0, 2)}
  {
    assert EventFeed.Visible(s'.db, [], 1) && EventFeed.Visible(s'.db, [], 2);
    assert Key(at, 0, 1) in EventFeed.VisibleKeys(s'.db, []);
    assert Key(later, 0, 2) in EventFeed.VisibleKeys(s'.db, []);
  }

  lemma OnePage(k: Key)
    ensures TakeFirst({k}, 1) == [k] && TakeFirst({}, 1) == []
  {
    assert TakeFirst({k}, 1)[0] in TakeFirst({k}, 1);
  }

  /**
   * Two cases are created, the second stamped before the first. A client that reads one event
   * after each creation is told the second time that it has everything, and never gets the
   * second event.
   */
  lemma FeedMissesLateEvent() returns (s: System, s': System, replay: seq<EventFeed.Read>)
    ensures Reachable(s) && Enabled(s, CreateSample(2, "b", 5)) && s' == Next(s, CreateSample(2, "b", 5))
    ensures replay == [EventFeed.Read(s.db, 1, [Key(10, 0, 1)]), EventFeed.Read(s'.db, 1, [])]
    ensures EventFeed.IsReplay([], [], replay)
    ensures Key(5, 0, 2) in EventFeed.VisibleKeys(s'.db, [])
    ensures EventFeed.HasGap(EventFeed.Delivered(replay), EventFeed.VisibleKeys(s'.db, []))
  {
    hide Next, Enabled, Reachable, EventFeed.VisibleKeys, TakeFirst, Sampled;
    s := FirstSample("a", 10);
    SecondUnused(s, 10);
    CreatesSample(s, 2, "b", 5);
    s' := Next(s, CreateSample(2, "b", 5));
    var k, late := Key(10, 0, 1), Key(5, 0, 2);
    KeysOfFirst(s.db, 10) by {
      OnlyTables(s, 10);
    }
    KeysOfBoth(s, s', 10, 5);
    OnePage(k);
    replay := [EventFeed.Read(s.db, 1, [k]), EventFeed.Read(s'.db, 1, [])];
    assert After({k, late}, k) == {};
    FirstConvertible(s, 10);
    CursorVisible(s, s', 10, 5);
    TwoReads(replay[0], replay[1]);
    assert EventFeed.Delivered(replay) == [k];
    Gap(k, late, EventFeed.VisibleKeys(s'.db, []));
  }

  lemma Gap(k: Key, late: Key, visible: set<Key>)
    requires late in visible && Less(late, k)
    ensures EventFeed.HasGap([k], visible)
  {
    assert late !in [k] && Less(late, [k][0]);
  }

  lemma SecondUnused(s: System, at: Time)
    requires Sampled(Start(), s, 1, "a", at)
    ensures Unused(s.db, 2, "b")
  {
  }

  lemma OnlyTables(s: System, at: Time)
    requires Sampled(Start(), s, 1, "a", at)
    ensures s == Start().(db := s.db)
  {
  }

  lemma FirstConvertible(s: System, at: Time)
    requires Sampled(Start(), s, 1, "a", at)
    ensures EventFeed.Convertible(s.db, [Key(at, 0, 1)])
  {
  }

  lemma CursorVisible(s: System, s': System, at: Time, later: Time)
    requires Sampled(Start(), s, 1, "a", at) && Sampled(s, s', 2, "b", later)
    ensures EventFeed.Visible(s'.db, [], 1) && s'.db.events[1].occurredAt == at
  {
  }

  lemma TwoReads(first: EventFeed.Read, second: EventFeed.Read)
    requires EventFeed.ReadAfter(first.db, None, [], first.limit) == Success(first.page)
    requires EventFeed.ReadAfter(second.db, EventFeed.ResumeKey(first.page), [], second.limit) == Success(second.page)
    ensures EventFeed.IsReplay([], [], [first, second])
    ensures EventFeed.Delivered([first, second]) == first.page + second.page
  {
    hide EventFeed.ReadAfter;
    assert [] + first.page == first.page;
    assert [first, second][1..] == [second] && [second][1..] == [];
    assert EventFeed.ResumeKey([]) == None;
    assert EventFeed.IsReplay([], first.page + second.page, [second][1..]);
    assert EventFeed.IsReplay([], first.page, [second]);
    assert EventFeed.Delivered([second]) == second.page + EventFeed.Delivered([]);
  }

  // ---------------------------------------------------------------- a sweep whose counters fall short

  const SWEEPER: Token := Token("sweeper", 0)
  const RIVAL: Token := Token("rival", 0)

  function AlwaysRaises(): nat -> TransportOutcome {
    i => Raised(None, false)
  }

  /** While the transport is at work, the lease expires and a rival takes the row over. */
  function RivalTakesOver(): nat -> seq<Step> {
    i => if i == 1 then [TickStep(1), LeaseStep(RIVAL, 1)] else []
  }

  lemma OnlyRowIsBatch(outbox: OutboxTable, o: Uuid, now: Time, leaseFor: Time)
    requires outbox.Keys == {o} && Eligible(outbox[o], now, leaseFor)
    ensures Batch(outbox, now, leaseFor, 1) == [o]
  {
    hide Batch, Eligible;
    forall p | p in Unpublished(outbox)
      ensures Eligible(outbox[p], now, leaseFor)
    {
    }
    OnlyRowUnpublished(outbox, o, now, leaseFor);
    BatchSize(outbox, now, leaseFor, 1);
  }

  lemma OnlyRowUnpublished(outbox: OutboxTable, o: Uuid, now: Time, leaseFor: Time)
    requires outbox.Keys == {o} && Eligible(outbox[o], now, leaseFor)
    ensures Unpublished(outbox) == {o}
  {
  }

  /** The row as the holder of the token leased it at the given time. */
  ghost predicate LeasedAlone(s: System, s': System, token: Token) {
    && 1 in s.db.outbox && s'.db.outbox == map[1 := LeasedRow(s.db.outbox[1], token, s.clock)]
    && s'.log == s.log + [Leased(1, token)] && s'.tokens == s.tokens + {token}
    && s'.clock == s.clock && s'.leaseFor == s.leaseFor
    && (forall l :: l in s.held ==> l in s'.held) && OutboxLease(1, token) in s'.held
  }

  lemma LeaseAlone(s: System, token: Token)
    requires s.db.outbox.Keys == {1} && Eligible(s.db.outbox[1], s.clock, s.leaseFor)
    ensures LeasedAlone(s, StepLease(s, token, 1), token)
  {
    hide Batch, Eligible, LeasedRow;
    OnlyRowIsBatch(s.db.outbox, 1, s.clock, s.leaseFor);
  }

  lemma RivalSteps(s: System)
    requires RIVAL !in s.tokens && s.clock <= 1
    ensures OthersSteps(s, [], SWEEPER) == []
    ensures OthersSteps(s, [TickStep(1), LeaseStep(RIVAL, 1)], SWEEPER) == [TickStep(1), LeaseStep(RIVAL, 1)]
    ensures IsRun(s, [TickStep(1), LeaseStep(RIVAL, 1)])
    ensures Run(s, [TickStep(1), LeaseStep(RIVAL, 1)]) == StepLease(s.(clock := 1), RIVAL, 1)
  {
    hide Batch, StepLease;
    var schedule := [TickStep(1), LeaseStep(RIVAL, 1)];
    assert schedule[1..] == [LeaseStep(RIVAL, 1)] && schedule[1..][1..] == [];
    assert Next(s, schedule[0]) == s.(clock := 1);
    assert OthersSteps(s.(clock := 1), schedule[1..], SWEEPER) == [LeaseStep(RIVAL, 1)];
    LeaseIsStepLease(s.(clock := 1), RIVAL, 1);
    SingleStep(s.(clock := 1), LeaseStep(RIVAL, 1));
  }

  lemma SingleStep(s: System, step: Step)
    requires Enabled(s, step)
    ensures IsRun(s, [step]) && Run(s, [step]) == Next(s, step)
  {
    hide Enabled, Next;
    assert [step][1..] == [];
  }

  function LosingSweep(s: System): Sweep {
    SweepOf(s, SWEEPER, 1, AlwaysRaises(), RivalTakesOver(), 1)
  }

  /** The sweep's only exchange, step by step. */
  lemma ExchangeWithRival(s: System, leased: System)
    requires Batch(s.db.outbox, s.clock, s.leaseFor, 1) == [1] && leased == StepLease(s, SWEEPER, 1)
    requires RIVAL !in leased.tokens && leased.clock <= 1
    ensures |LosingSweep(s).batch| == 1
    ensures LosingSweep(s).Exchanges(1)
            == [TickStep(1), LeaseStep(RIVAL, 1), RetryStep(OutboxLease(1, SWEEPER), 1, "transport.failed")]
    ensures LosingSweep(s).HoldsLease(0)
            == Holds(Then(leased, [TickStep(1), LeaseStep(RIVAL, 1)]).db.outbox, OutboxLease(1, SWEEPER))
  {
    hide Batch, StepLease, OthersSteps, Sweep.Exchanges, IsRun, Run, Then, Holds;
    var lease, rivals := OutboxLease(1, SWEEPER), [TickStep(1), LeaseStep(RIVAL, 1)];
    RivalSteps(leased);
    ThenNothing(leased);
    var sweep := LosingSweep(s);
    sweep.NoExchanges();
    sweep.OneMore(0);
    assert Presented(leased, lease, AlwaysRaises()(0), [], rivals) == rivals;
    assert Exchange(leased, lease, AlwaysRaises()(0), [], rivals, 1)
        == [TickStep(1), LeaseStep(RIVAL, 1), RetryStep(lease, 1, "transport.failed")];
  }

  lemma ThenNothing(s: System)
    ensures Then(s, []) == s
  {
  }

  /**
   * A sweep that leases one event, whose transport raises and whose retry comes too late: the
   * run is the one that `PublishOnce` prescribes, its token settles nothing, and `leased` is one
   * while the counters are all zero.
   */
  lemma LostRetryIsUncounted() returns (s: System)
    ensures Reachable(s) && SWEEPER !in s.tokens
    ensures |LosingSweep(s).batch| == 1
    ensures var trace := [LeaseStep(SWEEPER, 1)] + LosingSweep(s).Exchanges(1);
            && IsRun(s, trace)
            && PublishedBy(Run(s, trace).log, SWEEPER) == 0 && RetriedBy(Run(s, trace).log, SWEEPER) == 0
    ensures var sweep := LosingSweep(s);
            && AcceptedOf(AlwaysRaises(), 1) == 0
            && sweep.Acknowledged(1) == 0 && sweep.Rescheduled(1) == 0 && sweep.LateRetries(1) == 1
  {
    hide Batch, StepLease, OthersSteps, Sweep.Exchanges, Sweep.HoldsLease, Reachable, Sampled, IsRun, Run;
    s := FirstSample("a", 0);
    FirstRow(s);
    OnlyRowIsBatch(s.db.outbox, 1, s.clock, s.leaseFor);
    var leased := StepLease(s, SWEEPER, 1);
    LeaseAlone(s, SWEEPER);
    ExchangeWithRival(s, leased);
    var late := StepLease(leased.(clock := 1), RIVAL, 1);
    LeaseAlone(leased.(clock := 1), RIVAL);
    RivalSteps(leased);
    TooLate(leased, late);
    SweepWithRival(s, leased, late);
    var sweep := LosingSweep(s);
    assert [LeaseStep(SWEEPER, 1)] + sweep.Exchanges(1)
        == [LeaseStep(SWEEPER, 1), TickStep(1), LeaseStep(RIVAL, 1),
            RetryStep(OutboxLease(1, SWEEPER), 1, "transport.failed")];
    assert sweep.LateRetries(0) == 0 && sweep.Rescheduled(0) == 0 && sweep.Acknowledged(0) == 0;
  }

  lemma FirstRow(s: System)
    requires Sampled(Start(), s, 1, "a", 0)
    ensures s.db.outbox.Keys == {1} && s.clock == 0 && s.leaseFor == 1 && s.log == [] && s.tokens == {}
    ensures Eligible(s.db.outbox[1], 0, 1)
    ensures Eligible(LeasedRow(s.db.outbox[1], SWEEPER, 0), 1, 1)
  {
  }

  /** The rival holds the row, so the late retry matches nothing and is not logged. */
  lemma TooLate(leased: System, late: System)
    requires leased.db.outbox.Keys == {1} && OutboxLease(1, SWEEPER) in leased.held
    requires LeasedAlone(leased.(clock := 1), late, RIVAL)
    ensures var step := RetryStep(OutboxLease(1, SWEEPER), 1, "transport.failed");
            Enabled(late, step) && Next(late, step).log == late.log
    ensures !Holds(late.db.outbox, OutboxLease(1, SWEEPER))
  {
  }

  lemma SweepWithRival(s: System, leased: System, late: System)
    requires leased == StepLease(s, SWEEPER, 1) && SWEEPER !in s.tokens && s.log == []
    requires leased.log == [Leased(1, SWEEPER)] && late.log == [Leased(1, SWEEPER), Leased(1, RIVAL)]
    requires var rivals := [TickStep(1), LeaseStep(RIVAL, 1)]; IsRun(leased, rivals) && Run(leased, rivals) == late
    requires var step := RetryStep(OutboxLease(1, SWEEPER), 1, "transport.failed");
             Enabled(late, step) && Next(late, step).log == late.log
    ensures var trace := [LeaseStep(SWEEPER, 1), TickStep(1), LeaseStep(RIVAL, 1),
                          RetryStep(OutboxLease(1, SWEEPER), 1, "transport.failed")];
            && IsRun(s, trace)
            && PublishedBy(Run(s, trace).log, SWEEPER) == 0 && RetriedBy(Run(s, trace).log, SWEEPER) == 0
  {
    hide Next, StepLease, Enabled, IsRun, Run, PublishedBy, RetriedBy;
    var rivals := [TickStep(1), LeaseStep(RIVAL, 1)];
    var lease := LeaseStep(SWEEPER, 1);
    var step := RetryStep(OutboxLease(1, SWEEPER), 1, "transport.failed");
    LeaseEnabled(s, SWEEPER, 1);
    LeaseIsStepLease(s, SWEEPER, 1);
    SingleStep(s, lease);
    SingleStep(late, step);
    RunConcat(leased, rivals, [step]);
    RunConcat(s, [lease], rivals + [step]);
    assert [lease] + (rivals + [step]) == [lease, TickStep(1), LeaseStep(RIVAL, 1), step];
    NothingSettled(late.log);
  }

  lemma NothingSettled(log: seq<Delivery>)
    requires log == [Leased(1, SWEEPER), Leased(1, RIVAL)]
    ensures PublishedBy(log, SWEEPER) == 0 && RetriedBy(log, SWEEPER) == 0
  {
    ForeignEntries([], log, SWEEPER);
    assert [] + log == log;
  }
}
