/**
 * Recoverable reads of the immutable case events
 * (services/api/netops_api/application/event_feed.py): pages in ascending
 * (occurred_at, id) order, resumed from the last event that was delivered.
 */
module EventFeed {
  import opened Base
  import opened Order
  import opened CaseDomain
  import opened Tables
  import opened CaseInvariants
  import opened History
  import opened Machine
  import opened DeliveryTheorems
  import opened ArtifactTheorems

  datatype FeedError = InvalidLimit | EventCursorNotFound | MalformedRow

  /** The case has no asset, or an asset of the allow-list. */
  predicate Visible(db: Db, assetIds: seq<Uuid>, e: Uuid) {
    && e in db.events
    && db.events[e].caseId in db.cases
    && var asset := db.cases[db.events[e].caseId].assetId;
       asset.None? || asset.value in assetIds
  }

  function EventKey(occurredAt: Time, e: Uuid): Key {
    Key(occurredAt, 0, e)
  }

  function VisibleKeys(db: Db, assetIds: seq<Uuid>): set<Key> {
    set e | e in db.events && Visible(db, assetIds, e) :: EventKey(db.events[e].occurredAt, e)
  }

  /** The rows of one page: their keys (occurred_at, id), which identify the events. */
  function SelectPage(db: Db, afterEventId: Option<Uuid>, assetIds: seq<Uuid>, limit: int)
    : Result<seq<Key>, FeedError>
  {
    if !(1 <= limit <= 500) then Failure(InvalidLimit)
    else if afterEventId.None? then Success(TakeFirst(VisibleKeys(db, assetIds), limit))
    else if !Visible(db, assetIds, afterEventId.value) then Failure(EventCursorNotFound)
    else
      var cursor := EventKey(db.events[afterEventId.value].occurredAt, afterEventId.value);
      Success(TakeFirst(After(VisibleKeys(db, assetIds), cursor), limit))
  }

  /** Every event of the page has the actor that `_feed_event` converts. */
  predicate Convertible(db: Db, page: seq<Key>) {
    forall i :: 0 <= i < |page| ==>
      page[i].id >= 0 && page[i].id in db.events && db.events[page[i].id].actorId.Some?
  }

  /** A page is delivered whole or, when one of its rows has no actor, not at all. */
  function ReadAfter(db: Db, afterEventId: Option<Uuid>, assetIds: seq<Uuid>, limit: int)
    : Result<seq<Key>, FeedError>
  {
    var page :- SelectPage(db, afterEventId, assetIds, limit);
    if Convertible(db, page) then Success(page) else Failure(MalformedRow)
  }

  // ---------------------------------------------------------------- a replay

  /** The client resumes from the last event it was given. */
  function ResumeKey(delivered: seq<Key>): Option<Uuid> {
    if delivered == [] || delivered[|delivered| - 1].id < 0 then None else Some(delivered[|delivered| - 1].id as Uuid)
  }

  /** One read of a replay: the state of the database then, the limit, and the page returned. */
  datatype Read = Read(db: Db, limit: int, page: seq<Key>)

  /** The reads that follow `delivered`, each resumed from the event delivered last. */
  predicate IsReplay(assetIds: seq<Uuid>, delivered: seq<Key>, replay: seq<Read>)
    decreases |replay|
  {
    replay == []
    || (&& ReadAfter(replay[0].db, ResumeKey(delivered), assetIds, replay[0].limit) == Success(replay[0].page)
        && IsReplay(assetIds, delivered + replay[0].page, replay[1..]))
  }

  function Delivered(replay: seq<Read>): seq<Key> {
    if replay == [] then [] else replay[0].page + Delivered(replay[1..])
  }

  /** What has been delivered is in order, and everything else that is visible sorts after it. */
  ghost predicate IsPrefix(delivered: seq<Key>, visible: set<Key>) {
    && Ascending(delivered)
    && (forall k :: k in delivered ==> k in visible)
    && (forall k :: k in visible && k !in delivered && delivered != [] ==> Less(delivered[|delivered| - 1], k))
  }

  /** No visible event disappears, and new ones sort after what was delivered. */
  ghost predicate GrowsBehind(delivered: seq<Key>, visible: set<Key>, visible': set<Key>) {
    && visible <= visible'
    && (forall k :: k in visible' && k !in visible && delivered != [] ==> Less(delivered[|delivered| - 1], k))
  }

  /** Between two reads, history grows only behind what was delivered. */
  ghost predicate GrowsBehindReads(assetIds: seq<Uuid>, delivered: seq<Key>, replay: seq<Read>)
    decreases |replay|
  {
    |replay| <= 1
    || (&& GrowsBehind(delivered + replay[0].page, VisibleKeys(replay[0].db, assetIds),
                       VisibleKeys(replay[1].db, assetIds))
        && GrowsBehindReads(assetIds, delivered + replay[0].page, replay[1..]))
  }

  lemma GrowthKeepsPrefix(delivered: seq<Key>, visible: set<Key>, visible': set<Key>)
    requires IsPrefix(delivered, visible) && GrowsBehind(delivered, visible, visible')
    ensures IsPrefix(delivered, visible')
  {
  }

  /** The cursor of a replay is always visible, and the page continues the prefix. */
  lemma PageKeys(db: Db, assetIds: seq<Uuid>, delivered: seq<Key>, limit: int)
    requires IsPrefix(delivered, VisibleKeys(db, assetIds)) && 1 <= limit <= 500
    ensures SelectPage(db, ResumeKey(delivered), assetIds, limit)
            == Success(TakeFirst(Remaining(VisibleKeys(db, assetIds), delivered), limit))
  {
    hide Less;
    if delivered != [] {
      assert delivered[|delivered| - 1] in delivered;
    }
  }

  function Remaining(visible: set<Key>, delivered: seq<Key>): set<Key> {
    if delivered == [] then visible else After(visible, delivered[|delivered| - 1])
  }

  lemma AscendsPast(delivered: seq<Key>, page: seq<Key>)
    requires Ascending(delivered) && Ascending(page)
    requires delivered != [] ==> forall k :: k in page ==> Less(delivered[|delivered| - 1], k)
    ensures Ascending(delivered + page)
  {
    var all := delivered + page;
    forall i, j | 0 <= i < |delivered| <= j < |all|
      ensures Less(all[i], all[j])
    {
      assert all[j] in page;
      var last := delivered[|delivered| - 1];
      assert i == |delivered| - 1 || Less(delivered[i], last);
    }
  }

  lemma PrefixExtended(visible: set<Key>, delivered: seq<Key>, page: seq<Key>, limit: nat)
    requires IsPrefix(delivered, visible) && page == TakeFirst(Remaining(visible, delivered), limit) && limit > 0
    ensures IsPrefix(delivered + page, visible)
    ensures |page| < limit ==> forall k :: k in visible ==> k in delivered + page
  {
    AscendsPast(delivered, page);
    hide Ascending;
    var remaining := Remaining(visible, delivered);
    forall k | k in visible && k !in delivered + page
      ensures delivered + page != [] ==> Less((delivered + page)[|delivered + page| - 1], k)
      ensures |page| == limit
    {
      assert k in remaining;
      assert page != [];
      assert page[|page| - 1] in page;
    }
  }

  /** What holds after a replay that started with `delivered`. */
  ghost predicate ReplayHolds(assetIds: seq<Uuid>, all: seq<Key>, last: Read) {
    && IsPrefix(all, VisibleKeys(last.db, assetIds))
    && (|last.page| < last.limit ==> forall k :: k in VisibleKeys(last.db, assetIds) ==> k in all)
  }

  lemma OneReadHolds(assetIds: seq<Uuid>, delivered: seq<Key>, read: Read)
    requires IsPrefix(delivered, VisibleKeys(read.db, assetIds))
    requires ReadAfter(read.db, ResumeKey(delivered), assetIds, read.limit) == Success(read.page)
    ensures ReplayHolds(assetIds, delivered + read.page, read)
  {
    hide IsPrefix, VisibleKeys, Remaining, Less;
    PageKeys(read.db, assetIds, delivered, read.limit);
    PrefixExtended(VisibleKeys(read.db, assetIds), delivered, read.page, read.limit);
  }

  lemma {:induction false} ReplayKeepsPrefix(assetIds: seq<Uuid>, delivered: seq<Key>, replay: seq<Read>)
    requires replay != [] && IsReplay(assetIds, delivered, replay) && GrowsBehindReads(assetIds, delivered, replay)
    requires IsPrefix(delivered, VisibleKeys(replay[0].db, assetIds))
    ensures ReplayHolds(assetIds, delivered + Delivered(replay), replay[|replay| - 1])
    decreases |replay|
  {
    hide IsPrefix, VisibleKeys, GrowsBehind, ReadAfter;
    var first, rest := replay[0], replay[1..];
    OneReadHolds(assetIds, delivered, first);
    var next := delivered + first.page;
    if rest == [] {
      assert Delivered(replay) == first.page;
    } else {
      GrowthKeepsPrefix(next, VisibleKeys(first.db, assetIds), VisibleKeys(rest[0].db, assetIds));
      ReplayKeepsPrefix(assetIds, next, rest);
      hide ReplayHolds;
      assert delivered + Delivered(replay) == next + Delivered(rest);
    }
  }

  lemma PrefixThenRest(delivered: seq<Key>, visible: set<Key>, rest: set<Key>)
    requires IsPrefix(delivered, visible) && rest == set k | k in visible && k !in delivered
    ensures Sorted(visible) == delivered + Sorted(rest)
  {
    hide Less;
    AscendsPast(delivered, Sorted(rest));
    SortedUnique(visible, delivered + Sorted(rest));
  }

  lemma PrefixOfSorted(delivered: seq<Key>, visible: set<Key>)
    requires IsPrefix(delivered, visible)
    ensures delivered <= Sorted(visible)
    ensures (forall k :: k in visible ==> k in delivered) ==> delivered == Sorted(visible)
  {
    var rest := set k | k in visible && k !in delivered;
    PrefixThenRest(delivered, visible, rest);
    hide IsPrefix, Ascending;
    if forall k :: k in visible ==> k in delivered {
      assert rest == {};
      assert Sorted(rest) == [];
    }
  }

  /**
   * Without gaps or duplicates: with any limits and any commits between the reads, if new
   * visible events sort after what was delivered, a replay delivers a prefix of the sorted
   * visible history, and all of it once a page comes back short.
   */
  lemma ReplayDeliversPrefix(assetIds: seq<Uuid>, replay: seq<Read>)
    requires replay != [] && IsReplay(assetIds, [], replay) && GrowsBehindReads(assetIds, [], replay)
    ensures var last := replay[|replay| - 1]; var history := Sorted(VisibleKeys(last.db, assetIds));
            && Delivered(replay) <= history
            && (|last.page| < last.limit ==> Delivered(replay) == history)
  {
    hide VisibleKeys, Sorted;
    ReplayKeepsPrefix(assetIds, [], replay);
    var last := replay[|replay| - 1];
    assert [] + Delivered(replay) == Delivered(replay);
    PrefixOfSorted(Delivered(replay), VisibleKeys(last.db, assetIds));
  }

  // ---------------------------------------------------------------- why the order of commits matters

  /** Between two reads no event is changed or removed. */
  ghost predicate HistoryKept(replay: seq<Read>) {
    forall i :: 0 <= i < |replay| - 1 ==> Kept(replay[i].db.events, replay[i + 1].db.events)
  }

  ghost predicate LastStored(delivered: seq<Key>, db: Db) {
    delivered != [] ==>
      var last := delivered[|delivered| - 1];
      && last.id >= 0 && last.id in db.events
      && last == EventKey(db.events[last.id].occurredAt, last.id)
  }

  lemma PageIsStored(db: Db, assetIds: seq<Uuid>, delivered: seq<Key>, limit: int)
    requires LastStored(delivered, db) && ReadAfter(db, ResumeKey(delivered), assetIds, limit).Success?
    ensures var page := ReadAfter(db, ResumeKey(delivered), assetIds, limit).value;
            && LastStored(delivered + page, db)
            && Ascending(page)
            && (delivered != [] ==> forall k :: k in page ==> Less(delivered[|delivered| - 1], k))
  {
    hide Less, VisibleKeys, TakeFirst;
    var page := ReadAfter(db, ResumeKey(delivered), assetIds, limit).value;
    if delivered == [] {
      PageOfSome(db, assetIds, VisibleKeys(db, assetIds), limit);
    } else {
      PageOfSome(db, assetIds, After(VisibleKeys(db, assetIds), delivered[|delivered| - 1]), limit);
    }
    if page != [] {
      assert page[|page| - 1] in page;
    }
  }

  lemma PageOfSome(db: Db, assetIds: seq<Uuid>, some: set<Key>, limit: nat)
    requires some <= VisibleKeys(db, assetIds)
    ensures forall k :: k in TakeFirst(some, limit) ==>
      k in some && k.id >= 0 && k.id in db.events && k == EventKey(db.events[k.id].occurredAt, k.id)
    ensures Ascending(TakeFirst(some, limit))
  {
    hide Less;
    assert forall k :: k in some ==> k in VisibleKeys(db, assetIds);
  }

  lemma {:induction false} ReplayAscendsFrom(assetIds: seq<Uuid>, delivered: seq<Key>, replay: seq<Read>)
    requires IsReplay(assetIds, delivered, replay) && HistoryKept(replay)
    requires Ascending(delivered) && (replay != [] ==> LastStored(delivered, replay[0].db))
    ensures Ascending(delivered + Delivered(replay))
    decreases |replay|
  {
    hide ReadAfter, Less, Ascending;
    if replay == [] {
      assert delivered + Delivered(replay) == delivered;
    } else {
      var next := delivered + replay[0].page;
      PageIsStored(replay[0].db, assetIds, delivered, replay[0].limit);
      AscendsPast(delivered, replay[0].page);
      ReplayAscendsFrom(assetIds, next, replay[1..]);
      assert delivered + Delivered(replay) == next + Delivered(replay[1..]);
    }
  }

  /** Whatever the timestamps of new commits, a replay never repeats an event or goes back. */
  lemma ReplayAscends(assetIds: seq<Uuid>, replay: seq<Read>)
    requires IsReplay(assetIds, [], replay) && HistoryKept(replay)
    ensures Ascending(Delivered(replay))
  {
    ReplayAscendsFrom(assetIds, [], replay);
    assert [] + Delivered(replay) == Delivered(replay);
  }

  lemma {:induction false} DeliveredConcat(first: seq<Read>, second: seq<Read>)
    ensures Delivered(first + second) == Delivered(first) + Delivered(second)
    decreases |first|
  {
    if first == [] {
      assert first + second == second;
    } else {
      var page, rest := first[0].page, first[1..];
      assert first == [first[0]] + rest;
      assert first + second == [first[0]] + (rest + second);
      DeliveredConcat(rest, second);
      DeliveredCons(first[0], rest);
      DeliveredCons(first[0], rest + second);
      assert page + (Delivered(rest) + Delivered(second)) == page + Delivered(rest) + Delivered(second);
    }
  }

  lemma DeliveredCons(read: Read, rest: seq<Read>)
    ensures Delivered([read] + rest) == read.page + Delivered(rest)
  {
    assert ([read] + rest)[1..] == rest;
  }

  /** A visible event that was not delivered although a later one was. */
  ghost predicate HasGap(delivered: seq<Key>, visible: set<Key>) {
    exists k, i :: k in visible && k !in delivered && 0 <= i < |delivered| && Less(k, delivered[i])
  }

  lemma GapIsNoPrefix(delivered: seq<Key>, visible: set<Key>)
    requires HasGap(delivered, visible)
    ensures !(delivered <= Sorted(visible))
  {
    var history := Sorted(visible);
    var k, i :| k in visible && k !in delivered && 0 <= i < |delivered| && Less(k, delivered[i]);
    assert k in history;
    var j :| 0 <= j < |history| && history[j] == k;
    if j < |delivered| {
      assert delivered[j] in delivered;
      assert delivered[j] != history[j];
    } else {
      assert Less(history[i], k);
      assert delivered[i] != history[i];
    }
  }

  /**
   * An event that commits with a key below one already delivered is never delivered, however
   * the replay goes on; if it is visible, what is delivered has a gap.
   */
  lemma LateEventIsNeverDelivered(assetIds: seq<Uuid>, before: seq<Read>, rest: seq<Read>, late: Key)
    requires IsReplay(assetIds, [], before + rest) && HistoryKept(before + rest)
    requires late !in Delivered(before) && Delivered(before) != []
    requires Less(late, Delivered(before)[|Delivered(before)| - 1])
    ensures late !in Delivered(before + rest)
    ensures before + rest != []
    ensures late in VisibleKeys((before + rest)[|before + rest| - 1].db, assetIds) ==>
      var visible := VisibleKeys((before + rest)[|before + rest| - 1].db, assetIds);
      HasGap(Delivered(before + rest), visible) && !(Delivered(before + rest) <= Sorted(visible))
  {
    hide ReadAfter, VisibleKeys, HistoryKept, Sorted;
    DeliveredConcat(before, rest);
    ReplayAscends(assetIds, before + rest);
    var n, all := |Delivered(before)|, Delivered(before + rest);
    assert all[n - 1] == Delivered(before)[n - 1];
    forall j | n <= j < |all|
      ensures all[j] != late
    {
      assert Less(all[n - 1], all[j]);
    }
    var visible := VisibleKeys((before + rest)[|before + rest| - 1].db, assetIds);
    if late in visible {
      assert Less(late, all[n - 1]);
      GapIsNoPrefix(all, visible);
    }
  }

  // ---------------------------------------------------------------- the exact condition

  /** Between two reads no visible event is hidden or moved: see `VisibleEventsStay`. */
  ghost predicate VisibleKept(assetIds: seq<Uuid>, replay: seq<Read>) {
    forall i :: 0 <= i < |replay| - 1 ==> VisibleKeys(replay[i].db, assetIds) <= VisibleKeys(replay[i + 1].db, assetIds)
  }

  lemma {:induction false} VisibleAtTheEnd(assetIds: seq<Uuid>, replay: seq<Read>, i: nat)
    requires VisibleKept(assetIds, replay) && i < |replay|
    ensures VisibleKeys(replay[i].db, assetIds) <= VisibleKeys(replay[|replay| - 1].db, assetIds)
    decreases |replay| - i
  {
    hide VisibleKeys;
    if i < |replay| - 1 {
      VisibleAtTheEnd(assetIds, replay, i + 1);
    }
  }

  /** An event that commits between two reads below what was delivered leaves a gap for good. */
  lemma LateCommitLeavesGap(delivered: seq<Key>, later: seq<Key>, visible: set<Key>, visible': set<Key>, last: set<Key>)
    requires Ascending(delivered + later) && forall k :: k in delivered ==> k in visible
    requires visible <= visible' <= last && !GrowsBehind(delivered, visible, visible')
    ensures HasGap(delivered + later, last)
  {
    var all, n := delivered + later, |delivered|;
    var k :| k in visible' && k !in visible && delivered != [] && !Less(delivered[n - 1], k);
    assert delivered[n - 1] in delivered;
    assert Less(k, delivered[n - 1]) && all[n - 1] == delivered[n - 1];
    forall j | 0 <= j < |all|
      ensures all[j] != k
    {
      if j < n {
        assert all[j] in delivered;
      } else {
        assert Less(all[n - 1], all[j]);
      }
    }
    assert Less(k, all[n - 1]);
  }

  lemma {:induction false} GrowthElsewhereLeavesGap(assetIds: seq<Uuid>, delivered: seq<Key>, replay: seq<Read>)
    requires replay != [] && IsReplay(assetIds, delivered, replay)
    requires VisibleKept(assetIds, replay) && Ascending(delivered + Delivered(replay))
    requires forall k :: k in delivered ==> k in VisibleKeys(replay[0].db, assetIds)
    requires !GrowsBehindReads(assetIds, delivered, replay)
    ensures HasGap(delivered + Delivered(replay), VisibleKeys(replay[|replay| - 1].db, assetIds))
    decreases |replay|
  {
    hide VisibleKeys, GrowsBehind, ReadAfter, HasGap, Ascending;
    var first, rest := replay[0], replay[1..];
    var next := delivered + first.page;
    PageIsVisible(first, assetIds, delivered);
    assert delivered + Delivered(replay) == next + Delivered(rest);
    VisibleAtTheEnd(assetIds, replay, 1);
    var visible, visible' := VisibleKeys(first.db, assetIds), VisibleKeys(rest[0].db, assetIds);
    assert visible <= visible' by {
      assert VisibleKeys(replay[0].db, assetIds) <= VisibleKeys(replay[0 + 1].db, assetIds);
    }
    if GrowsBehind(next, visible, visible') {
      RestKept(assetIds, replay);
      GrowthElsewhereLeavesGap(assetIds, next, rest);
    } else {
      LateCommitLeavesGap(next, Delivered(rest), visible, visible', VisibleKeys(replay[|replay| - 1].db, assetIds));
    }
  }

  lemma RestKept(assetIds: seq<Uuid>, replay: seq<Read>)
    requires VisibleKept(assetIds, replay) && replay != []
    ensures VisibleKept(assetIds, replay[1..])
  {
    hide VisibleKeys;
    var rest := replay[1..];
    forall i | 0 <= i < |rest| - 1
      ensures VisibleKeys(rest[i].db, assetIds) <= VisibleKeys(rest[i + 1].db, assetIds)
    {
      assert rest[i] == replay[i + 1] && rest[i + 1] == replay[i + 1 + 1];
    }
  }

  lemma PageIsVisible(read: Read, assetIds: seq<Uuid>, delivered: seq<Key>)
    requires ReadAfter(read.db, ResumeKey(delivered), assetIds, read.limit) == Success(read.page)
    ensures forall k :: k in read.page ==> k in VisibleKeys(read.db, assetIds)
  {
    hide Less, VisibleKeys;
  }

  /**
   * The feed is free of gaps if and only if, between any two reads, new visible events sort
   * after what was delivered; otherwise some visible event is missed although a later one was
   * delivered.
   */
  lemma GapFreeIff(assetIds: seq<Uuid>, replay: seq<Read>)
    requires replay != [] && IsReplay(assetIds, [], replay)
    requires HistoryKept(replay) && VisibleKept(assetIds, replay)
    ensures var last := replay[|replay| - 1]; var visible := VisibleKeys(last.db, assetIds);
            && (GrowsBehindReads(assetIds, [], replay) <==> Delivered(replay) <= Sorted(visible))
            && (GrowsBehindReads(assetIds, [], replay) <==> !HasGap(Delivered(replay), visible))
            && (|last.page| < last.limit ==>
                  (GrowsBehindReads(assetIds, [], replay) <==> Delivered(replay) == Sorted(visible)))
  {
    hide VisibleKeys, GrowsBehindReads, ReadAfter, HasGap, Sorted, Ascending, IsReplay, HistoryKept, VisibleKept;
    var visible := VisibleKeys(replay[|replay| - 1].db, assetIds);
    assert [] + Delivered(replay) == Delivered(replay);
    if GrowsBehindReads(assetIds, [], replay) {
      ReplayDeliversPrefix(assetIds, replay);
      if HasGap(Delivered(replay), visible) {
        GapIsNoPrefix(Delivered(replay), visible);
      }
    } else {
      ReplayAscends(assetIds, replay);
      GrowthElsewhereLeavesGap(assetIds, [], replay);
      GapIsNoPrefix(Delivered(replay), visible);
    }
  }

  // ---------------------------------------------------------------- resuming

  lemma {:induction false} DeliveredStaysVisible(assetIds: seq<Uuid>, delivered: seq<Key>, replay: seq<Read>)
    requires replay != [] && IsReplay(assetIds, delivered, replay) && VisibleKept(assetIds, replay)
    requires forall k :: k in delivered ==> k in VisibleKeys(replay[0].db, assetIds)
    ensures forall k :: k in delivered + Delivered(replay) ==> k in VisibleKeys(replay[|replay| - 1].db, assetIds)
    decreases |replay|
  {
    hide VisibleKeys, ReadAfter;
    var first, rest := replay[0], replay[1..];
    var next := delivered + first.page;
    PageIsVisible(first, assetIds, delivered);
    if rest == [] {
      assert Delivered(replay) == first.page;
    } else {
      assert VisibleKeys(replay[0].db, assetIds) <= VisibleKeys(replay[0 + 1].db, assetIds);
      RestKept(assetIds, replay);
      DeliveredStaysVisible(assetIds, next, rest);
      assert delivered + Delivered(replay) == next + Delivered(rest);
    }
  }

  lemma VisibleCursor(db: Db, assetIds: seq<Uuid>, delivered: seq<Key>, limit: int)
    requires 1 <= limit <= 500 && forall k :: k in delivered ==> k in VisibleKeys(db, assetIds)
    ensures SelectPage(db, ResumeKey(delivered), assetIds, limit).Success?
  {
    hide Less;
    if delivered != [] {
      assert delivered[|delivered| - 1] in delivered;
    }
  }

  /**
   * Whatever the timestamps of the events committed meanwhile, a client that resumes from the
   * last event it was given is never told that its cursor is not available: it gets its page,
   * unless a row of that page cannot be converted.
   */
  lemma ReplayCanContinue(assetIds: seq<Uuid>, replay: seq<Read>, db: Db, limit: int)
    requires replay != [] && IsReplay(assetIds, [], replay) && VisibleKept(assetIds, replay)
    requires VisibleKeys(replay[|replay| - 1].db, assetIds) <= VisibleKeys(db, assetIds)
    requires 1 <= limit <= 500
    ensures var selected := SelectPage(db, ResumeKey(Delivered(replay)), assetIds, limit);
            && selected.Success?
            && ReadAfter(db, ResumeKey(Delivered(replay)), assetIds, limit)
               == (if Convertible(db, selected.value) then selected else Failure(MalformedRow))
  {
    hide VisibleKeys, SelectPage, IsReplay, VisibleKept, Convertible;
    DeliveredStaysVisible(assetIds, [], replay);
    assert [] + Delivered(replay) == Delivered(replay);
    VisibleCursor(db, assetIds, Delivered(replay), limit);
  }

  // ---------------------------------------------------------------- rows that cannot be converted

  lemma PageStartsAlike(some: set<Key>, limit: nat)
    requires limit >= 1
    ensures TakeFirst(some, 1) == [] <==> TakeFirst(some, limit) == []
    ensures TakeFirst(some, 1) != [] ==> TakeFirst(some, limit)[0] == TakeFirst(some, 1)[0]
  {
    hide Less, Sorted;
  }

  lemma SelectionStartsAlike(db: Db, afterEventId: Option<Uuid>, assetIds: seq<Uuid>, limit: int)
    requires 1 <= limit <= 500 && SelectPage(db, afterEventId, assetIds, 1).Success?
    ensures var one, page := SelectPage(db, afterEventId, assetIds, 1), SelectPage(db, afterEventId, assetIds, limit);
            && page.Success? && (one.value == [] <==> page.value == [])
            && (one.value != [] ==> page.value[0] == one.value[0])
  {
    hide Less, TakeFirst, VisibleKeys, After;
    var visible := VisibleKeys(db, assetIds);
    PageStartsAlike(visible, limit);
    if afterEventId.Some? && Visible(db, assetIds, afterEventId.value) {
      PageStartsAlike(After(visible, EventKey(db.events[afterEventId.value].occurredAt, afterEventId.value)), limit);
    }
  }

  /** When the next event has no actor, the read raises at every limit: the replay stops before it for good. */
  lemma StuckBeforeMalformedRow(db: Db, afterEventId: Option<Uuid>, assetIds: seq<Uuid>, limit: int)
    requires 1 <= limit <= 500 && ReadAfter(db, afterEventId, assetIds, 1) == Failure(MalformedRow)
    ensures ReadAfter(db, afterEventId, assetIds, limit) == Failure(MalformedRow)
  {
    hide VisibleKeys, After, Less, TakeFirst;
    SelectionStartsAlike(db, afterEventId, assetIds, limit);
    SinglePage(db, afterEventId, assetIds);
  }

  lemma SinglePage(db: Db, afterEventId: Option<Uuid>, assetIds: seq<Uuid>)
    requires SelectPage(db, afterEventId, assetIds, 1).Success?
    ensures |SelectPage(db, afterEventId, assetIds, 1).value| <= 1
  {
    hide Less, VisibleKeys, After;
  }

  // ---------------------------------------------------------------- the feed over the machine

  /** Steps of the machine never hide an event that was visible, or move it. */
  lemma VisibleEventsStay(db: Db, db': Db, assetIds: seq<Uuid>)
    requires Evolves(db, db')
    ensures VisibleKeys(db, assetIds) <= VisibleKeys(db', assetIds)
    ensures Kept(db.events, db'.events)
  {
    hide OutboxEvolves;
    forall k | k in VisibleKeys(db, assetIds)
      ensures k in VisibleKeys(db', assetIds)
    {
      var e :| e in db.events && Visible(db, assetIds, e) && k == EventKey(db.events[e].occurredAt, e);
      assert Visible(db', assetIds, e);
    }
  }

  /** The databases of a replay are states along one run of the machine. */
  ghost predicate AlongRun(replay: seq<Read>, states: seq<System>, between: seq<seq<Step>>) {
    && |replay| == |states| == |between|
    && (forall i :: 0 <= i < |replay| ==> replay[i].db == states[i].db)
    && (forall i :: 0 <= i < |replay| - 1 ==>
          IsRun(states[i], between[i]) && Run(states[i], between[i]) == states[i + 1])
  }

  /** Such a replay meets the hypotheses of the theorems above: history is kept and stays visible. */
  lemma RunKeepsHistory(assetIds: seq<Uuid>, replay: seq<Read>, states: seq<System>, between: seq<seq<Step>>)
    requires AlongRun(replay, states, between)
    ensures HistoryKept(replay) && VisibleKept(assetIds, replay)
  {
    hide IsRun, Run, VisibleKeys, Evolves, Kept;
    forall i | 0 <= i < |replay| - 1
      ensures Kept(replay[i].db.events, replay[i + 1].db.events)
      ensures VisibleKeys(replay[i].db, assetIds) <= VisibleKeys(replay[i + 1].db, assetIds)
    {
      RunEvolves(states[i], between[i]);
      VisibleEventsStay(states[i].db, states[i + 1].db, assetIds);
    }
  }

  lemma NoEventsYet(leaseFor: Time, consumer: string, required: bool, clock: Time)
    ensures ActorsMatch(Init(leaseFor, consumer, required, clock).db.events)
  {
  }

  lemma ReachableActors(s: System)
    requires Reachable(s)
    ensures ActorsMatch(s.db.events)
  {
    hide IsRun, Run, CasesEvolve, Kept, OutboxEvolves, ActorsMatch;
    var leaseFor: Time, consumer: string, required: bool, clock: Time, steps: seq<Step> :|
      && IsRun(Init(leaseFor, consumer, required, clock), steps)
      && Run(Init(leaseFor, consumer, required, clock), steps) == s;
    NoEventsYet(leaseFor, consumer, required, clock);
    RunEvolves(Init(leaseFor, consumer, required, clock), steps);
  }

  lemma SelectedAreEvents(db: Db, afterEventId: Option<Uuid>, assetIds: seq<Uuid>, limit: int)
    requires SelectPage(db, afterEventId, assetIds, limit).Success?
    ensures forall k :: k in SelectPage(db, afterEventId, assetIds, limit).value ==> k.id >= 0 && k.id in db.events
  {
    hide Less;
    assert forall k :: k in SelectPage(db, afterEventId, assetIds, limit).value ==> k in VisibleKeys(db, assetIds);
  }

  ghost predicate HoldsCompletion(db: Db, page: seq<Key>) {
    exists k :: k in page && k.id >= 0 && k.id in db.events && db.events[k.id].eventType.ArtifactCompleted?
  }

  /** In every reachable state a page raises if and only if it holds a completion event. */
  lemma PageRaisesIff(s: System, afterEventId: Option<Uuid>, assetIds: seq<Uuid>, limit: int)
    requires Reachable(s) && SelectPage(s.db, afterEventId, assetIds, limit).Success?
    ensures ReadAfter(s.db, afterEventId, assetIds, limit) == Failure(MalformedRow)
            <==> HoldsCompletion(s.db, SelectPage(s.db, afterEventId, assetIds, limit).value)
  {
    hide SelectPage, Reachable;
    ReachableActors(s);
    SelectedAreEvents(s.db, afterEventId, assetIds, limit);
    var page := SelectPage(s.db, afterEventId, assetIds, limit).value;
    assert forall i :: 0 <= i < |page| ==> page[i] in page;
  }

  /** While the actor column is NOT NULL, no page raises. */
  lemma DeclaredSchemaNeverRaises(s: System, afterEventId: Option<Uuid>, assetIds: seq<Uuid>, limit: int)
    requires Reachable(s) && s.db.eventActorRequired
    ensures ReadAfter(s.db, afterEventId, assetIds, limit) == SelectPage(s.db, afterEventId, assetIds, limit)
  {
    hide SelectPage, Reachable, Convertible;
    if SelectPage(s.db, afterEventId, assetIds, limit).Success? {
      DeclaredSchemaCompletesNothing(s);
      PageRaisesIff(s, afterEventId, assetIds, limit);
    }
  }

  // ---------------------------------------------------------------- what a reader gets and does not get

  /** An earlier event, or one of the same time with a smaller id. */
  predicate Earlier(db: Db, a: Uuid, b: Uuid)
    requires a in db.events && b in db.events
  {
    || db.events[a].occurredAt < db.events[b].occurredAt
    || (db.events[a].occurredAt == db.events[b].occurredAt && a < b)
  }

  /** The case of the event has no asset, or one that the reader was allowed. */
  predicate InScope(db: Db, assetIds: seq<Uuid>, e: Uuid)
    requires e in db.events
  {
    && db.events[e].caseId in db.cases
    && (db.cases[db.events[e].caseId].assetId != None ==>
          exists i :: 0 <= i < |assetIds| && Some(assetIds[i]) == db.cases[db.events[e].caseId].assetId)
  }

  ghost predicate IsEventKey(db: Db, k: Key) {
    k.id >= 0 && k.id in db.events && k == EventKey(db.events[k.id].occurredAt, k.id)
  }

  lemma KeysAreEvents(db: Db, assetIds: seq<Uuid>, k: Key)
    requires k in VisibleKeys(db, assetIds)
    ensures IsEventKey(db, k) && InScope(db, assetIds, k.id)
  {
  }

  lemma EventIsVisible(db: Db, assetIds: seq<Uuid>, e: Uuid)
    requires e in db.events && InScope(db, assetIds, e)
    ensures EventKey(db.events[e].occurredAt, e) in VisibleKeys(db, assetIds)
  {
    assert Visible(db, assetIds, e);
  }

  lemma SelectionIsVisible(db: Db, afterEventId: Option<Uuid>, assetIds: seq<Uuid>, limit: int)
    requires SelectPage(db, afterEventId, assetIds, limit).Success?
    ensures forall k :: k in SelectPage(db, afterEventId, assetIds, limit).value ==> k in VisibleKeys(db, assetIds)
    ensures Ascending(SelectPage(db, afterEventId, assetIds, limit).value)
    ensures |SelectPage(db, afterEventId, assetIds, limit).value| <= limit
  {
    hide Less, VisibleKeys;
  }

  /** One page: in scope, in order of time and id, after the cursor, and not longer than asked for. */
  lemma PageDelivers(db: Db, afterEventId: Option<Uuid>, assetIds: seq<Uuid>, limit: int)
    requires SelectPage(db, afterEventId, assetIds, limit).Success?
    ensures var page := SelectPage(db, afterEventId, assetIds, limit).value;
            && |page| <= limit
            && (forall i :: 0 <= i < |page| ==> IsEventKey(db, page[i]) && InScope(db, assetIds, page[i].id))
            && (forall i, j :: 0 <= i < j < |page| ==> Earlier(db, page[i].id, page[j].id))
            && (afterEventId.Some? ==>
                  afterEventId.value in db.events
                  && forall i :: 0 <= i < |page| ==> Earlier(db, afterEventId.value, page[i].id))
  {
    hide VisibleKeys, InScope;
    SelectionIsVisible(db, afterEventId, assetIds, limit);
    var page := SelectPage(db, afterEventId, assetIds, limit).value;
    forall i | 0 <= i < |page|
      ensures IsEventKey(db, page[i]) && InScope(db, assetIds, page[i].id)
    {
      assert page[i] in page;
      KeysAreEvents(db, assetIds, page[i]);
    }
    forall i | 0 <= i < |page| && afterEventId.Some?
      ensures Earlier(db, afterEventId.value, page[i].id)
    {
      assert page[i] in page;
    }
  }

  /**
   * An event in scope is left out of a page only if it is not after the cursor, or the page is full of
   * earlier ones.
   */
  lemma PageLeavesOut(db: Db, afterEventId: Option<Uuid>, assetIds: seq<Uuid>, limit: int, e: Uuid)
    requires SelectPage(db, afterEventId, assetIds, limit).Success? && e in db.events && InScope(db, assetIds, e)
    requires EventKey(db.events[e].occurredAt, e) !in SelectPage(db, afterEventId, assetIds, limit).value
    ensures var page := SelectPage(db, afterEventId, assetIds, limit).value;
            || (afterEventId.Some? && afterEventId.value in db.events && !Earlier(db, afterEventId.value, e))
            || (|page| == limit && forall i :: 0 <= i < |page| ==>
                  page[i].id >= 0 && page[i].id in db.events && Earlier(db, page[i].id, e))
  {
    hide VisibleKeys, InScope, TakeFirst;
    var k, visible := EventKey(db.events[e].occurredAt, e), VisibleKeys(db, assetIds);
    EventIsVisible(db, assetIds, e);
    PageDelivers(db, afterEventId, assetIds, limit);
    if afterEventId.None? {
      CutOff(visible, limit, k);
    } else {
      var cursor := EventKey(db.events[afterEventId.value].occurredAt, afterEventId.value);
      if Earlier(db, afterEventId.value, e) {
        CutOff(After(visible, cursor), limit, k);
      }
    }
  }

  /** Which reads are refused before any row is read. */
  lemma ReadRefusedIff(db: Db, afterEventId: Option<Uuid>, assetIds: seq<Uuid>, limit: int)
    ensures SelectPage(db, afterEventId, assetIds, limit) == Failure(InvalidLimit) <==> limit < 1 || limit > 500
    ensures SelectPage(db, afterEventId, assetIds, limit) == Failure(EventCursorNotFound)
            <==> && 1 <= limit <= 500 && afterEventId.Some?
                 && (afterEventId.value !in db.events || !InScope(db, assetIds, afterEventId.value))
  {
    hide VisibleKeys, TakeFirst, After;
  }
}
