/**
 * Keyset pagination of the case list (services/api/netops_api/application/cases.py):
 * one page per call, each from whatever the table holds at that moment.
 */
module Pagination {
  import opened Base
  import opened Order
  import opened CaseDomain
  import opened Tables

  import opened CaseInvariants
  import opened History
  import opened Machine
  import opened DeliveryTheorems

  /** Text search is the database's: `ilike(text, query)` and the text form of an id. */
  datatype TextSearch = TextSearch(ilike: (string, string) -> bool, idText: Uuid -> string)

  datatype Filter = Filter(
    assetIds: seq<Uuid>, state: Option<CaseState>, severity: Option<Severity>, query: Option<string>)

  datatype CaseListCursor = CaseListCursor(updatedAt: Time, caseId: Uuid)

  datatype CaseListPage = CaseListPage(items: seq<CaseRow>, nextCursor: Option<CaseListCursor>)

  datatype ListError = InvalidLimit | QueryTooLong

  predicate MatchesQuery(search: TextSearch, query: Option<string>, row: CaseRow) {
    || query.None?
    || Strip(query.value) == ""
    || search.ilike(row.title, Strip(query.value))
    || search.ilike(if row.category.Some? then row.category.value else "", Strip(query.value))
    || search.ilike(search.idText(row.id), Strip(query.value))
  }

  predicate Matches(search: TextSearch, filter: Filter, row: CaseRow) {
    && (row.assetId.None? || row.assetId.value in filter.assetIds)
    && (filter.state.None? || row.state == filter.state.value)
    && (filter.severity.None? || row.severity == filter.severity.value)
    && MatchesQuery(search, filter.query, row)
  }

  /** `ORDER BY updated_at DESC, id DESC`. */
  function ListKey(updatedAt: Time, id: Uuid): Key {
    Key(-updatedAt, 0, -(id as int))
  }

  function RowKey(row: CaseRow): Key {
    ListKey(row.updatedAt, row.id)
  }

  predicate Beyond(cursor: Option<CaseListCursor>, row: CaseRow) {
    cursor.None? || Less(ListKey(cursor.value.updatedAt, cursor.value.caseId), RowKey(row))
  }

  predicate Selected(search: TextSearch, filter: Filter, cursor: Option<CaseListCursor>, row: CaseRow) {
    Matches(search, filter, row) && Beyond(cursor, row)
  }

  function SelectedKeys(cases: CaseTable, search: TextSearch, filter: Filter, cursor: Option<CaseListCursor>)
    : set<Key>
  {
    set c | c in cases && Selected(search, filter, cursor, cases[c]) :: RowKey(cases[c])
  }

  lemma SelectedKeysHaveRows(cases: CaseTable, search: TextSearch, filter: Filter, cursor: Option<CaseListCursor>)
    requires KeyedById(cases)
    ensures forall k :: k in SelectedKeys(cases, search, filter, cursor) ==>
      && k.id <= 0 && -k.id in cases
      && RowKey(RowOf(cases, k)) == k && Selected(search, filter, cursor, RowOf(cases, k))
  {
    hide Selected;
  }

  function RowOf(cases: CaseTable, k: Key): (row: CaseRow)
    requires k.id <= 0 && -k.id in cases
  {
    cases[-k.id]
  }

  function Fetch(cases: CaseTable, search: TextSearch, filter: Filter, cursor: Option<CaseListCursor>, limit: nat)
    : seq<CaseRow>
    requires KeyedById(cases)
  {
    SelectedKeysHaveRows(cases, search, filter, cursor);
    hide Selected, SelectedKeys, Less, KeyedById;
    var keys := TakeFirst(SelectedKeys(cases, search, filter, cursor), limit);
    seq(|keys|, i requires 0 <= i < |keys| => assert keys[i] in keys; RowOf(cases, keys[i]))
  }

  /** One row more than the limit is fetched; it decides whether there is a next page. */
  function PageOf(records: seq<CaseRow>, limit: nat): CaseListPage
    requires limit > 0
  {
    var items := records[..Min(limit, |records|)];
    CaseListPage(items,
      if |records| > limit
      then Some(CaseListCursor(items[|items| - 1].updatedAt, items[|items| - 1].id))
      else None)
  }

  function ListCases(
      cases: CaseTable, search: TextSearch, filter: Filter, limit: int, cursor: Option<CaseListCursor>)
    : Result<CaseListPage, ListError>
    requires KeyedById(cases)
  {
    if !(1 <= limit <= 100) then Failure(InvalidLimit)
    else if filter.query.Some? && |Strip(filter.query.value)| > 100 then Failure(QueryTooLong)
    else Success(PageOf(Fetch(cases, search, filter, cursor, limit + 1), limit))
  }

  // ---------------------------------------------------------------- one page

  ghost predicate Descending(rows: seq<CaseRow>) {
    forall i, j :: 0 <= i < j < |rows| ==> Less(RowKey(rows[i]), RowKey(rows[j]))
  }

  /** What a page promises of the table it was read from. */
  ghost predicate IsPage(
      cases: CaseTable, search: TextSearch, filter: Filter, cursor: Option<CaseListCursor>, page: CaseListPage)
  {
    && Descending(page.items)
    && (forall r :: r in page.items ==> r.id in cases && cases[r.id] == r && Selected(search, filter, cursor, r))
    && (page.nextCursor.Some? ==>
          && page.items != []
          && var last := page.items[|page.items| - 1];
             page.nextCursor.value == CaseListCursor(last.updatedAt, last.id))
    && (forall c :: c in cases && Selected(search, filter, cursor, cases[c]) && cases[c] !in page.items ==>
          page.nextCursor.Some? && Beyond(page.nextCursor, cases[c]))
  }

  /** What a limited query returns: the first rows, and all of them when there are fewer than the limit. */
  ghost predicate IsFetched(
      cases: CaseTable, search: TextSearch, filter: Filter, cursor: Option<CaseListCursor>,
      records: seq<CaseRow>, limit: nat)
  {
    && Descending(records)
    && |records| <= limit
    && (forall r :: r in records ==> r.id in cases && cases[r.id] == r && Selected(search, filter, cursor, r))
    && (forall c :: c in cases && Selected(search, filter, cursor, cases[c]) && cases[c] !in records ==>
          |records| == limit && forall r :: r in records ==> Less(RowKey(r), RowKey(cases[c])))
  }

  lemma FetchKeys(cases: CaseTable, search: TextSearch, filter: Filter, cursor: Option<CaseListCursor>, limit: nat)
    requires KeyedById(cases)
    ensures var records := Fetch(cases, search, filter, cursor, limit);
            && |records| == |TakeFirst(SelectedKeys(cases, search, filter, cursor), limit)|
            && forall i :: 0 <= i < |records| ==>
                 && RowKey(records[i]) == TakeFirst(SelectedKeys(cases, search, filter, cursor), limit)[i]
                 && records[i].id in cases && cases[records[i].id] == records[i]
                 && Selected(search, filter, cursor, records[i])
  {
    SelectedKeysHaveRows(cases, search, filter, cursor);
    hide Selected, SelectedKeys, Less;
    var keys := TakeFirst(SelectedKeys(cases, search, filter, cursor), limit);
    assert forall i :: 0 <= i < |keys| ==> keys[i] in keys;
  }

  lemma MissingIsAfter(
      cases: CaseTable, search: TextSearch, filter: Filter, cursor: Option<CaseListCursor>, limit: nat,
      row: CaseRow, i: nat)
    requires KeyedById(cases) && row.id in cases && cases[row.id] == row && Selected(search, filter, cursor, row)
    requires row !in Fetch(cases, search, filter, cursor, limit)
    ensures |Fetch(cases, search, filter, cursor, limit)| == limit
    ensures i < limit ==> Less(RowKey(Fetch(cases, search, filter, cursor, limit)[i]), RowKey(row))
  {
    hide Selected, Less, Fetch, SelectedKeys;
    FetchKeys(cases, search, filter, cursor, limit);
    RowIsSelected(cases, search, filter, cursor, row);
    var keys := TakeFirst(SelectedKeys(cases, search, filter, cursor), limit);
    var records := Fetch(cases, search, filter, cursor, limit);
    if i < limit {
      assert keys[i] in keys;
    }
  }

  lemma RowIsSelected(
      cases: CaseTable, search: TextSearch, filter: Filter, cursor: Option<CaseListCursor>, row: CaseRow)
    requires row.id in cases && cases[row.id] == row && Selected(search, filter, cursor, row)
    ensures RowKey(row) in SelectedKeys(cases, search, filter, cursor)
  {
    hide Selected;
  }

  lemma FetchMeaning(cases: CaseTable, search: TextSearch, filter: Filter, cursor: Option<CaseListCursor>, limit: nat)
    requires KeyedById(cases)
    ensures IsFetched(cases, search, filter, cursor, Fetch(cases, search, filter, cursor, limit), limit)
  {
    hide Selected, Less, Fetch, SelectedKeys, RowKey;
    FetchKeys(cases, search, filter, cursor, limit);
    var records := Fetch(cases, search, filter, cursor, limit);
    forall c | c in cases && Selected(search, filter, cursor, cases[c]) && cases[c] !in records
      ensures |records| == limit
      ensures forall i :: 0 <= i < |records| ==> Less(RowKey(records[i]), RowKey(cases[c]))
    {
      MissingIsAfter(cases, search, filter, cursor, limit, cases[c], 0);
      forall i | 0 <= i < |records|
        ensures Less(RowKey(records[i]), RowKey(cases[c]))
      {
        MissingIsAfter(cases, search, filter, cursor, limit, cases[c], i);
      }
    }
  }

  lemma ExtraIsMissing(records: seq<CaseRow>, limit: nat)
    requires Descending(records) && limit < |records|
    ensures records[limit] !in records[..limit]
  {
    forall i | 0 <= i < limit
      ensures records[i] != records[limit]
    {
      LessIsStrict(RowKey(records[i]), RowKey(records[limit]));
    }
  }

  lemma LessIsStrict(a: Key, b: Key)
    requires Less(a, b)
    ensures a != b
  {
  }

  lemma PageOfFetched(
      cases: CaseTable, search: TextSearch, filter: Filter, cursor: Option<CaseListCursor>,
      records: seq<CaseRow>, limit: nat)
    requires limit > 0 && IsFetched(cases, search, filter, cursor, records, limit + 1)
    ensures IsPage(cases, search, filter, cursor, PageOf(records, limit))
  {
    hide Selected, Less;
    var page := PageOf(records, limit);
    forall c | c in cases && Selected(search, filter, cursor, cases[c]) && cases[c] !in page.items
      ensures page.nextCursor.Some? && Beyond(page.nextCursor, cases[c])
    {
      if cases[c] in records {
        var i :| 0 <= i < |records| && records[i] == cases[c];
        assert i == limit;
      } else {
        assert records[limit - 1] in records;
      }
    }
  }

  lemma ExtraPromisesMore(
      cases: CaseTable, search: TextSearch, filter: Filter, cursor: Option<CaseListCursor>,
      records: seq<CaseRow>, limit: nat)
    requires limit > 0 && IsFetched(cases, search, filter, cursor, records, limit + 1)
    requires PageOf(records, limit).nextCursor.Some?
    ensures HasMore(cases, search, filter, cursor, PageOf(records, limit))
  {
    hide Selected, Less;
    ExtraIsMissing(records, limit);
    assert records[limit] in records;
    assert cases[records[limit].id] == records[limit];
  }

  ghost predicate HasMore(
      cases: CaseTable, search: TextSearch, filter: Filter, cursor: Option<CaseListCursor>, page: CaseListPage)
  {
    exists c :: c in cases && Selected(search, filter, cursor, cases[c]) && cases[c] !in page.items
  }

  /** A page names a next cursor exactly when rows were left out, and those are all beyond it. */
  lemma PageMeaning(cases: CaseTable, search: TextSearch, filter: Filter, limit: int, cursor: Option<CaseListCursor>)
    requires KeyedById(cases) && ListCases(cases, search, filter, limit, cursor).Success?
    ensures var page := ListCases(cases, search, filter, limit, cursor).value;
            && IsPage(cases, search, filter, cursor, page)
            && (page.nextCursor.Some? <==> HasMore(cases, search, filter, cursor, page))
            && |page.items| <= limit
  {
    hide Selected, Fetch, IsFetched, Descending;
    var records := Fetch(cases, search, filter, cursor, limit + 1);
    FetchMeaning(cases, search, filter, cursor, limit + 1);
    PageOfFetched(cases, search, filter, cursor, records, limit);
    if PageOf(records, limit).nextCursor.Some? {
      ExtraPromisesMore(cases, search, filter, cursor, records, limit);
    }
  }

  // ---------------------------------------------------------------- a walk

  /**
   * Following the next cursor from page to page until there is none. Every page may be read
   * from a different table and with a different limit.
   */
  predicate IsWalk(
      tables: seq<CaseTable>, limits: seq<int>, search: TextSearch, filter: Filter,
      cursor: Option<CaseListCursor>, pages: seq<CaseListPage>)
    requires forall i :: 0 <= i < |tables| ==> KeyedById(tables[i])
    decreases |pages|
  {
    && |tables| == |limits| == |pages| > 0
    && ListCases(tables[0], search, filter, limits[0], cursor) == Success(pages[0])
    && if pages[0].nextCursor.None? then |pages| == 1
       else IsWalk(tables[1..], limits[1..], search, filter, pages[0].nextCursor, pages[1..])
  }

  function Rows(pages: seq<CaseListPage>): seq<CaseRow> {
    if pages == [] then [] else pages[0].items + Rows(pages[1..])
  }

  lemma DescendingAppend(front: seq<CaseRow>, rest: seq<CaseRow>, last: CaseListCursor)
    requires front != [] && Descending(front) && Descending(rest)
    requires last == CaseListCursor(front[|front| - 1].updatedAt, front[|front| - 1].id)
    requires forall r :: r in rest ==> Beyond(Some(last), r)
    ensures Descending(front + rest)
  {
    forall i, j | 0 <= i < |front| && 0 <= j < |rest|
      ensures Less(RowKey(front[i]), RowKey(rest[j]))
    {
      assert rest[j] in rest;
      assert i < |front| - 1 ==> Less(RowKey(front[i]), RowKey(front[|front| - 1]));
    }
  }

  lemma BeyondLater(front: seq<CaseRow>, cursor: Option<CaseListCursor>, next: Option<CaseListCursor>, r: CaseRow)
    requires front != [] && next.Some? && Beyond(cursor, front[|front| - 1])
    requires next.value == CaseListCursor(front[|front| - 1].updatedAt, front[|front| - 1].id)
    requires Beyond(next, r)
    ensures Beyond(cursor, r)
  {
  }

  /** The pages of a walk, put together, are strictly descending: nothing is returned twice. */
  lemma {:induction false} WalkDescends(
      tables: seq<CaseTable>, limits: seq<int>, search: TextSearch, filter: Filter,
      cursor: Option<CaseListCursor>, pages: seq<CaseListPage>)
    requires forall i :: 0 <= i < |tables| ==> KeyedById(tables[i])
    requires IsWalk(tables, limits, search, filter, cursor, pages)
    ensures Descending(Rows(pages))
    ensures forall r :: r in Rows(pages) ==> Matches(search, filter, r) && Beyond(cursor, r)
    ensures forall r :: r in Rows(pages) ==> exists i :: 0 <= i < |tables| && r.id in tables[i] && tables[i][r.id] == r
    decreases |pages|
  {
    hide ListCases, Matches, Less;
    PageMeaning(tables[0], search, filter, limits[0], cursor);
    var front, rest := pages[0].items, Rows(pages[1..]);
    if pages[0].nextCursor.Some? {
      WalkDescends(tables[1..], limits[1..], search, filter, pages[0].nextCursor, pages[1..]);
      DescendingAppend(front, rest, pages[0].nextCursor.value);
      forall r | r in rest
        ensures Beyond(cursor, r)
        ensures exists i :: 0 <= i < |tables| && r.id in tables[i] && tables[i][r.id] == r
      {
        BeyondLater(front, cursor, pages[0].nextCursor, r);
        var i :| 0 <= i < |tables[1..]| && r.id in tables[1..][i] && tables[1..][i][r.id] == r;
        assert tables[i + 1][r.id] == r;
      }
    } else {
      assert pages[1..] == [];
      assert front + rest == front;
    }
  }

  /** A matching row that stays as it is while the walk passes is found. */
  lemma {:induction false} WalkFinds(
      tables: seq<CaseTable>, limits: seq<int>, search: TextSearch, filter: Filter,
      cursor: Option<CaseListCursor>, pages: seq<CaseListPage>, row: CaseRow)
    requires forall i :: 0 <= i < |tables| ==> KeyedById(tables[i])
    requires IsWalk(tables, limits, search, filter, cursor, pages)
    requires forall i :: 0 <= i < |tables| ==> row.id in tables[i] && tables[i][row.id] == row
    requires Selected(search, filter, cursor, row)
    ensures row in Rows(pages)
    decreases |pages|
  {
    hide ListCases, Matches, Less;
    PageMeaning(tables[0], search, filter, limits[0], cursor);
    if row !in pages[0].items {
      WalkFinds(tables[1..], limits[1..], search, filter, pages[0].nextCursor, pages[1..], row);
    }
  }

  ghost predicate AppearsOnce(rows: seq<CaseRow>, row: CaseRow) {
    exists i :: 0 <= i < |rows| && rows[i] == row && forall j :: 0 <= j < |rows| && j != i ==> rows[j].id != row.id
  }

  /**
   * Whatever is inserted or transitioned between the pages, a row that matches the filter and
   * is not itself modified during the walk is returned exactly once.
   */
  lemma UnmodifiedRowsAppearOnce(
      tables: seq<CaseTable>, limits: seq<int>, search: TextSearch, filter: Filter, pages: seq<CaseListPage>,
      row: CaseRow)
    requires forall i :: 0 <= i < |tables| ==> KeyedById(tables[i])
    requires IsWalk(tables, limits, search, filter, None, pages)
    requires forall i :: 0 <= i < |tables| ==> row.id in tables[i] && tables[i][row.id] == row
    requires Matches(search, filter, row)
    ensures AppearsOnce(Rows(pages), row)
  {
    hide IsWalk, Matches;
    WalkFinds(tables, limits, search, filter, None, pages, row);
    WalkDescends(tables, limits, search, filter, None, pages);
    var rows := Rows(pages);
    var i :| 0 <= i < |rows| && rows[i] == row;
    forall j | 0 <= j < |rows| && j != i
      ensures rows[j].id != row.id
    {
      assert rows[j] in rows;
    }
  }

  /** A row that does not match the filter in any table of the walk is never returned. */
  lemma NonMatchingRowsNeverAppear(
      tables: seq<CaseTable>, limits: seq<int>, search: TextSearch, filter: Filter, pages: seq<CaseListPage>, c: Uuid)
    requires forall i :: 0 <= i < |tables| ==> KeyedById(tables[i])
    requires IsWalk(tables, limits, search, filter, None, pages)
    requires forall i :: 0 <= i < |tables| ==> c in tables[i] ==> !Matches(search, filter, tables[i][c])
    ensures forall r :: r in Rows(pages) ==> r.id != c
  {
    hide IsWalk, Matches;
    WalkDescends(tables, limits, search, filter, None, pages);
  }

  /** The tables that a walk may read: the case table of any reachable state is keyed by case id. */
  lemma ReachableCasesAreKeyed(s: System)
    requires Reachable(s)
    ensures KeyedById(s.db.cases)
  {
    var leaseFor: Time, consumer: string, required: bool, clock: Time, steps: seq<Step> :|
      && IsRun(Init(leaseFor, consumer, required, clock), steps)
      && Run(Init(leaseFor, consumer, required, clock), steps) == s;
    RunEvolves(Init(leaseFor, consumer, required, clock), steps);
    hide IsRun, Run, AppearsOnce;
  }

  // ---------------------------------------------------------------- a frozen table

  function RowKeys(rows: seq<CaseRow>): seq<Key> {
    seq(|rows|, i requires 0 <= i < |rows| => RowKey(rows[i]))
  }

  /** On a table that does not change, the pages are the matching rows in list order. */
  lemma FrozenWalkIsSortedTable(
      tables: seq<CaseTable>, limits: seq<int>, search: TextSearch, filter: Filter, pages: seq<CaseListPage>,
      cases: CaseTable)
    requires KeyedById(cases) && forall i :: 0 <= i < |tables| ==> tables[i] == cases
    requires IsWalk(tables, limits, search, filter, None, pages)
    ensures RowKeys(Rows(pages)) == Sorted(SelectedKeys(cases, search, filter, None))
    ensures forall r :: r in Rows(pages) <==> r.id in cases && cases[r.id] == r && Matches(search, filter, r)
  {
    hide IsWalk, Matches, Less;
    var rows := Rows(pages);
    WalkDescends(tables, limits, search, filter, None, pages);
    forall r: CaseRow | r.id in cases && cases[r.id] == r && Matches(search, filter, r)
      ensures r in rows
    {
      WalkFinds(tables, limits, search, filter, None, pages, r);
    }
    var keys := RowKeys(rows);
    forall k
      ensures k in keys <==> k in SelectedKeys(cases, search, filter, None)
    {
      if k in keys {
        var i :| 0 <= i < |keys| && keys[i] == k;
        assert rows[i] in rows;
      }
      if k in SelectedKeys(cases, search, filter, None) {
        var c :| c in cases && Selected(search, filter, None, cases[c]) && RowKey(cases[c]) == k;
        assert cases[c] in rows;
        var i :| 0 <= i < |rows| && rows[i] == cases[c];
        assert keys[i] == k;
      }
    }
    SortedUnique(SelectedKeys(cases, search, filter, None), keys);
  }

  /** No page of a frozen walk is empty, unless nothing is left to list: the extra row is a promise. */
  lemma {:induction false} FrozenPagesNonEmpty(
      tables: seq<CaseTable>, limits: seq<int>, search: TextSearch, filter: Filter,
      cursor: Option<CaseListCursor>, pages: seq<CaseListPage>, cases: CaseTable, row: CaseRow)
    requires KeyedById(cases) && forall i :: 0 <= i < |tables| ==> tables[i] == cases
    requires IsWalk(tables, limits, search, filter, cursor, pages)
    requires row.id in cases && cases[row.id] == row && Selected(search, filter, cursor, row)
    ensures forall i :: 0 <= i < |pages| ==> pages[i].items != []
    decreases |pages|
  {
    hide Matches, Less, ListCases, KeyedById;
    PageMeaning(tables[0], search, filter, limits[0], cursor);
    var page := pages[0];
    if page.nextCursor.Some? {
      var c :| c in cases && Selected(search, filter, cursor, cases[c]) && cases[c] !in page.items;
      IdIsKey(cases, c);
      FrozenPagesNonEmpty(tables[1..], limits[1..], search, filter, page.nextCursor, pages[1..], cases, cases[c]);
      assert forall i :: 1 <= i < |pages| ==> pages[i] == pages[1..][i - 1];
    }
  }

  lemma IdIsKey(cases: CaseTable, c: Uuid)
    requires KeyedById(cases) && c in cases
    ensures cases[c].id == c
  {
  }

  /** How many pages list n rows. */
  function PageCount(n: nat, limit: nat): nat
    requires limit > 0
  {
    if n <= limit then 1 else 1 + PageCount(n - limit, limit)
  }

  /** The page count is max(1, ceil(n / limit)). */
  lemma {:induction false} PageCountIsCeiling(n: nat, limit: nat)
    requires limit > 0
    ensures n <= PageCount(n, limit) * limit
    ensures if n == 0 then PageCount(n, limit) == 1 else (PageCount(n, limit) - 1) * limit < n
  {
    if n > limit {
      PageCountIsCeiling(n - limit, limit);
      var k := PageCount(n - limit, limit);
      assert (k + 1) * limit == k * limit + limit;
      assert (k - 1) * limit == k * limit - limit;
    }
  }

  lemma FetchedCount(cases: CaseTable, search: TextSearch, filter: Filter, cursor: Option<CaseListCursor>, limit: nat)
    requires KeyedById(cases) && limit > 0
    ensures var records := Fetch(cases, search, filter, cursor, limit + 1);
            var selected := SelectedKeys(cases, search, filter, cursor);
            && |records| == Min(limit + 1, |selected|)
            && (|records| > limit ==> RowKey(records[limit - 1]) == Sorted(selected)[limit - 1])
  {
    hide SelectedKeys, Selected, Less, Fetch;
    FetchKeys(cases, search, filter, cursor, limit + 1);
  }

  lemma SelectedBeyond(
      cases: CaseTable, search: TextSearch, filter: Filter, cursor: Option<CaseListCursor>, last: CaseRow)
    requires RowKey(last) in SelectedKeys(cases, search, filter, cursor)
    ensures SelectedKeys(cases, search, filter, Some(CaseListCursor(last.updatedAt, last.id)))
            == After(SelectedKeys(cases, search, filter, cursor), RowKey(last))
  {
    hide Matches;
    var next := Some(CaseListCursor(last.updatedAt, last.id));
    forall c | c in cases && Beyond(next, cases[c])
      ensures Beyond(cursor, cases[c])
    {
    }
  }

  /** Following the next cursor of a full page leaves exactly `limit` rows fewer. */
  lemma NextLeavesFewer(
      cases: CaseTable, search: TextSearch, filter: Filter, limit: int, cursor: Option<CaseListCursor>)
    requires KeyedById(cases) && ListCases(cases, search, filter, limit, cursor).Success?
    ensures var page := ListCases(cases, search, filter, limit, cursor).value;
            var n := |SelectedKeys(cases, search, filter, cursor)|;
            && (page.nextCursor.Some? <==> n > limit)
            && (page.nextCursor.Some? ==> |SelectedKeys(cases, search, filter, page.nextCursor)| == n - limit)
  {
    hide SelectedKeys, Less, Fetch, RowKey;
    FetchedCount(cases, search, filter, cursor, limit);
    var records := Fetch(cases, search, filter, cursor, limit + 1);
    var selected := SelectedKeys(cases, search, filter, cursor);
    if |records| > limit {
      var last := records[limit - 1];
      assert Sorted(selected)[limit - 1] in Sorted(selected);
      SelectedBeyond(cases, search, filter, cursor, last);
      AfterPosition(selected, limit);
    }
  }

  function Repeat<T>(x: T, n: nat): seq<T> {
    seq(n, _ => x)
  }

  lemma RepeatTail<T>(x: T, n: nat)
    requires n > 0
    ensures Repeat(x, n)[0] == x && Repeat(x, n)[1..] == Repeat(x, n - 1)
  {
  }

  /** On a table that does not change, following the next cursor ends, after max(1, ceil(n / limit)) pages. */
  lemma {:induction false} FrozenWalkEnds(
      cases: CaseTable, search: TextSearch, filter: Filter, limit: int, cursor: Option<CaseListCursor>)
    returns (pages: seq<CaseListPage>)
    requires KeyedById(cases) && 1 <= limit <= 100
    requires filter.query.Some? ==> |Strip(filter.query.value)| <= 100
    ensures IsWalk(Repeat(cases, |pages|), Repeat(limit, |pages|), search, filter, cursor, pages)
    ensures |pages| == PageCount(|SelectedKeys(cases, search, filter, cursor)|, limit)
    decreases |SelectedKeys(cases, search, filter, cursor)|
  {
    hide SelectedKeys, Less, Fetch, KeyedById, PageOf;
    var page := ListCases(cases, search, filter, limit, cursor).value;
    NextLeavesFewer(cases, search, filter, limit, cursor);
    var rest: seq<CaseListPage> := [];
    if page.nextCursor.Some? {
      rest := FrozenWalkEnds(cases, search, filter, limit, page.nextCursor);
    }
    pages := [page] + rest;
    assert pages[1..] == rest;
    RepeatTail(cases, |pages|);
    RepeatTail(limit, |pages|);
  }

  // ---------------------------------------------------------------- what a caller gets and does not get

  /** Why a case is not listed: an asset out of scope, another state, another severity, or no text that matches. */
  predicate Excluded(search: TextSearch, filter: Filter, row: CaseRow) {
    || (row.assetId.Some? && forall i :: 0 <= i < |filter.assetIds| ==> filter.assetIds[i] != row.assetId.value)
    || (filter.state.Some? && filter.state.value != row.state)
    || (filter.severity.Some? && filter.severity.value != row.severity)
    || (&& filter.query.Some?
        && !Blank(filter.query.value)
        && var text := Strip(filter.query.value);
           && !search.ilike(row.title, text)
           && !(if row.category == None then search.ilike("", text) else search.ilike(row.category.value, text))
           && !search.ilike(search.idText(row.id), text))
  }

  /** A case is listed unless it is excluded; in particular an asset outside the allow-list is never shown. */
  lemma ListedUnlessExcluded(search: TextSearch, filter: Filter, row: CaseRow)
    ensures Matches(search, filter, row) <==> !Excluded(search, filter, row)
  {
    if filter.query.Some? {
      StripBlank(filter.query.value);
    }
  }

  /** Newest change first, larger id first among equals. */
  predicate ListedBefore(a: CaseRow, b: CaseRow) {
    a.updatedAt > b.updatedAt || (a.updatedAt == b.updatedAt && a.id > b.id)
  }

  /** One page: in scope, as asked for, newest first, beyond the cursor, and not longer than asked for. */
  lemma PageShows(cases: CaseTable, search: TextSearch, filter: Filter, limit: int, cursor: Option<CaseListCursor>)
    requires KeyedById(cases) && ListCases(cases, search, filter, limit, cursor).Success?
    ensures var items := ListCases(cases, search, filter, limit, cursor).value.items;
            && |items| <= limit
            && (forall i, j :: 0 <= i < j < |items| ==> ListedBefore(items[i], items[j]))
            && (forall r :: r in items ==> r.id in cases && cases[r.id] == r && !Excluded(search, filter, r))
            && (cursor.Some? ==> forall r :: r in items ==>
                  || r.updatedAt < cursor.value.updatedAt
                  || (r.updatedAt == cursor.value.updatedAt && r.id < cursor.value.caseId))
  {
    hide ListCases, Matches, Excluded;
    PageMeaning(cases, search, filter, limit, cursor);
    var items := ListCases(cases, search, filter, limit, cursor).value.items;
    forall r | r in items
      ensures !Excluded(search, filter, r)
    {
      ListedUnlessExcluded(search, filter, r);
    }
  }

  /** Which calls are refused, whatever the table holds. */
  lemma ListRefusedIff(
      cases: CaseTable, search: TextSearch, filter: Filter, limit: int, cursor: Option<CaseListCursor>)
    requires KeyedById(cases)
    ensures ListCases(cases, search, filter, limit, cursor) == Failure(InvalidLimit) <==> limit < 1 || limit > 100
    ensures ListCases(cases, search, filter, limit, cursor) == Failure(QueryTooLong)
            <==> 1 <= limit <= 100 && filter.query.Some? && |Strip(filter.query.value)| > 100
    ensures ListCases(cases, search, filter, limit, cursor).Failure?
            ==> ListCases(cases, search, filter, limit, cursor).error in {InvalidLimit, QueryTooLong}
  {
    hide Fetch, PageOf;
  }
}
