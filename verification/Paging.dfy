/**
 Three ways through a list: pages by offset, the provider's cursor loop, and keyset paging
 by id. Pages by offset are cut from one list. The cursor loop reads the provider's list,
 which does not change meanwhile. Keyset pages may each be read from another table.

 The numbers are those of the request: a page counts from one, and an offset is derived from
 it as the repository derives it.
 */
module Paging {
  import opened Wrappers
  import opened BillingTables
  import opened Billing
  import Tables

  // ---------------------------------------------------------------- pages by number

  function Min(a: int, b: int): int { if a < b then a else b }

  /** LIMIT `limit` OFFSET `(page - 1) * limit`. */
  function PageOf<T>(rows: seq<T>, page: nat, limit: nat): seq<T>
    requires page >= 1
  {
    var from := Min((page - 1) * limit, |rows|);
    rows[from..Min(from + limit, |rows|)]
  }

  /** `calculatePagination`'s page count: the ceiling of total / limit. */
  function TotalPages(total: nat, limit: nat): nat
    requires limit >= 1
  {
    (total + limit - 1) / limit
  }

  function FirstPages<T>(rows: seq<T>, limit: nat, n: nat): seq<T> {
    if n == 0 then [] else FirstPages(rows, limit, n - 1) + PageOf(rows, n, limit)
  }

  lemma {:induction false} FirstPagesArePrefix<T>(rows: seq<T>, limit: nat, n: nat)
    ensures FirstPages(rows, limit, n) == rows[..Min(n * limit, |rows|)]
  {
    if n > 0 {
      FirstPagesArePrefix(rows, limit, n - 1);
      assert n * limit == (n - 1) * limit + limit;
    }
  }

  lemma CeilingBounds(total: nat, limit: nat)
    requires limit >= 1
    ensures
      var n := TotalPages(total, limit);
      total <= n * limit && (n >= 1 ==> (n - 1) * limit < total)
  {
    var n := TotalPages(total, limit);
    var rest := (total + limit - 1) % limit;
    assert total + limit - 1 == n * limit + rest;
    assert (n - 1) * limit == n * limit - limit;
  }

  lemma MonotoneProduct(a: nat, b: nat, k: nat)
    requires a <= b
    ensures a * k <= b * k
  {
  }

  /** A page is empty iff it starts at or after the end, and full unless it reaches the end. */
  lemma PageExtent<T>(rows: seq<T>, limit: nat, page: nat)
    requires limit >= 1 && page >= 1
    ensures PageOf(rows, page, limit) != [] <==> (page - 1) * limit < |rows|
    ensures page * limit <= |rows| ==> |PageOf(rows, page, limit)| == limit
  {
    assert page * limit == (page - 1) * limit + limit;
  }

  /** Pages 1 .. totalPages are the list, cut up: nothing missed, nothing twice, none empty, none after. */
  lemma PagesCoverOnce<T>(rows: seq<T>, limit: nat, page: nat)
    requires limit >= 1 && page >= 1
    ensures
      var n := TotalPages(|rows|, limit);
      && FirstPages(rows, limit, n) == rows
      && (PageOf(rows, page, limit) != [] <==> page <= n)
      && (page < n ==> |PageOf(rows, page, limit)| == limit)
  {
    var n := TotalPages(|rows|, limit);
    CeilingBounds(|rows|, limit);
    FirstPagesArePrefix(rows, limit, n);
    PageExtent(rows, limit, page);
    if page <= n {
      MonotoneProduct(page - 1, n - 1, limit);
      if page < n { MonotoneProduct(page, n - 1, limit); }
    } else {
      MonotoneProduct(n, page - 1, limit);
    }
  }

  /** The items that the repository's query returns for a page. */
  function RepositoryPage(rows: seq<Tables.Row>, page: nat, limit: nat, order: Tables.Order): seq<Tables.Row>
    requires page >= 1
  {
    var reply := Tables.Paginate(rows, limit, (page - 1) * limit, order);
    if reply.Page? then reply.data else []
  }

  function RepositoryPagesUpTo(rows: seq<Tables.Row>, limit: nat, order: Tables.Order, n: nat): seq<Tables.Row> {
    if n == 0 then []
    else RepositoryPagesUpTo(rows, limit, order, n - 1) + RepositoryPage(rows, n, limit, order)
  }

  lemma PageIsPageOf(rows: seq<Tables.Row>, page: nat, limit: nat, order: Tables.Order)
    requires page >= 1
    ensures Tables.Paginate(rows, limit, (page - 1) * limit, order)
         == Tables.Page(PageOf(order(rows), page, limit), |rows|, limit, (page - 1) * limit)
  {
  }

  lemma {:induction false} PagesUpTo(rows: seq<Tables.Row>, limit: nat, order: Tables.Order, n: nat)
    ensures RepositoryPagesUpTo(rows, limit, order, n) == FirstPages(order(rows), limit, n)
  {
    if n > 0 {
      PagesUpTo(rows, limit, order, n - 1);
      PageIsPageOf(rows, n, limit, order);
    }
  }

  /**
   With the total that any page of the query reports, its pages up to ceil(total / limit) are
   exactly the ordered rows, and a page has items iff it is one of them.
   */
  lemma RepositoryPages(rows: seq<Tables.Row>, page: nat, limit: nat, order: Tables.Order)
    requires limit >= 1 && page >= 1 && |order(rows)| == |rows|
    ensures
      var reply := Tables.Paginate(rows, limit, (page - 1) * limit, order);
      && reply.Page?
      && RepositoryPagesUpTo(rows, limit, order, TotalPages(reply.total, limit)) == order(rows)
      && (reply.data != [] <==> page <= TotalPages(reply.total, limit))
  {
    PageIsPageOf(rows, page, limit, order);
    PagesUpTo(rows, limit, order, TotalPages(|rows|, limit));
    PagesCoverOnce(order(rows), limit, page);
  }

  // ---------------------------------------------------------------- the provider's cursor loop

  datatype ProviderError = InvalidLimit | NoSuchCursor(id: string)

  datatype ProviderPage<T> = ProviderPage(data: seq<T>, hasMore: bool)

  function PositionOf<T>(items: seq<(string, T)>, id: string): (r: Option<nat>)
    ensures r.Some? ==> r.value < |items| && items[r.value].0 == id
    ensures r.None? <==> forall item <- items :: item.0 != id
  {
    if items == [] then None
    else
      var last := |items| - 1;
      if items[last].0 == id then Some(last) else PositionOf(items[..last], id)
  }

  /** The provider's list endpoint: up to `limit` items after the one named, and whether there are more. */
  function ListPage<T>(items: seq<(string, T)>, limit: int, startingAfter: Option<string>):
      Result<ProviderPage<(string, T)>, ProviderError> {
    var at := if startingAfter.None? then None else PositionOf(items, startingAfter.value);
    if !(1 <= limit <= 100) then Failure(InvalidLimit)
    else if startingAfter.Some? && at.None? then Failure(NoSuchCursor(startingAfter.value))
    else
      var from := if at.Some? then at.value + 1 else 0;
      var to := Min(from + limit, |items|);
      Success(ProviderPage(items[from..to], to < |items|))
  }

  /** A provider's list: ids are distinct and not empty. */
  ghost predicate Listed<T>(items: seq<(string, T)>) {
    && (forall i, j :: 0 <= i < j < |items| ==> items[i].0 != items[j].0)
    && (forall i :: 0 <= i < |items| ==> items[i].0 != "")
  }

  /** A missing cursor and an empty one both mean "from the start". */
  function Cursor(cursor: Option<string>): Option<string> {
    if cursor == Some("") then None else cursor
  }

  /** Exactly the calls the provider refuses. */
  predicate Refused<T>(items: seq<(string, T)>, limit: int, cursor: Option<string>) {
    !(1 <= limit <= 100) || (Cursor(cursor).Some? && PositionOf(items, cursor.value).None?)
  }

  /** How many items a cursor has passed. */
  function Passed<T>(items: seq<(string, T)>, cursor: Option<string>): (n: nat)
    ensures n <= |items|
  {
    if Cursor(cursor).None? then 0
    else
      var at := PositionOf(items, cursor.value);
      if at.Some? then at.value + 1 else 0
  }

  lemma PositionUnique<T>(items: seq<(string, T)>, i: nat)
    requires Listed(items) && i < |items|
    ensures PositionOf(items, items[i].0) == Some(i)
  {
    assert items[i] in items;
  }

  /** A page takes the cursor past itself. */
  lemma PageAdvances<T>(items: seq<(string, T)>, limit: int, cursor: Option<string>)
    requires Listed(items) && !Refused(items, limit, cursor)
    ensures
      var from := Passed(items, cursor);
      var to := Min(from + limit, |items|);
      && ListPage(items, limit, Cursor(cursor)) == Success(ProviderPage(items[from..to], to < |items|))
      && (from < to ==> !Refused(items, limit, Some(items[to - 1].0)) && Passed(items, Some(items[to - 1].0)) == to)
  {
    var from := Passed(items, cursor);
    var to := Min(from + limit, |items|);
    if from < to {
      assert items[to - 1] in items;
      PositionUnique(items, to - 1);
    }
  }

  lemma SlicesJoin<T>(s: seq<T>, i: nat, j: nat, k: nat)
    requires i <= j <= k <= |s|
    ensures s[i..j] + s[j..k] == s[i..k]
  {
  }

  /** One request; `passed` and `to` are how far the cursor has come before and after it. */
  method Fetch<T>(items: seq<(string, T)>, limit: int, cursor: Option<string>, ghost passed: nat)
    returns (reply: Result<ProviderPage<(string, T)>, ProviderError>, next: Option<string>, ghost to: nat)
    requires Listed(items) && passed == Passed(items, cursor)
    ensures reply.Failure? <==> Refused(items, limit, cursor)
    ensures
      reply.Success? ==>
        && passed <= to <= |items| && reply.value.data == items[passed..to]
        && (reply.value.hasMore <==> to < |items|)
        && (reply.value.hasMore ==> passed < to && !Refused(items, limit, next) && Passed(items, next) == to)
  {
    reply := ListPage(items, limit, Cursor(cursor));
    next := None;
    to := passed;
    if reply.Success? {
      PageAdvances(items, limit, cursor);
      to := Min(passed + limit, |items|);
      var data := reply.value.data;
      if data != [] { next := Some(data[|data| - 1].0); }
    }
  }

  /**
   `listSubscriptions`: it fails exactly on a limit or a cursor the provider refuses; otherwise
   the loop ends, having yielded every item after the start cursor exactly once and in order.
   */
  method ListSubscriptions<T>(items: seq<(string, T)>, limit: int, start: Option<string>)
    returns (yielded: seq<(string, T)>, error: Option<ProviderError>)
    requires Listed(items)
    ensures error.Some? <==> Refused(items, limit, start)
    ensures error.None? ==> yielded == items[Passed(items, start)..]
    ensures error.Some? ==> yielded == []
  {
    yielded, error := [], None;
    var cursor := start;
    var hasMore := true;
    ghost var from, passed := Passed(items, start), Passed(items, start);
    ghost var refused := Refused(items, limit, start);
    while hasMore
      invariant from <= passed <= |items| && yielded == items[from..passed]
      invariant if hasMore then passed == Passed(items, cursor) else passed == |items|
      invariant hasMore ==> Refused(items, limit, cursor) == refused
      invariant refused ==> hasMore && passed == from
      decreases if hasMore then |items| - passed + 1 else 0
    {
      var reply, next, to := Fetch(items, limit, cursor, passed);
      if reply.Failure? { return yielded, Some(reply.error); }
      SlicesJoin(items, from, passed, to);
      yielded := yielded + reply.value.data;
      hasMore := reply.value.hasMore;
      cursor := next;
      passed := to;
    }
  }

  // ---------------------------------------------------------------- keyset paging over a changing table

  predicate Reconcilable(rows: Subscriptions, i: nat) {
    i < |rows| && rows[i].fields.status in {Active, Trialing, PastDue}
  }

  /** The ids of access-giving subscriptions from `from` on, ascending. */
  function IdsFrom(rows: Subscriptions, from: nat): (r: seq<nat>)
    ensures forall id <- r :: from <= id && Reconcilable(rows, id)
    decreases |rows| - from
  {
    if from >= |rows| then []
    else
      var rest := IdsFrom(rows, from + 1);
      if Reconcilable(rows, from) then [from] + rest else rest
  }

  /** `findAllForReconciliation` */
  function Reconcile(rows: Subscriptions, limit: nat, cursor: Option<nat>): seq<nat> {
    var ids := IdsFrom(rows, if cursor.Some? then cursor.value + 1 else 0);
    ids[..Min(limit, |ids|)]
  }

  /** Page after page, each read from the table as it is by then, until one comes back empty. */
  function Sweep(tables: seq<Subscriptions>, limit: nat, cursor: Option<nat>): (seq<nat>, bool)
    decreases |tables|
  {
    if tables == [] then ([], false)
    else
      var page := Reconcile(tables[0], limit, cursor);
      if page == [] then ([], true)
      else
        var (rest, done) := Sweep(tables[1..], limit, Some(page[|page| - 1]));
        (page + rest, done)
  }

  ghost predicate Ascending(ids: seq<nat>) {
    forall i, j :: 0 <= i < j < |ids| ==> ids[i] < ids[j]
  }

  lemma {:induction false} IdsAscend(rows: Subscriptions, from: nat)
    ensures Ascending(IdsFrom(rows, from))
    ensures forall id :: from <= id && Reconcilable(rows, id) ==> id in IdsFrom(rows, from)
    decreases |rows| - from
  {
    if from < |rows| {
      IdsAscend(rows, from + 1);
      var rest := IdsFrom(rows, from + 1);
      forall j | 0 <= j < |rest| ensures from < rest[j] {
        assert rest[j] in rest;
      }
    }
  }

  /** Row `id` gives access: active, trialing, or past due. */
  ghost predicate Serves(rows: Subscriptions, id: nat) {
    id < |rows|
    && (rows[id].fields.status == Active || rows[id].fields.status == Trialing || rows[id].fields.status == PastDue)
  }

  /** One page: ascending, after the cursor, and nothing skipped up to its last id. */
  lemma PageIsNext(rows: Subscriptions, limit: nat, cursor: Option<nat>)
    requires limit >= 1
    ensures
      var page := Reconcile(rows, limit, cursor);
      var from := if cursor.Some? then cursor.value + 1 else 0;
      && Ascending(page)
      && (forall id <- page :: from <= id && Serves(rows, id))
      && (forall id :: from <= id && Serves(rows, id) && (page == [] || id <= page[|page| - 1]) ==> id in page)
  {
    var from := if cursor.Some? then cursor.value + 1 else 0;
    IdsAscend(rows, from);
    var ids := IdsFrom(rows, from);
    var page := Reconcile(rows, limit, cursor);
    assert forall id <- page :: id in ids;
    forall id | from <= id && Serves(rows, id) && (page == [] || id <= page[|page| - 1]) ensures id in page {
      assert Reconcilable(rows, id);
      var i :| 0 <= i < |ids| && ids[i] == id;
      assert i < |page|;
      assert page[i] == id;
    }
  }

  ghost predicate ServesIn(tables: seq<Subscriptions>, id: nat) { exists rows <- tables :: Serves(rows, id) }

  ghost predicate ServesThroughout(tables: seq<Subscriptions>, id: nat) { forall rows <- tables :: Serves(rows, id) }

  /**
   However the table changes between pages, a sweep never returns a row twice, returns only rows
   that gave access in some page's table, and when it comes to an end it has returned every row
   that gave access throughout.
   */
  lemma {:induction false} SweepSeesEachOnce(tables: seq<Subscriptions>, limit: nat, cursor: Option<nat>)
    requires limit >= 1
    ensures
      var (ids, done) := Sweep(tables, limit, cursor);
      var from := if cursor.Some? then cursor.value + 1 else 0;
      && Ascending(ids)
      && (forall id <- ids :: from <= id && ServesIn(tables, id))
      && (done ==> forall id: nat :: from <= id && ServesThroughout(tables, id) ==> id in ids)
    decreases |tables|
  {
    if tables != [] {
      var page := Reconcile(tables[0], limit, cursor);
      PageIsNext(tables[0], limit, cursor);
      assert tables[0] in tables;
      if page != [] {
        var last := page[|page| - 1];
        SweepSeesEachOnce(tables[1..], limit, Some(last));
        var (rest, done) := Sweep(tables[1..], limit, Some(last));
        var ids := page + rest;
        forall i, j | 0 <= i < j < |ids| ensures ids[i] < ids[j] {
          if i < |page| <= j { assert rest[j - |page|] in rest; }
        }
        forall id <- ids ensures (if cursor.Some? then cursor.value + 1 else 0) <= id && ServesIn(tables, id) {
          assert last in page;
          if id in page {
            assert Serves(tables[0], id);
          } else {
            assert ServesIn(tables[1..], id);
          }
        }
      }
    }
  }
}
