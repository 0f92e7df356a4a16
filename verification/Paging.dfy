/**
 Keyset pagination of the folder listing (server/src/routes/nodes.ts): ordered by kind descending,
 creation time and id, with a cursor that keeps the time to the millisecond. The database keeps it to
 the microsecond. Also the collaboration backlog (server/src/collab/relay.ts), paged by id.
 */
module Paging {
  import opened Prelude
  import opened RelayModel
  import opened RelayDelivery

  /** `created` is in microseconds. */
  datatype Item = Item(kind: nat, created: nat, id: nat)

  /** ORDER BY kind DESC, created_at, id */
  predicate Precedes(a: Item, b: Item) {
    a.kind > b.kind || (a.kind == b.kind && (a.created < b.created || (a.created == b.created && a.id < b.id)))
  }

  predicate Ordered(items: seq<Item>) {
    forall i, j | 0 <= i < j < |items| :: Precedes(items[i], items[j])
  }

  predicate WholeMs(item: Item) {
    item.created % 1000 == 0
  }

  /** encodeListCursor then decodeListCursor: the last row, its time cut to the millisecond. */
  function CursorOf(item: Item): Item {
    item.(created := item.created / 1000 * 1000)
  }

  /** The WHERE clause is the order itself, applied to the cursor. */
  predicate Follows(cursor: Option<Item>, item: Item) {
    cursor.None? || Precedes(cursor.value, item)
  }

  /** The rows the query keeps, in order. */
  function Remaining(items: seq<Item>, cursor: Option<Item>): seq<Item> {
    if |items| == 0 then []
    else (if Follows(cursor, items[0]) then [items[0]] else []) + Remaining(items[1..], cursor)
  }

  function Page(items: seq<Item>, cursor: Option<Item>, limit: nat): (seq<Item>, Option<Item>)
    requires limit > 0
  {
    var rest := Remaining(items, cursor);
    if |rest| >= limit then (rest[..limit], Some(CursorOf(rest[limit - 1]))) else (rest, None)
  }

  /** What a client gets that follows the cursors for up to n pages, and whether it came to the end. */
  function Walk(items: seq<Item>, cursor: Option<Item>, limit: nat, n: nat): (seq<Item>, bool)
    requires limit > 0
    decreases n
  {
    if n == 0 then ([], false)
    else
      var (page, next) := Page(items, cursor, limit);
      if next.None? then (page, true)
      else
        var rest := Walk(items, next, limit, n - 1);
        (page + rest.0, rest.1)
  }

  // ---------------------------------------------------------------- where a page starts

  /** A row comes after the cursor of a row that precedes it, and after that of a later one only if
      the cut makes it so. */
  lemma CursorPrecedes(a: Item, b: Item)
    requires Precedes(a, b)
    ensures Precedes(CursorOf(a), b)
  {
  }

  /** A row comes after its own cursor exactly when the cut lost something. */
  lemma OwnCursor(a: Item)
    ensures Precedes(CursorOf(a), a) <==> !WholeMs(a)
  {
  }

  lemma {:induction false} AllRemain(items: seq<Item>, cursor: Option<Item>)
    requires forall i :: 0 <= i < |items| ==> Follows(cursor, items[i])
    ensures Remaining(items, cursor) == items
  {
    if |items| > 0 {
      AllRemain(items[1..], cursor);
    }
  }

  /** The first row from i on that comes after the cursor. */
  function FirstAfter(items: seq<Item>, cursor: Option<Item>, i: nat): (k: nat)
    requires i <= |items|
    ensures i <= k <= |items| && (k < |items| ==> Follows(cursor, items[k]))
    ensures forall j :: i <= j < k ==> !Follows(cursor, items[j])
    decreases |items| - i
  {
    if i == |items| || Follows(cursor, items[i]) then i else FirstAfter(items, cursor, i + 1)
  }

  /** Where the page after a cursor starts. */
  function Start(items: seq<Item>, cursor: Option<Item>): (k: nat)
    ensures k <= |items|
  {
    FirstAfter(items, cursor, 0)
  }

  /** What remains is the end of the listing from there. */
  lemma RemainingIsTail(items: seq<Item>, cursor: Option<Item>)
    requires Ordered(items)
    ensures Remaining(items, cursor) == items[Start(items, cursor)..]
  {
    var k := Start(items, cursor);
    assert items[0..] == items;
    RemainingFrom(items, cursor, 0, k);
  }

  lemma {:induction false} RemainingFrom(items: seq<Item>, cursor: Option<Item>, i: nat, k: nat)
    requires Ordered(items) && i <= k <= |items| && (k < |items| ==> Follows(cursor, items[k]))
    requires forall j :: i <= j < k ==> !Follows(cursor, items[j])
    ensures Remaining(items[i..], cursor) == items[k..]
    decreases k - i
  {
    if i < k {
      assert items[i..][0] == items[i] && items[i..][1..] == items[i + 1..];
      RemainingFrom(items, cursor, i + 1, k);
    } else {
      forall j | 0 <= j < |items[i..]|
        ensures Follows(cursor, items[i..][j])
      {
        assert items[i..][j] == items[i + j];
        assert j > 0 ==> Precedes(items[k], items[i + j]);
      }
      AllRemain(items[i..], cursor);
    }
  }

  /** After row m-1, the next page starts at m if that row has a whole millisecond, and earlier, with
      that row again, if not; no row is skipped. */
  lemma NextStart(items: seq<Item>, m: nat)
    requires Ordered(items) && 0 < m <= |items|
    ensures Start(items, Some(CursorOf(items[m - 1]))) <= m
    ensures Start(items, Some(CursorOf(items[m - 1]))) == m <==> WholeMs(items[m - 1])
  {
    var last := items[m - 1];
    var k := Start(items, Some(CursorOf(last)));
    OwnCursor(last);
    if m < |items| {
      CursorPrecedes(last, items[m]);
    }
    if WholeMs(last) {
      assert CursorOf(last) == last;
      forall j | 0 <= j < m
        ensures !Precedes(last, items[j])
      {
        assert j < m - 1 ==> Precedes(items[j], last);
      }
    }
  }

  // ---------------------------------------------------------------- exactness

  /** Every row that ends a full page, counted from position k, has a whole millisecond. */
  predicate BoundariesWhole(items: seq<Item>, k: nat, limit: nat)
    requires limit > 0
    decreases |items| - k
  {
    |items| < k + limit || (WholeMs(items[k + limit - 1]) && BoundariesWhole(items, k + limit, limit))
  }

  /** A full page from position k, and where the next one starts. */
  lemma OnePage(items: seq<Item>, cursor: Option<Item>, limit: nat, k: nat)
    requires limit > 0 && Ordered(items) && k + limit <= |items| && Start(items, cursor) == k
    ensures Page(items, cursor, limit) == (items[k..k + limit], Some(CursorOf(items[k + limit - 1])))
    ensures Start(items, Some(CursorOf(items[k + limit - 1]))) <= k + limit
    ensures Start(items, Some(CursorOf(items[k + limit - 1]))) == k + limit <==> WholeMs(items[k + limit - 1])
  {
    RemainingIsTail(items, cursor);
    assert items[k..][..limit] == items[k..k + limit];
    NextStart(items, k + limit);
  }

  predicate Holds(got: seq<Item>, items: seq<Item>, k: nat) {
    forall i | k <= i < |items| :: items[i] in got
  }

  /** `got` has every row from k on; it is exactly them when the boundaries are whole, longer otherwise. */
  predicate Covers(got: seq<Item>, items: seq<Item>, k: nat, limit: nat)
    requires limit > 0 && k <= |items|
  {
    && |got| >= |items| - k && (|got| == |items| - k <==> BoundariesWhole(items, k, limit))
    && (BoundariesWhole(items, k, limit) ==> got == items[k..]) && Holds(got, items, k)
  }

  /** A page from k on, then a walk from `next` on. */
  lemma PageThenCovers(items: seq<Item>, limit: nat, k: nat, next: nat, rest: seq<Item>)
    requires limit > 0 && k + limit <= |items| && next <= k + limit
    requires next == k + limit <==> WholeMs(items[k + limit - 1])
    requires Covers(rest, items, next, limit)
    ensures Covers(items[k..k + limit] + rest, items, k, limit)
  {
    var page := items[k..k + limit];
    assert items[k..] == page + items[k + limit..];
    forall i | k <= i < |items|
      ensures items[i] in page + rest
    {
      if i < k + limit {
        assert items[i] == page[i - k];
      }
    }
  }

  /** A walk that comes to the end covers what was to come. */
  lemma {:induction false} WalkFrom(items: seq<Item>, cursor: Option<Item>, limit: nat, k: nat, n: nat)
    requires limit > 0 && Ordered(items) && Start(items, cursor) == k
    requires n > 0 && Walk(items, cursor, limit, n).1
    ensures Covers(Walk(items, cursor, limit, n).0, items, k, limit)
    decreases n
  {
    if k + limit <= |items| {
      OnePage(items, cursor, limit, k);
      var after := CursorOf(items[k + limit - 1]);
      var next := Start(items, Some(after));
      WalkOn(items, cursor, limit, n, items[k..k + limit], after);
      WalkFrom(items, Some(after), limit, next, n - 1);
      PageThenCovers(items, limit, k, next, Walk(items, Some(after), limit, n - 1).0);
    } else {
      LastPage(items, cursor, limit, k, n);
    }
  }

  lemma LastPage(items: seq<Item>, cursor: Option<Item>, limit: nat, k: nat, n: nat)
    requires limit > 0 && Ordered(items) && |items| < k + limit && n > 0 && Start(items, cursor) == k
    ensures Walk(items, cursor, limit, n) == (items[k..], true) && Covers(items[k..], items, k, limit)
  {
    RemainingIsTail(items, cursor);
    assert Page(items, cursor, limit) == (items[k..], None);
    forall i | k <= i < |items|
      ensures items[i] in items[k..]
    {
      assert items[i] == items[k..][i - k];
    }
  }

  lemma WalkOn(items: seq<Item>, cursor: Option<Item>, limit: nat, n: nat, page: seq<Item>, after: Item)
    requires limit > 0 && n > 0 && Page(items, cursor, limit) == (page, Some(after))
    ensures Walk(items, cursor, limit, n) == (page + Walk(items, Some(after), limit, n - 1).0, Walk(items, Some(after), limit, n - 1).1)
  {
  }

  lemma {:induction false} WholeWalkEnds(items: seq<Item>, cursor: Option<Item>, limit: nat, k: nat, n: nat)
    requires limit > 0 && Ordered(items) && Start(items, cursor) == k
    requires BoundariesWhole(items, k, limit) && n > |items| - k
    ensures Walk(items, cursor, limit, n).1
    decreases n
  {
    if k + limit <= |items| {
      OnePage(items, cursor, limit, k);
      var after := CursorOf(items[k + limit - 1]);
      var next := Start(items, Some(after));
      WalkOn(items, cursor, limit, n, items[k..k + limit], after);
      WholeWalkEnds(items, Some(after), limit, next, n - 1);
    } else {
      LastPage(items, cursor, limit, k, n);
    }
  }

  /** Following the cursors over an unchanged table gives the whole ordered listing, once, in order,
      exactly when every row that ends a full page was created on a whole millisecond. */
  lemma ListingExactIff(items: seq<Item>, limit: nat)
    requires limit > 0 && Ordered(items)
    ensures BoundariesWhole(items, 0, limit) <==> exists n :: Walk(items, None, limit, n) == (items, true)
  {
    assert Start(items, None) == 0 && items[0..] == items;
    if BoundariesWhole(items, 0, limit) {
      WholeWalkEnds(items, None, limit, 0, |items| + 1);
      WalkFrom(items, None, limit, 0, |items| + 1);
      assert Walk(items, None, limit, |items| + 1) == (items, true);
    }
    forall n | Walk(items, None, limit, n) == (items, true)
      ensures BoundariesWhole(items, 0, limit)
    {
      WalkFrom(items, None, limit, 0, n);
    }
  }

  /** Whatever the times, a client that comes to the end has every row. */
  lemma ListingSkipsNothing(items: seq<Item>, limit: nat, n: nat, x: Item)
    requires limit > 0 && Ordered(items) && Walk(items, None, limit, n).1 && x in items
    ensures x in Walk(items, None, limit, n).0
  {
    assert Start(items, None) == 0 && items[0..] == items;
    WalkFrom(items, None, limit, 0, n);
    var i :| 0 <= i < |items| && items[i] == x;
  }

  /** With pages of one row, a single row created between two milliseconds is served for ever. */
  lemma {:induction false} SingleRowPagesLoop(items: seq<Item>, cursor: Option<Item>, k: nat, stuck: nat, n: nat)
    requires Ordered(items) && k <= stuck < |items| && !WholeMs(items[stuck]) && Start(items, cursor) == k
    ensures !Walk(items, cursor, 1, n).1
    decreases n
  {
    if n > 0 {
      OnePage(items, cursor, 1, k);
      SingleRowPagesLoop(items, Some(CursorOf(items[k])), Start(items, Some(CursorOf(items[k]))), stuck, n - 1);
    }
  }

  // ---------------------------------------------------------------- the collaboration backlog

  /** The client's loop: page after page while there is more, each from the last id it has. */
  method FetchBacklog(log: seq<Row>, node: nat) returns (got: seq<Row>)
    requires Increasing(log) && forall r :: r in log ==> r.id > 0
    ensures got == Backlog(log, node, 0)
  {
    got := [];
    ghost var all := Backlog(log, node, 0);
    var since: nat := 0;
    var more := true;
    while more
      invariant got <= all && since == (if |got| == 0 then 0 else got[|got| - 1].id) && (!more ==> got == all)
      decreases |all| - |got| + (if more then 1 else 0)
    {
      var (page, hasMore) := PageRows(log, node, since);
      NextRows(log, node, got, since);
      got, more := got + page, hasMore;
      if |page| > 0 {
        since := page[|page| - 1].id;
      }
    }
  }

  /** A page goes on where the last one ended, and is the last one when it says so. */
  lemma NextRows(log: seq<Row>, node: nat, got: seq<Row>, since: nat)
    requires Increasing(log) && got <= Backlog(log, node, 0) && since == (if |got| == 0 then 0 else got[|got| - 1].id)
    ensures var (page, hasMore) := PageRows(log, node, since);
            && got + page <= Backlog(log, node, 0)
            && (hasMore ==> |page| > 0) && (!hasMore ==> got + page == Backlog(log, node, 0))
  {
    var all := Backlog(log, node, 0);
    BacklogFrom(log, node, |got|);
    assert all == got + all[|got|..];
  }

  /** The backlog after its own k-th row is what is left of it. */
  lemma BacklogFrom(log: seq<Row>, node: nat, k: nat)
    requires Increasing(log) && k <= |Backlog(log, node, 0)|
    ensures var all := Backlog(log, node, 0);
            Backlog(log, node, if k == 0 then 0 else all[k - 1].id) == all[k..]
  {
    var all := Backlog(log, node, 0);
    if k == 0 {
      assert all[0..] == all;
    } else {
      var later := all[k - 1].id;
      var rest := Backlog(log, node, later);
      var p := BacklogSplit(log, node, 0, later);
      BacklogIncreasing(log, node, 0);
      SplitPoint(all, p, rest, k);
    }
  }

  lemma SplitPoint(all: seq<Row>, p: seq<Row>, rest: seq<Row>, k: nat)
    requires Increasing(all) && all == p + rest && 0 < k <= |all|
    requires forall r :: r in p ==> r.id <= all[k - 1].id
    requires forall r :: r in rest ==> r.id > all[k - 1].id
    ensures all[k..] == rest
  {
    forall i | 0 <= i < |p|
      ensures all[i].id <= all[k - 1].id
    {
      assert p[i] in p;
    }
    forall i | |p| <= i < |all|
      ensures all[i].id > all[k - 1].id
    {
      assert rest[i - |p|] in rest;
    }
    assert k < |all| ==> all[k - 1].id < all[k].id;
    assert |p| == k;
  }

  /** The rows up to a later id come first. */
  lemma {:induction false} BacklogSplit(log: seq<Row>, node: nat, since: nat, later: nat) returns (p: seq<Row>)
    requires Increasing(log) && since <= later
    ensures Backlog(log, node, since) == p + Backlog(log, node, later) && forall r :: r in p ==> r.id <= later
  {
    p := [];
    if |log| > 0 {
      if log[0].node == node && log[0].id > later {
        SameBacklog(log, node, since, later);
      } else {
        p := BacklogSplit(log[1..], node, since, later);
        if log[0].node == node && since < log[0].id {
          p := [log[0]] + p;
        }
      }
    }
  }

  lemma {:induction false} SameBacklog(log: seq<Row>, node: nat, since: nat, later: nat)
    requires since <= later && forall r :: r in log ==> r.id > later
    ensures Backlog(log, node, since) == Backlog(log, node, later)
  {
    if |log| > 0 {
      assert log[0] in log;
      SameBacklog(log[1..], node, since, later);
    }
  }
}
