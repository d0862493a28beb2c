/** Keyset pagination: the cursor queries of the repositories and the links of the list route. */
module KeysetPaging {
  import opened Prelude

  /** The columns that paging does not look at, but for the filters of the todo query. */
  datatype Data =
    | Role(name: string, description: string)
    | Todo(user: int, deleted: bool, title: string, completed: bool)

  /** A row as far as paging sees it; tenant 0 stands for no tenant. */
  datatype Row = Row(id: int, created: int, tenant: int, data: Data)

  datatype Direction = Next | Prev

  datatype Cursor = Cursor(created: int, id: int, direction: Direction)

  // ----- ORDER BY created_at DESC, id DESC -----

  predicate Newer(created: int, id: int, thanCreated: int, thanId: int) {
    created > thanCreated || (created == thanCreated && id > thanId)
  }

  predicate Before(a: Row, b: Row) {
    Newer(a.created, a.id, b.created, b.id)
  }

  ghost predicate Descending(rows: seq<Row>) {
    forall i, j :: 0 <= i < j < |rows| ==> Before(rows[i], rows[j])
  }

  ghost predicate UniqueIds(rows: seq<Row>) {
    forall a, b :: 0 <= a < b < |rows| ==> rows[a].id != rows[b].id
  }

  function Insert(row: Row, rows: seq<Row>): seq<Row> {
    if rows == [] || Before(row, rows[0]) then [row] + rows else [rows[0]] + Insert(row, rows[1..])
  }

  function NewestFirst(rows: seq<Row>): seq<Row> {
    if rows == [] then [] else Insert(rows[0], NewestFirst(rows[1..]))
  }

  function Reverse(rows: seq<Row>): seq<Row> {
    seq(|rows|, i requires 0 <= i < |rows| => rows[|rows| - 1 - i])
  }

  lemma {:induction false} InsertMembers(row: Row, rows: seq<Row>)
    ensures |Insert(row, rows)| == |rows| + 1
    ensures forall x: Row :: x in Insert(row, rows) <==> x == row || x in rows
  {
    if rows != [] && !Before(row, rows[0]) {
      InsertMembers(row, rows[1..]);
      assert forall x :: x in rows <==> x == rows[0] || x in rows[1..];
    }
  }

  lemma {:induction false} InsertDescending(row: Row, rows: seq<Row>)
    requires Descending(rows) && forall x :: x in rows ==> x.id != row.id
    ensures Descending(Insert(row, rows))
  {
    if rows != [] && !Before(row, rows[0]) {
      InsertDescending(row, rows[1..]);
      InsertMembers(row, rows[1..]);
      forall x | x in Insert(row, rows[1..]) ensures Before(rows[0], x) {
        if x != row {
          assert x in rows[1..];
          var i :| 0 <= i < |rows[1..]| && rows[1..][i] == x;
          assert x == rows[i + 1];
        }
      }
    }
  }

  lemma {:induction false} NewestFirstIsSorted(rows: seq<Row>)
    requires UniqueIds(rows)
    ensures Descending(NewestFirst(rows)) && |NewestFirst(rows)| == |rows|
    ensures forall x: Row :: x in NewestFirst(rows) <==> x in rows
  {
    if rows != [] {
      NewestFirstIsSorted(rows[1..]);
      InsertMembers(rows[0], NewestFirst(rows[1..]));
      forall x: Row | x in NewestFirst(rows[1..]) ensures x.id != rows[0].id {
        assert x in rows[1..];
      }
      InsertDescending(rows[0], NewestFirst(rows[1..]));
      assert forall x :: x in rows <==> x == rows[0] || x in rows[1..];
    }
  }

  lemma NotEmpty(a: seq<Row>, b: seq<Row>)
    requires a != [] && forall x :: x in a ==> x in b
    ensures b != []
  {
    assert a[0] in b;
  }

  /** There is one way to list given rows in descending order. */
  lemma {:induction false} DescendingIsUnique(a: seq<Row>, b: seq<Row>)
    requires Descending(a) && Descending(b) && forall x :: x in a <==> x in b
    ensures a == b
  {
    if b != [] {
      NotEmpty(b, a);
    }
    if a != [] {
      NotEmpty(a, b);
      assert a[0] in b && b[0] in a;
      var i :| 0 <= i < |b| && b[i] == a[0];
      var j :| 0 <= j < |a| && a[j] == b[0];
      assert i == 0;
      forall x ensures x in a[1..] <==> x in b[1..] {
        assert x in a <==> x == a[0] || x in a[1..];
        assert x in b <==> x == b[0] || x in b[1..];
        assert x == a[0] ==> x !in a[1..] && x !in b[1..];
      }
      DescendingIsUnique(a[1..], b[1..]);
    }
  }

  lemma {:induction false} FilterUniqueIds(rows: seq<Row>, keep: Row -> bool)
    requires UniqueIds(rows)
    ensures UniqueIds(Filter(rows, keep))
  {
    if rows != [] {
      FilterUniqueIds(rows[1..], keep);
      forall x | x in Filter(rows[1..], keep) ensures x.id != rows[0].id {
        FilterMember(rows[1..], keep, x);
      }
    }
  }

  // ----- the repository -----

  /** The clause `if self._tenant_id`. */
  function Mine(rows: seq<Row>, tenant: int): seq<Row> {
    if tenant != 0 then Filter(rows, OfTenant(tenant)) else rows
  }

  function OfTenant(tenant: int): Row -> bool {
    (row: Row) => row.tenant == tenant
  }

  function Older(created: int, id: int): Row -> bool {
    (row: Row) => row.created < created || (row.created == created && row.id < id)
  }

  function Younger(created: int, id: int): Row -> bool {
    (row: Row) => row.created > created || (row.created == created && row.id > id)
  }

  /** _apply_cursor_pagination: the rows after the cursor, nearest first. An id of 0 is no cursor. */
  function ApplyCursor(rows: seq<Row>, created: Option<int>, id: Option<int>, direction: Direction): seq<Row> {
    if created.Some? && id.Some? && id.value != 0 then
      if direction == Next then NewestFirst(Filter(rows, Older(created.value, id.value)))
      else Reverse(NewestFirst(Filter(rows, Younger(created.value, id.value))))
    else NewestFirst(rows)
  }

  function Take(rows: seq<Row>, n: nat): seq<Row> {
    if |rows| <= n then rows else rows[..n]
  }

  datatype Page = Page(rows: seq<Row>, hasMore: bool)

  /** Fetches one row more than asked for, to see whether there is one. */
  function Trimmed(found: seq<Row>, limit: nat, direction: Direction): Page {
    var models := Take(found, limit + 1);
    var kept := Take(models, limit);
    Page(if direction == Prev then Reverse(kept) else kept, |models| > limit)
  }

  function ListCursor(rows: seq<Row>, tenant: int, created: Option<int>, id: Option<int>, limit: nat,
                         direction: Direction): Page {
    Trimmed(ApplyCursor(Mine(rows, tenant), created, id, direction), limit, direction)
  }

  // ----- the route -----

  datatype Response = Response(data: seq<Row>, next: Option<Cursor>, prev: Option<Cursor>, hasNext: bool, hasPrev: bool)

  function Fetch(rows: seq<Row>, tenant: int, cursor: Option<Cursor>, limit: nat): Page {
    match cursor
    case None => ListCursor(rows, tenant, None, None, limit, Next)
    case Some(c) => ListCursor(rows, tenant, Some(c.created), Some(c.id), limit, c.direction)
  }

  function LinkTo(row: Row, direction: Direction): Cursor {
    Cursor(row.created, row.id, direction)
  }

  function ListRoles(rows: seq<Row>, tenant: int, cursor: Option<Cursor>, limit: nat): Response {
    var page := Fetch(rows, tenant, cursor, limit);
    Response(
      page.rows,
      if page.hasMore && page.rows != [] then Some(LinkTo(page.rows[|page.rows| - 1], Next)) else None,
      if cursor.Some? && page.rows != [] then Some(LinkTo(page.rows[0], Prev)) else None,
      page.hasMore, cursor.Some?)
  }

  // ----- what one query returns -----

  /** Every row of the tenant, newest first: the list that the pages cut up. */
  function All(rows: seq<Row>, tenant: int): seq<Row> {
    NewestFirst(Mine(rows, tenant))
  }

  predicate Belongs(row: Row, tenant: int) {
    tenant != 0 ==> row.tenant == tenant
  }

  /** A table the database can hold: ids are unique, and the identity column starts at 1. */
  ghost predicate Table(rows: seq<Row>) {
    UniqueIds(rows) && forall x :: x in rows ==> x.id >= 1
  }

  lemma MineIsTable(rows: seq<Row>, tenant: int)
    requires Table(rows)
    ensures Table(Mine(rows, tenant))
    ensures forall x :: x in Mine(rows, tenant) <==> x in rows && Belongs(x, tenant)
  {
    var keep: Row -> bool := OfTenant(tenant);
    FilterUniqueIds(rows, keep);
    forall x ensures x in Filter(rows, keep) <==> x in rows && x.tenant == tenant {
      FilterMember(rows, keep, x);
    }
  }

  lemma AllIsSorted(rows: seq<Row>, tenant: int)
    requires Table(rows)
    ensures Descending(All(rows, tenant)) && |All(rows, tenant)| == |Mine(rows, tenant)|
    ensures forall x :: x in All(rows, tenant) <==> x in rows && Belongs(x, tenant)
  {
    MineIsTable(rows, tenant);
    NewestFirstIsSorted(Mine(rows, tenant));
  }

  /** What the query with a next cursor selects, wherever the cursor came from. */
  ghost function Rest(rows: seq<Row>, tenant: int, cursor: Option<Cursor>): seq<Row> {
    if cursor.Some? then NewestFirst(Filter(Mine(rows, tenant), Older(cursor.value.created, cursor.value.id)))
    else All(rows, tenant)
  }

  ghost predicate Follows(row: Row, cursor: Option<Cursor>) {
    cursor.Some? ==> Newer(cursor.value.created, cursor.value.id, row.created, row.id)
  }

  lemma RestIsSorted(rows: seq<Row>, tenant: int, cursor: Option<Cursor>)
    requires Table(rows)
    ensures Descending(Rest(rows, tenant, cursor))
    ensures forall x :: x in Rest(rows, tenant, cursor) <==>
              x in rows && Belongs(x, tenant) && Follows(x, cursor)
  {
    AllIsSorted(rows, tenant);
    MineIsTable(rows, tenant);
    if cursor.Some? {
      var older: Row -> bool := Older(cursor.value.created, cursor.value.id);
      FilterUniqueIds(Mine(rows, tenant), older);
      NewestFirstIsSorted(Filter(Mine(rows, tenant), older));
      forall x ensures x in Filter(Mine(rows, tenant), older) <==> x in Mine(rows, tenant) && Follows(x, cursor) {
        FilterMember(Mine(rows, tenant), older, x);
      }
    }
  }

  /** A cursor that some page handed out, to be followed forwards. */
  ghost predicate Forward(cursor: Option<Cursor>) {
    cursor.Some? ==> cursor.value.direction == Next && cursor.value.id >= 1
  }

  lemma ForwardPage(rows: seq<Row>, tenant: int, cursor: Option<Cursor>, limit: nat)
    requires Forward(cursor)
    ensures
      var rest := Rest(rows, tenant, cursor);
      Fetch(rows, tenant, cursor, limit) == Page(Take(rest, limit), |rest| > limit)
  {
    hide NewestFirst, Filter, Mine;
    var rest := Rest(rows, tenant, cursor);
    assert Take(Take(rest, limit + 1), limit) == Take(rest, limit);
  }

  lemma RestId(rows: seq<Row>, tenant: int, cursor: Option<Cursor>, k: nat)
    requires Table(rows) && k < |Rest(rows, tenant, cursor)|
    ensures Rest(rows, tenant, cursor)[k].id >= 1
  {
    RestIsSorted(rows, tenant, cursor);
    hide Rest;
    assert Rest(rows, tenant, cursor)[k] in Rest(rows, tenant, cursor);
  }

  lemma ForwardFetch(rows: seq<Row>, tenant: int, cursor: Option<Cursor>, limit: nat)
    requires Table(rows) && Forward(cursor) && limit >= 1
    ensures
      var response, rest := ListRoles(rows, tenant, cursor, limit), Rest(rows, tenant, cursor);
      && response.data == Take(rest, limit)
      && (response.next.Some? <==> |rest| > limit)
      && (response.next.Some? ==> response.next == Some(LinkTo(rest[limit - 1], Next)) && Forward(response.next))
      && response.prev == (if cursor.Some? && rest != [] then Some(LinkTo(rest[0], Prev)) else None)
      && (response.hasNext <==> |rest| > limit) && (response.hasPrev <==> cursor.Some?)
  {
    ForwardPage(rows, tenant, cursor, limit);
    var rest := Rest(rows, tenant, cursor);
    hide Fetch, Rest;
    if |rest| > limit {
      RestId(rows, tenant, cursor, limit - 1);
    }
  }

  // ----- following the next links -----

  /** The rows a client sees by following next links, and whether it came to the last page. The
      i-th request meets the i-th table: rows may come, change and go between requests. */
  datatype Walk = Walk(rows: seq<Row>, finished: bool)

  ghost function FollowNext(tables: seq<seq<Row>>, tenant: int, cursor: Option<Cursor>, limit: nat): Walk {
    if tables == [] then Walk([], false)
    else
      var response := ListRoles(tables[0], tenant, cursor, limit);
      if response.next.None? then Walk(response.data, true)
      else
        var rest := FollowNext(tables[1..], tenant, response.next, limit);
        Walk(response.data + rest.rows, rest.finished)
  }

  lemma OneRequest(tables: seq<seq<Row>>, tenant: int, cursor: Option<Cursor>, limit: nat)
    requires tables != [] && Table(tables[0]) && Forward(cursor) && limit >= 1
    ensures
      var walk, rest := FollowNext(tables, tenant, cursor, limit), Rest(tables[0], tenant, cursor);
      if |rest| <= limit then walk == Walk(rest, true)
      else
        var next := Some(LinkTo(rest[limit - 1], Next));
        var later := FollowNext(tables[1..], tenant, next, limit);
        Forward(next) && walk == Walk(rest[..limit] + later.rows, later.finished)
  {
    ForwardFetch(tables[0], tenant, cursor, limit);
    hide ListRoles, Rest;
  }

  ghost predicate AllTables(tables: seq<seq<Row>>) {
    forall i :: 0 <= i < |tables| ==> Table(tables[i])
  }

  ghost predicate InSome(tables: seq<seq<Row>>, tenant: int, row: Row) {
    exists i :: 0 <= i < |tables| && row in tables[i] && Belongs(row, tenant)
  }

  /** Whatever happens between requests, what the client sees is strictly descending and comes
      after the cursor. */
  lemma {:induction false} WalkIsSorted(tables: seq<seq<Row>>, tenant: int, cursor: Option<Cursor>, limit: nat)
    requires AllTables(tables) && Forward(cursor) && limit >= 1
    ensures Descending(FollowNext(tables, tenant, cursor, limit).rows)
    ensures forall x :: x in FollowNext(tables, tenant, cursor, limit).rows ==> Follows(x, cursor)
  {
    if tables != [] {
      var rest := Rest(tables[0], tenant, cursor);
      OneRequest(tables, tenant, cursor, limit);
      RestIsSorted(tables[0], tenant, cursor);
      hide FollowNext, Rest, Table, Belongs, Follows;
      if |rest| > limit {
        var next := Some(LinkTo(rest[limit - 1], Next));
        WalkIsSorted(tables[1..], tenant, next, limit);
        JoinWalk(rest[..limit], FollowNext(tables[1..], tenant, next, limit).rows, cursor);
      }
    }
  }

  /** A page, and what follows its last row. */
  lemma JoinWalk(page: seq<Row>, later: seq<Row>, cursor: Option<Cursor>)
    requires Descending(page) && Descending(later) && page != [] && forall x :: x in page ==> Follows(x, cursor)
    requires forall x :: x in later ==> Follows(x, Some(LinkTo(page[|page| - 1], Next)))
    ensures Descending(page + later) && forall x :: x in page + later ==> Follows(x, cursor)
  {
    var last := page[|page| - 1];
    assert last in page;
    JoinDescending(page, later);
    hide Descending;
    forall x | x in later ensures Follows(x, cursor) {
      assert Follows(last, cursor) && Before(last, x);
    }
  }

  /** Each row was in the table of the request that showed it. */
  lemma {:induction false} WalkShowsRows(tables: seq<seq<Row>>, tenant: int, cursor: Option<Cursor>, limit: nat, row: Row)
    requires AllTables(tables) && Forward(cursor) && limit >= 1
    requires row in FollowNext(tables, tenant, cursor, limit).rows
    ensures InSome(tables, tenant, row)
  {
    var rest := Rest(tables[0], tenant, cursor);
    OneRequest(tables, tenant, cursor, limit);
    RestIsSorted(tables[0], tenant, cursor);
    hide FollowNext, Rest, Table, Belongs;
    if row !in rest {
      WalkShowsRows(tables[1..], tenant, Some(LinkTo(rest[limit - 1], Next)), limit, row);
      InSomeLater(tables, tenant, row);
    }
  }

  lemma InSomeLater(tables: seq<seq<Row>>, tenant: int, row: Row)
    requires tables != [] && InSome(tables[1..], tenant, row)
    ensures InSome(tables, tenant, row)
  {
    var i :| 0 <= i < |tables[1..]| && row in tables[1..][i] && Belongs(row, tenant);
    assert row in tables[i + 1];
  }

  lemma JoinDescending(a: seq<Row>, b: seq<Row>)
    requires Descending(a) && Descending(b) && a != [] && forall x :: x in b ==> Before(a[|a| - 1], x)
    ensures Descending(a + b)
  {
    forall i, j | 0 <= i < j < |a + b| ensures Before((a + b)[i], (a + b)[j]) {
      if i < |a| <= j {
        assert b[j - |a|] in b;
        assert i == |a| - 1 || Before(a[i], a[|a| - 1]);
      }
    }
  }

  /** A row that is in every table, recognised by its id and creation time, is shown. */
  ghost predicate HasKey(rows: seq<Row>, tenant: int, created: int, id: int) {
    exists x :: x in rows && x.created == created && x.id == id && Belongs(x, tenant)
  }

  lemma {:induction false} WalkIsComplete(tables: seq<seq<Row>>, tenant: int, cursor: Option<Cursor>, limit: nat, created: int, id: int)
    requires AllTables(tables) && Forward(cursor) && limit >= 1
    requires forall i :: 0 <= i < |tables| ==> HasKey(tables[i], tenant, created, id)
    requires cursor.Some? ==> Newer(cursor.value.created, cursor.value.id, created, id)
    requires FollowNext(tables, tenant, cursor, limit).finished
    ensures HasKey(FollowNext(tables, tenant, cursor, limit).rows, tenant, created, id)
    decreases |tables|
  {
    var rest := Rest(tables[0], tenant, cursor);
    OneRequest(tables, tenant, cursor, limit);
    var j := PlaceOf(tables[0], tenant, cursor, created, id);
    if |rest| <= limit {
      assert HasKey(rest, tenant, created, id) by { assert rest[j] in rest; }
    } else {
      var next := Some(LinkTo(rest[limit - 1], Next));
      var later := FollowNext(tables[1..], tenant, next, limit);
      assert FollowNext(tables, tenant, cursor, limit) == Walk(rest[..limit] + later.rows, later.finished);
      hide FollowNext, Rest, Table;
      if j < limit {
        assert rest[..limit][j] == rest[j];
        KeyInSum(rest[..limit], later.rows, tenant, created, id, rest[j]);
      } else {
        assert j == limit - 1 || Before(rest[limit - 1], rest[j]);
        WalkIsComplete(tables[1..], tenant, next, limit, created, id);
        var y :| y in later.rows && y.created == created && y.id == id && Belongs(y, tenant);
        KeyInSum(rest[..limit], later.rows, tenant, created, id, y);
      }
    }
  }

  lemma KeyInSum(a: seq<Row>, b: seq<Row>, tenant: int, created: int, id: int, row: Row)
    requires (row in a || row in b) && row.created == created && row.id == id && Belongs(row, tenant)
    ensures HasKey(a + b, tenant, created, id)
  {
    assert row in a + b;
  }

  /** Where the query with the cursor shows the row with this key. */
  lemma PlaceOf(rows: seq<Row>, tenant: int, cursor: Option<Cursor>, created: int, id: int) returns (j: nat)
    requires Table(rows) && HasKey(rows, tenant, created, id)
    requires cursor.Some? ==> Newer(cursor.value.created, cursor.value.id, created, id)
    ensures
      var rest := Rest(rows, tenant, cursor);
      && Descending(rest) && j < |rest| && rest[j].created == created && rest[j].id == id && Belongs(rest[j], tenant)
  {
    RestIsSorted(rows, tenant, cursor);
    hide Rest, Table;
    var x :| x in rows && x.created == created && x.id == id && Belongs(x, tenant);
    assert x in Rest(rows, tenant, cursor);
    j :| 0 <= j < |Rest(rows, tenant, cursor)| && Rest(rows, tenant, cursor)[j] == x;
  }

  /** An id stands for the same row, created at the same time, in every table. */
  ghost predicate StableIds(tables: seq<seq<Row>>) {
    forall i, j, a, b ::
      0 <= i < |tables| && 0 <= j < |tables| && a in tables[i] && b in tables[j] && a.id == b.id ==> a.created == b.created
  }

  /** Paging while rows are inserted, edited and deleted shows no row twice. */
  lemma NoRowTwice(tables: seq<seq<Row>>, tenant: int, limit: nat)
    requires AllTables(tables) && StableIds(tables) && limit >= 1
    ensures UniqueIds(FollowNext(tables, tenant, None, limit).rows)
  {
    var seen := FollowNext(tables, tenant, None, limit).rows;
    WalkIsSorted(tables, tenant, None, limit);
    forall i, j | 0 <= i < j < |seen| ensures seen[i].id != seen[j].id {
      WalkShowsRows(tables, tenant, None, limit, seen[i]);
      WalkShowsRows(tables, tenant, None, limit, seen[j]);
      assert Before(seen[i], seen[j]);
    }
  }

  ghost predicate ThroughoutWith(tables: seq<seq<Row>>, tenant: int, created: int, id: int) {
    forall i :: 0 <= i < |tables| ==> HasKey(tables[i], tenant, created, id)
  }

  /** A row that is there all the time is shown exactly once. */
  lemma ShownExactlyOnce(tables: seq<seq<Row>>, tenant: int, limit: nat, created: int, id: int)
    requires AllTables(tables) && StableIds(tables) && limit >= 1 && ThroughoutWith(tables, tenant, created, id)
    requires FollowNext(tables, tenant, None, limit).finished
    ensures
      var seen := FollowNext(tables, tenant, None, limit).rows;
      exists k :: 0 <= k < |seen| && seen[k].id == id && forall l :: 0 <= l < |seen| && seen[l].id == id ==> l == k
  {
    var seen := FollowNext(tables, tenant, None, limit).rows;
    NoRowTwice(tables, tenant, limit);
    WalkIsComplete(tables, tenant, None, limit, created, id);
    var y :| y in seen && y.created == created && y.id == id && Belongs(y, tenant);
    var k :| 0 <= k < |seen| && seen[k] == y;
    assert seen[k].id == id && forall l :: 0 <= l < |seen| && seen[l].id == id ==> l == k;
  }

  // ----- a table that does not change -----

  ghost function Same(rows: seq<Row>, n: nat): seq<seq<Row>> {
    seq(n, i => rows)
  }

  lemma SameAgain(rows: seq<Row>, n: nat)
    requires n >= 1
    ensures Same(rows, n) != [] && Same(rows, n)[0] == rows && Same(rows, n)[1..] == Same(rows, n - 1)
  {
  }

  ghost function After(rows: seq<Row>, tenant: int, cursor: Option<Cursor>, limit: nat): Option<Cursor>
    requires 1 <= limit <= |Rest(rows, tenant, cursor)|
  {
    Some(LinkTo(Rest(rows, tenant, cursor)[limit - 1], Next))
  }

  lemma NextRestSize(rows: seq<Row>, tenant: int, cursor: Option<Cursor>, limit: nat)
    requires Table(rows) && 1 <= limit <= |Rest(rows, tenant, cursor)|
    ensures |Rest(rows, tenant, After(rows, tenant, cursor, limit))| == |Rest(rows, tenant, cursor)| - limit
  {
    hide Rest, Table;
    var rest := Rest(rows, tenant, cursor);
    NextRest(rows, tenant, cursor, limit - 1);
    assert |rest[limit - 1 + 1..]| == |rest| - limit;
  }

  lemma OneRequestOnSame(rows: seq<Row>, n: nat, tenant: int, cursor: Option<Cursor>, limit: nat)
    requires Table(rows) && Forward(cursor) && limit >= 1 && n >= 1
    ensures
      var left, finished := |Rest(rows, tenant, cursor)|, FollowNext(Same(rows, n), tenant, cursor, limit).finished;
      if left <= limit then finished
      else
        var next := After(rows, tenant, cursor, limit);
        && Forward(next) && |Rest(rows, tenant, next)| == left - limit
        && finished == FollowNext(Same(rows, n - 1), tenant, next, limit).finished
  {
    SameAgain(rows, n);
    OneRequest(Same(rows, n), tenant, cursor, limit);
    if |Rest(rows, tenant, cursor)| > limit {
      NextRestSize(rows, tenant, cursor, limit);
    }
    hide FollowNext, Rest, Same, Table;
  }

  lemma {:induction false} WalkFinishes(rows: seq<Row>, n: nat, tenant: int, cursor: Option<Cursor>, limit: nat)
    requires Table(rows) && Forward(cursor) && limit >= 1 && n >= 1 && Enough(n, limit, |Rest(rows, tenant, cursor)|)
    ensures FollowNext(Same(rows, n), tenant, cursor, limit).finished
    decreases n
  {
    hide Enough, Table, FollowNext, Rest, Same, After, Forward;
    OneRequestOnSame(rows, n, tenant, cursor, limit);
    if |Rest(rows, tenant, cursor)| > limit {
      OneRequestLess(n, limit, |Rest(rows, tenant, cursor)|);
      WalkFinishes(rows, n - 1, tenant, After(rows, tenant, cursor, limit), limit);
    }
  }

  /** n pages of this size hold so many rows. */
  ghost predicate Enough(n: nat, limit: nat, size: nat) {
    n * limit >= size
  }

  lemma OneRequestLess(n: nat, limit: nat, size: nat)
    requires size > limit && Enough(n, limit, size)
    ensures n >= 2 && Enough(n - 1, limit, size - limit)
  {
    assert n * limit == (n - 1) * limit + limit;
  }

  /** The query after the k-th selected row selects what comes after that row. */
  lemma NextRest(rows: seq<Row>, tenant: int, cursor: Option<Cursor>, k: nat)
    requires Table(rows) && k < |Rest(rows, tenant, cursor)|
    ensures
      var rest := Rest(rows, tenant, cursor);
      Rest(rows, tenant, Some(LinkTo(rest[k], Next))) == rest[k + 1..]
  {
    var rest := Rest(rows, tenant, cursor);
    var next := Some(LinkTo(rest[k], Next));
    RestIsSorted(rows, tenant, cursor);
    RestIsSorted(rows, tenant, next);
    hide Rest, Table, Belongs;
    assert rest[k] in rest;
    SuffixIsAfter(rest, k, Rest(rows, tenant, next));
  }

  lemma SuffixIsAfter(rest: seq<Row>, k: nat, found: seq<Row>)
    requires Descending(rest) && Descending(found) && k < |rest|
    requires forall x :: x in found <==> x in rest && Before(rest[k], x)
    ensures found == rest[k + 1..]
  {
    forall x ensures x in rest[k + 1..] <==> x in found {
      if x in rest[k + 1..] {
        var i :| 0 <= i < |rest[k + 1..]| && rest[k + 1..][i] == x;
        assert x == rest[i + k + 1];
      }
      if x in found {
        var i :| 0 <= i < |rest| && rest[i] == x;
        assert i > k;
        assert x == rest[k + 1..][i - k - 1];
      }
    }
    DescendingIsUnique(found, rest[k + 1..]);
  }

  /** For every limit, following the next links through an unchanged table ends, and shows all rows
      of the tenant in strictly descending order. */
  lemma FullWalk(rows: seq<Row>, tenant: int, limit: nat, n: nat)
    requires Table(rows) && limit >= 1 && n >= 1 && Enough(n, limit, |Mine(rows, tenant)|)
    ensures FollowNext(Same(rows, n), tenant, None, limit) == Walk(All(rows, tenant), true)
    ensures Descending(All(rows, tenant))
    ensures forall x :: x in All(rows, tenant) <==> x in rows && Belongs(x, tenant)
  {
    var tables, seen := Same(rows, n), FollowNext(Same(rows, n), tenant, None, limit).rows;
    AllIsSorted(rows, tenant);
    WalkFinishes(rows, n, tenant, None, limit);
    WalkIsSorted(tables, tenant, None, limit);
    hide FollowNext, All, Descending;
    forall x ensures x in seen <==> x in All(rows, tenant) {
      if x in seen {
        WalkShowsRows(tables, tenant, None, limit, x);
      }
      if x in All(rows, tenant) {
        forall i | 0 <= i < |tables| ensures HasKey(tables[i], tenant, x.created, x.id) {
          assert x in tables[i];
        }
        WalkIsComplete(tables, tenant, None, limit, x.created, x.id);
        var y :| y in seen && y.created == x.created && y.id == x.id;
        WalkShowsRows(tables, tenant, None, limit, y);
        assert y == x;
      }
    }
    DescendingIsUnique(seen, All(rows, tenant));
  }

  // ----- the previous links -----

  lemma YoungerPrefix(rows: seq<Row>, tenant: int, k: nat)
    requires Table(rows) && k < |All(rows, tenant)|
    ensures
      var all := All(rows, tenant);
      NewestFirst(Filter(Mine(rows, tenant), Younger(all[k].created, all[k].id))) == all[..k]
  {
    var all := All(rows, tenant);
    var younger := Younger(all[k].created, all[k].id);
    var found := Filter(Mine(rows, tenant), younger);
    AllIsSorted(rows, tenant);
    YoungerRows(rows, tenant, all[k]);
    hide All, Table, Mine, Filter, NewestFirst, Younger;
    PrefixIsBefore(all, k, NewestFirst(found));
  }

  lemma YoungerRows(rows: seq<Row>, tenant: int, row: Row)
    requires Table(rows)
    ensures
      var found := NewestFirst(Filter(Mine(rows, tenant), Younger(row.created, row.id)));
      Descending(found) && forall x :: x in found <==> x in All(rows, tenant) && Before(x, row)
  {
    var younger := Younger(row.created, row.id);
    var mine := Mine(rows, tenant);
    MineIsTable(rows, tenant);
    NewestFirstIsSorted(mine);
    FilterUniqueIds(mine, younger);
    NewestFirstIsSorted(Filter(mine, younger));
    hide NewestFirst, Filter, Mine, Table;
    forall x ensures x in Filter(mine, younger) <==> x in mine && Before(x, row) {
      FilterMember(mine, younger, x);
    }
  }

  lemma PrefixIsBefore(all: seq<Row>, k: nat, found: seq<Row>)
    requires Descending(all) && Descending(found) && k < |all|
    requires forall x :: x in found <==> x in all && Before(x, all[k])
    ensures found == all[..k]
  {
    forall x ensures x in all[..k] <==> x in found {
      if x in all[..k] {
        var i :| 0 <= i < k && all[i] == x;
        assert Before(all[i], all[k]);
      }
      if x in found {
        var i :| 0 <= i < |all| && all[i] == x;
        assert i < k;
        assert x == all[..k][i];
      }
    }
    DescendingIsUnique(found, all[..k]);
  }

  function LastOnes(rows: seq<Row>, limit: nat): seq<Row> {
    rows[if |rows| < limit then 0 else |rows| - limit..]
  }

  lemma LastOnesSize(rows: seq<Row>, limit: nat)
    ensures |LastOnes(rows, limit)| == if |rows| < limit then |rows| else limit
  {
  }

  lemma ReverseTwice(rows: seq<Row>, n: nat)
    requires n <= |rows|
    ensures Reverse(Reverse(rows)[..n]) == rows[|rows| - n..]
  {
  }

  lemma TrimmedBackwards(rows: seq<Row>, limit: nat)
    ensures Trimmed(Reverse(rows), limit, Prev) == Page(LastOnes(rows, limit), |rows| > limit)
  {
    var n := if |rows| < limit then |rows| else limit;
    ReverseTwice(rows, n);
    hide Reverse;
    var back := Reverse(rows);
    assert Take(Take(back, limit + 1), limit) == back[..n];
  }

  /** What the query with a previous cursor selects, newest first, wherever the cursor came from. */
  ghost function Above(rows: seq<Row>, tenant: int, cursor: Cursor): seq<Row> {
    NewestFirst(Filter(Mine(rows, tenant), Younger(cursor.created, cursor.id)))
  }

  lemma AboveIsSorted(rows: seq<Row>, tenant: int, cursor: Cursor)
    requires Table(rows)
    ensures Descending(Above(rows, tenant, cursor))
    ensures forall x :: x in Above(rows, tenant, cursor) <==>
              x in rows && Belongs(x, tenant) && Newer(x.created, x.id, cursor.created, cursor.id)
  {
    hide NewestFirst, Filter, Mine;
    YoungerRows(rows, tenant, Row(cursor.id, cursor.created, 0, Role("", "")));
    AllIsSorted(rows, tenant);
  }

  /** The answer to a previous cursor: the rows just above it, newest first; the previous link starts at
      the first of them; and a next link, after the last of them, is offered exactly if there are rows
      still newer. */
  lemma BackwardFetch(rows: seq<Row>, tenant: int, cursor: Cursor, limit: nat)
    requires cursor.direction == Prev && cursor.id != 0 && limit >= 1
    ensures
      var response, above := ListRoles(rows, tenant, Some(cursor), limit), Above(rows, tenant, cursor);
      var first := if |above| < limit then 0 else |above| - limit;
      && response.data == above[first..]
      && response.prev == (if above != [] then Some(LinkTo(above[first], Prev)) else None)
      && response.next == (if |above| > limit then Some(LinkTo(above[|above| - 1], Next)) else None)
      && (response.hasNext <==> |above| > limit) && response.hasPrev
  {
    BackwardPage(rows, tenant, cursor, limit);
    LastOnesSize(Above(rows, tenant, cursor), limit);
    hide Fetch, Above;
  }

  lemma BackwardPage(rows: seq<Row>, tenant: int, cursor: Cursor, limit: nat)
    requires cursor.direction == Prev && cursor.id != 0
    ensures
      var above := Above(rows, tenant, cursor);
      Fetch(rows, tenant, Some(cursor), limit) == Page(LastOnes(above, limit), |above| > limit)
  {
    hide Reverse, NewestFirst, Filter, Mine, LastOnes, Trimmed;
    TrimmedBackwards(Above(rows, tenant, cursor), limit);
  }

  /** A previous link from the k-th row shows the rows just before it, and its answer links to those
      before them in turn. */
  lemma PreviousFetch(rows: seq<Row>, tenant: int, k: nat, limit: nat)
    requires Table(rows) && k < |All(rows, tenant)| && limit >= 1
    ensures
      var all := All(rows, tenant);
      var response := ListRoles(rows, tenant, Some(LinkTo(all[k], Prev)), limit);
      var first := if k < limit then 0 else k - limit;
      && response.data == all[first..k]
      && response.prev == (if k > 0 then Some(LinkTo(all[first], Prev)) else None)
      && response.next == (if k > limit then Some(LinkTo(all[k - 1], Next)) else None)
  {
    var all := All(rows, tenant);
    YoungerPrefix(rows, tenant, k);
    RestId(rows, tenant, None, k);
    assert Above(rows, tenant, LinkTo(all[k], Prev)) == all[..k];
    BackwardFetch(rows, tenant, LinkTo(all[k], Prev), limit);
    assert all[..k][if k < limit then 0 else k - limit..] == all[if k < limit then 0 else k - limit..k];
  }

  // ----- following the previous links -----

  /** The rows a client sees by following previous links, in the order of the list, and whether there
      was nothing left to link to. */
  ghost function FollowPrevious(tables: seq<seq<Row>>, tenant: int, cursor: Option<Cursor>, limit: nat): Walk {
    if tables == [] then Walk([], false)
    else
      var response := ListRoles(tables[0], tenant, cursor, limit);
      if response.prev.None? then Walk(response.data, true)
      else
        var rest := FollowPrevious(tables[1..], tenant, response.prev, limit);
        Walk(rest.rows + response.data, rest.finished)
  }

  lemma OneRequestBack(rows: seq<Row>, n: nat, tenant: int, k: nat, limit: nat)
    requires Table(rows) && k < |All(rows, tenant)| && limit >= 1 && n >= 1
    ensures
      var all := All(rows, tenant);
      var first := if k < limit then 0 else k - limit;
      FollowPrevious(Same(rows, n), tenant, Some(LinkTo(all[k], Prev)), limit)
      == if k == 0 then Walk([], true)
         else
           var rest := FollowPrevious(Same(rows, n - 1), tenant, Some(LinkTo(all[first], Prev)), limit);
           Walk(rest.rows + all[first..k], rest.finished)
  {
    hide ListRoles, All, Table, Same;
    SameAgain(rows, n);
    PreviousFetch(rows, tenant, k, limit);
  }

  lemma SliceSum(all: seq<Row>, m: nat, k: nat)
    requires m <= k <= |all|
    ensures all[..m] + all[m..k] == all[..k]
  {
  }

  /** On an unchanged table the way back ends, and shows exactly the rows before the one it starts from,
      each once. */
  lemma {:induction false} WalkBack(rows: seq<Row>, n: nat, tenant: int, k: nat, limit: nat)
    requires Table(rows) && k < |All(rows, tenant)| && limit >= 1 && n >= 1 && Enough(n - 1, limit, k)
    ensures FollowPrevious(Same(rows, n), tenant, Some(LinkTo(All(rows, tenant)[k], Prev)), limit)
         == Walk(All(rows, tenant)[..k], true)
    decreases n
  {
    hide All, Table, Same, FollowPrevious, Enough;
    OneRequestBack(rows, n, tenant, k, limit);
    if k > 0 {
      var first := if k < limit then 0 else k - limit;
      OneRequestLessBack(n - 1, limit, k);
      WalkBack(rows, n - 1, tenant, first, limit);
      SliceSum(All(rows, tenant), first, k);
    }
  }

  lemma OneRequestLessBack(n: nat, limit: nat, size: nat)
    requires size > 0 && Enough(n, limit, size)
    ensures n >= 1 && Enough(n - 1, limit, if size < limit then 0 else size - limit)
  {
    if n > 0 {
      assert n * limit == (n - 1) * limit + limit;
    }
  }

  /** The page that follows the k-th row, and its previous link. */
  lemma LaterPage(rows: seq<Row>, tenant: int, k: nat, limit: nat)
    requires Table(rows) && 1 <= k < |All(rows, tenant)| && limit >= 1
    ensures
      var all := All(rows, tenant);
      var page := ListRoles(rows, tenant, Some(LinkTo(all[k - 1], Next)), limit);
      page.data == Take(all[k..], limit) && page.prev == Some(LinkTo(all[k], Prev))
  {
    assert Rest(rows, tenant, None) == All(rows, tenant);
    hide Rest, Table, Fetch, ListRoles, All, Take;
    RestId(rows, tenant, None, k - 1);
    NextRest(rows, tenant, None, k - 1);
    ForwardFetch(rows, tenant, Some(LinkTo(All(rows, tenant)[k - 1], Next)), limit);
  }

  /** From any later page the previous link leads to exactly the page before it. */
  lemma PreviousUndoesNext(rows: seq<Row>, tenant: int, k: nat, limit: nat)
    requires Table(rows) && 1 <= limit <= k < |All(rows, tenant)|
    ensures
      var all := All(rows, tenant);
      var page := ListRoles(rows, tenant, Some(LinkTo(all[k - 1], Next)), limit);
      && page.data == Take(all[k..], limit)
      && page.prev == Some(LinkTo(all[k], Prev))
      && ListRoles(rows, tenant, page.prev, limit).data == all[k - limit..k]
  {
    hide Rest, Table, Fetch, ListRoles, All, Take;
    LaterPage(rows, tenant, k, limit);
    PreviousFetch(rows, tenant, k, limit);
  }

  /** Why ids must not be 0: such a cursor is taken for none, and next links would lead back to the
      first page for ever. */
  lemma ZeroIdRestarts(rows: seq<Row>, tenant: int, created: int, limit: nat)
    ensures ListRoles(rows, tenant, Some(Cursor(created, 0, Next)), limit).data == ListRoles(rows, tenant, None, limit).data
    ensures ListRoles(rows, tenant, Some(Cursor(created, 0, Next)), limit).next == ListRoles(rows, tenant, None, limit).next
    ensures ListRoles(rows, tenant, Some(Cursor(created, 0, Prev)), limit).data == Reverse(ListRoles(rows, tenant, None, limit).data)
  {
  }

  lemma RouteAnswers(rows: seq<Row>, tenant: int, cursor: Option<Cursor>, limit: nat)
    ensures Table(rows) && Forward(cursor) && limit >= 1 ==>
      var response, rest := ListRoles(rows, tenant, cursor, limit), Rest(rows, tenant, cursor);
      && response.data == Take(rest, limit)
      && response.next == (if |rest| > limit then Some(LinkTo(rest[limit - 1], Next)) else None)
      && response.prev == (if cursor.Some? && rest != [] then Some(LinkTo(rest[0], Prev)) else None)
    ensures cursor.Some? && cursor.value.direction == Prev && cursor.value.id != 0 && limit >= 1 ==>
      var response, above := ListRoles(rows, tenant, cursor, limit), Above(rows, tenant, cursor.value);
      var first := if |above| < limit then 0 else |above| - limit;
      && response.data == above[first..]
      && response.prev == (if above != [] then Some(LinkTo(above[first], Prev)) else None)
      && response.next == (if |above| > limit then Some(LinkTo(above[|above| - 1], Next)) else None)
  {
    hide ListRoles, Rest, Above, Table;
    if Table(rows) && Forward(cursor) && limit >= 1 {
      ForwardFetch(rows, tenant, cursor, limit);
    }
    if cursor.Some? && cursor.value.direction == Prev && cursor.value.id != 0 && limit >= 1 {
      BackwardFetch(rows, tenant, cursor.value, limit);
    }
  }

  /** The route itself: it takes the cursor apart, asks for a page and makes the links. */
  method ListRolesRoute(rows: seq<Row>, tenant: int, cursor: Option<Cursor>, limit: nat) returns (response: Response)
    ensures response == ListRoles(rows, tenant, cursor, limit)
    ensures Table(rows) && Forward(cursor) && limit >= 1 ==>
      var rest := Rest(rows, tenant, cursor);
      && response.data == Take(rest, limit)
      && response.next == (if |rest| > limit then Some(LinkTo(rest[limit - 1], Next)) else None)
      && response.prev == (if cursor.Some? && rest != [] then Some(LinkTo(rest[0], Prev)) else None)
    ensures cursor.Some? && cursor.value.direction == Prev && cursor.value.id != 0 && limit >= 1 ==>
      var above := Above(rows, tenant, cursor.value);
      var first := if |above| < limit then 0 else |above| - limit;
      && response.data == above[first..]
      && response.prev == (if above != [] then Some(LinkTo(above[first], Prev)) else None)
      && response.next == (if |above| > limit then Some(LinkTo(above[|above| - 1], Next)) else None)
  {
    hide Rest, Above, Table, Take;
    RouteAnswers(rows, tenant, cursor, limit);
    var created, id, direction := None, None, Next;
    if cursor.Some? {
      created, id, direction := Some(cursor.value.created), Some(cursor.value.id), cursor.value.direction;
    }
    var page := ListCursor(rows, tenant, created, id, limit, direction);
    var next, prev := None, None;
    if page.hasMore && page.rows != [] {
      var last := page.rows[|page.rows| - 1];
      next := Some(Cursor(last.created, last.id, Next));
    }
    if cursor.Some? && page.rows != [] {
      var first := page.rows[0];
      prev := Some(Cursor(first.created, first.id, Prev));
    }
    response := Response(page.rows, next, prev, page.hasMore, cursor.Some?);
  }

  // ----- the second implementation: todos of a user -----

  function LiveTodoOf(user: int): Row -> bool {
    (row: Row) => row.data.Todo? && row.data.user == user && !row.data.deleted
  }

  function GetByUserCursor(rows: seq<Row>, tenant: int, user: int, created: Option<int>, id: Option<int>, limit: nat,
                           direction: Direction): Page
  {
    var live := Filter(rows, LiveTodoOf(user));
    var query := if tenant != 0 then Filter(live, OfTenant(tenant)) else live;
    var found :=
      if created.Some? && id.Some? && id.value != 0 then
        match direction
        case Next => NewestFirst(Filter(query, Older(created.value, id.value)))
        case Prev => Reverse(NewestFirst(Filter(query, Younger(created.value, id.value))))
      else NewestFirst(query);
    var models := Take(found, limit + 1);
    Page(if direction == Prev then Reverse(Take(models, limit)) else Take(models, limit), |models| > limit)
  }

  /** The todo pages are cut from the same kind of list: the live todos of the user and tenant that
      come after the cursor, newest first. */
  lemma TodoPages(rows: seq<Row>, tenant: int, user: int, cursor: Option<Cursor>, limit: nat)
    requires Table(rows) && Forward(cursor)
    ensures
      var created := if cursor.Some? then Some(cursor.value.created) else None;
      var id := if cursor.Some? then Some(cursor.value.id) else None;
      var page, rest := GetByUserCursor(rows, tenant, user, created, id, limit, Next), Rest(Filter(rows, LiveTodoOf(user)), tenant, cursor);
      && page.rows == Take(rest, limit) && (page.hasMore <==> |rest| > limit) && Descending(rest)
      && forall x :: x in rest <==>
           x in rows && x.data.Todo? && x.data.user == user && !x.data.deleted && Belongs(x, tenant) && Follows(x, cursor)
  {
    LiveTodosAreTable(rows, user);
    RestIsSorted(Filter(rows, LiveTodoOf(user)), tenant, cursor);
  }

  lemma LiveTodosAreTable(rows: seq<Row>, user: int)
    requires Table(rows)
    ensures Table(Filter(rows, LiveTodoOf(user)))
    ensures forall x :: x in Filter(rows, LiveTodoOf(user)) <==>
              x in rows && x.data.Todo? && x.data.user == user && !x.data.deleted
  {
    FilterUniqueIds(rows, LiveTodoOf(user));
    forall x ensures x in Filter(rows, LiveTodoOf(user)) <==> x in rows && LiveTodoOf(user)(x) {
      FilterMember(rows, LiveTodoOf(user), x);
    }
  }

  /** Going back: the todos just before the k-th one. */
  lemma TodoPreviousPage(rows: seq<Row>, tenant: int, user: int, k: nat, limit: nat)
    requires Table(rows) && k < |All(Filter(rows, LiveTodoOf(user)), tenant)|
    ensures
      var all := All(Filter(rows, LiveTodoOf(user)), tenant);
      GetByUserCursor(rows, tenant, user, Some(all[k].created), Some(all[k].id), limit, Prev)
      == Page(LastOnes(all[..k], limit), k > limit)
  {
    var live := Filter(rows, LiveTodoOf(user));
    var all := All(live, tenant);
    LiveTodosAreTable(rows, user);
    YoungerPrefix(live, tenant, k);
    RestId(live, tenant, None, k);
    TrimmedBackwards(all[..k], limit);
    hide Reverse, Table, All, LastOnes;
  }
}
