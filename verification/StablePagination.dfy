/**
 * Keyset pagination. A page is the first `limit` rows after the cursor in (sort value, id) order,
 * and the cursor of the next page is the position of its last row. The table may change arbitrarily
 * between two fetches.
 */
module StablePagination {
  import opened Prelude

  /** A row as the paginator sees it: its sort value and its unique id. */
  datatype Row = Row(key: int, id: int)

  datatype Direction = Asc | Desc

  /** A cursor is the encoded position of a row, or text that does not decode. */
  datatype Cursor = Position(key: int, id: int) | Malformed

  datatype Page = Page(items: seq<Row>, nextCursor: Option<Cursor>, hasMore: bool)

  /** ORDER BY key, id in the given direction, as a strict order. */
  predicate Before(d: Direction, a: Row, b: Row) {
    match d
    case Asc => a.key < b.key || (a.key == b.key && a.id < b.id)
    case Desc => a.key > b.key || (a.key == b.key && a.id > b.id)
  }

  /** The WHERE clause: strictly past the cursor, or everything without a usable cursor. */
  predicate Matches(d: Direction, cursor: Option<Cursor>, r: Row) {
    match cursor
    case Some(Position(k, id)) =>
      (match d
       case Asc => r.key > k || (r.key == k && r.id > id)
       case Desc => r.key < k || (r.key == k && r.id < id))
    case _ => true
  }

  ghost predicate Ordered(d: Direction, rows: seq<Row>) {
    forall i, j :: 0 <= i < j < |rows| ==> Before(d, rows[i], rows[j])
  }

  // ---------------------------------------------------------------- the database's sort

  ghost predicate IsFirst(d: Direction, rows: set<Row>, f: Row) {
    f in rows && forall r :: r in rows && r != f ==> Before(d, f, r)
  }

  lemma {:induction false} FirstExists(d: Direction, rows: set<Row>) returns (f: Row)
    requires rows != {}
    ensures IsFirst(d, rows, f)
    decreases |rows|
  {
    var x :| x in rows;
    if rows == {x} {
      f := x;
    } else {
      var g := FirstExists(d, rows - {x});
      assert forall r :: r in rows ==> r == x || r in rows - {x};
      assert Before(d, x, g) ==> forall r :: Before(d, g, r) ==> Before(d, x, r);
      f := if Before(d, x, g) then x else g;
    }
  }

  /** s lists exactly the given rows, in order. */
  ghost predicate Lists(d: Direction, rows: set<Row>, s: seq<Row>) {
    Ordered(d, s) && |s| == |rows| && forall r :: r in s <==> r in rows
  }

  lemma {:induction false} ListingExists(d: Direction, rows: set<Row>)
    ensures exists s :: Lists(d, rows, s)
    decreases |rows|
  {
    if rows == {} {
      assert Lists(d, rows, []);
    } else {
      var f := FirstExists(d, rows);
      ListingExists(d, rows - {f});
      var s :| Lists(d, rows - {f}, s);
      assert forall r :: r in s ==> Before(d, f, r);
      assert Lists(d, rows, [f] + s);
    }
  }

  /** The sorted rows; there is only one such listing (SortIsUnique). */
  ghost function Sort(d: Direction, rows: set<Row>): (s: seq<Row>)
    ensures Lists(d, rows, s)
  {
    ListingExists(d, rows);
    var s :| Lists(d, rows, s);
    s
  }

  // ---------------------------------------------------------------- applyCursor and buildPage

  ghost function Take(rows: seq<Row>, n: nat): seq<Row> {
    if |rows| <= n then rows else rows[..n]
  }

  ghost function Remaining(d: Direction, table: set<Row>, cursor: Option<Cursor>): set<Row> {
    set r | r in table && Matches(d, cursor, r)
  }

  /** The query: a limit of 0 is falsy and so sets none; otherwise one extra row is fetched. */
  ghost function ApplyCursor(d: Direction, table: set<Row>, cursor: Option<Cursor>, limit: nat): seq<Row> {
    var rows := Sort(d, Remaining(d, table, cursor));
    if limit == 0 then rows else Take(rows, limit + 1)
  }

  function BuildPage(rows: seq<Row>, limit: nat): Page {
    var hasMore := |rows| > limit;
    var items := if hasMore then rows[..limit] else rows;
    var next := if hasMore && |items| > 0 then Some(Position(items[|items| - 1].key, items[|items| - 1].id)) else None;
    Page(items, next, hasMore)
  }

  ghost function Fetch(d: Direction, table: set<Row>, cursor: Option<Cursor>, limit: nat): Page {
    BuildPage(ApplyCursor(d, table, cursor, limit), limit)
  }

  /** A page is the head of the sorted remaining rows; it names a cursor exactly when rows are left over. */
  lemma {:induction false} PageIsAHead(d: Direction, table: set<Row>, cursor: Option<Cursor>, limit: nat)
    requires limit > 0
    ensures var p := Fetch(d, table, cursor, limit); var rest := Remaining(d, table, cursor);
      && p.items == Take(Sort(d, rest), limit)
      && (p.hasMore <==> |rest| > limit)
      && p.nextCursor == (if p.hasMore then Some(Position(p.items[limit - 1].key, p.items[limit - 1].id)) else None)
  {
  }

  lemma {:induction false} HeadComesFirst(d: Direction, all: seq<Row>, n: nat)
    requires Ordered(d, all) && n > 0
    ensures Ordered(d, Take(all, n)) && forall r :: r in Take(all, n) ==> r in all
    ensures forall r :: r in all && r !in Take(all, n) ==> n < |all| && r in all[n..]
    ensures n <= |all| ==> forall r :: r in all[n..] ==> Before(d, all[n - 1], r)
  {
    var head := Take(all, n);
    assert forall i :: 0 <= i < |head| ==> head[i] == all[i] && all[i] in all;
    forall r | r in all && r !in head ensures n < |all| && r in all[n..] {
      var j :| 0 <= j < |all| && all[j] == r;
      assert j >= |head|;
      assert all[n..][j - n] == r;
    }
  }

  // ---------------------------------------------------------------- a walk over a changing table

  /**
   * Page 0 is fetched from tables[0] at `cursor`; each later page, from the table of its time, at the cursor before it.
   */
  ghost predicate Walk(d: Direction, limit: nat, tables: seq<set<Row>>, pages: seq<Page>, cursor: Option<Cursor>)
    decreases |pages|
  {
    && |pages| == |tables| > 0
    && pages[0] == Fetch(d, tables[0], cursor, limit)
    && (|pages| > 1 ==> pages[0].nextCursor.Some? && Walk(d, limit, tables[1..], pages[1..], pages[0].nextCursor))
  }

  ghost function Items(pages: seq<Page>): seq<Row> {
    if pages == [] then [] else pages[0].items + Items(pages[1..])
  }

  ghost predicate AllMatch(d: Direction, cursor: Option<Cursor>, rows: seq<Row>) {
    forall r :: r in rows ==> Matches(d, cursor, r)
  }

  /** A cursor at a matching row selects only rows its predecessor selected, all after that row. */
  lemma {:induction false} CursorsNest(d: Direction, cursor: Option<Cursor>, last: Row, r: Row)
    requires Matches(d, cursor, last)
    ensures Matches(d, Some(Position(last.key, last.id)), r) <==> Before(d, last, r)
    ensures Before(d, last, r) ==> Matches(d, cursor, r)
  {
  }

  lemma {:induction false} OrderedConcat(d: Direction, a: seq<Row>, b: seq<Row>)
    requires Ordered(d, a) && Ordered(d, b) && |a| > 0 && forall r :: r in b ==> Before(d, a[|a| - 1], r)
    ensures Ordered(d, a + b)
  {
    var s := a + b;
    forall i, j | 0 <= i < j < |s| ensures Before(d, s[i], s[j]) {
      if i < |a| <= j {
        assert s[j] in b;
        assert i < |a| - 1 ==> Before(d, a[i], a[|a| - 1]);
      }
    }
  }

  /** Whatever is inserted or deleted between fetches, the rows returned come in strict order: none twice. */
  lemma {:induction false} NoRowTwice(
    d: Direction, limit: nat, tables: seq<set<Row>>, pages: seq<Page>, cursor: Option<Cursor>)
    requires limit > 0 && Walk(d, limit, tables, pages, cursor)
    ensures Ordered(d, Items(pages)) && AllMatch(d, cursor, Items(pages)) && NoDuplicates(Items(pages))
    decreases |pages|
  {
    var page, rest := pages[0], Remaining(d, tables[0], cursor);
    PageIsAHead(d, tables[0], cursor, limit);
    HeadComesFirst(d, Sort(d, rest), limit);
    if |pages| == 1 {
      assert Items(pages) == page.items;
    } else {
      var more := Items(pages[1..]);
      NoRowTwice(d, limit, tables[1..], pages[1..], page.nextCursor);
      var last := page.items[limit - 1];
      assert last in page.items;
      forall r | r in more ensures Before(d, last, r) && Matches(d, cursor, r) {
        CursorsNest(d, cursor, last, r);
      }
      OrderedConcat(d, page.items, more);
    }
  }

  /** A row due at a fetch is on the page, or due at the next one. */
  lemma {:induction false} DueRowIsKept(d: Direction, table: set<Row>, cursor: Option<Cursor>, limit: nat, r: Row)
    requires limit > 0 && r in table && Matches(d, cursor, r)
    ensures var p := Fetch(d, table, cursor, limit); r in p.items || (p.nextCursor.Some? && Matches(d, p.nextCursor, r))
  {
    var page, all := Fetch(d, table, cursor, limit), Sort(d, Remaining(d, table, cursor));
    PageIsAHead(d, table, cursor, limit);
    HeadComesFirst(d, all, limit);
    assert r in all;
    if r !in page.items {
      assert all[limit - 1] in all;
      CursorsNest(d, cursor, all[limit - 1], r);
    }
  }

  /** And a row present at every fetch of a finished walk is returned (once, by NoRowTwice). */
  lemma {:induction false} PermanentRowsAreReturned(
    d: Direction, limit: nat, tables: seq<set<Row>>, pages: seq<Page>, cursor: Option<Cursor>, r: Row)
    requires limit > 0 && Walk(d, limit, tables, pages, cursor) && pages[|pages| - 1].nextCursor.None?
    requires Matches(d, cursor, r) && forall i :: 0 <= i < |tables| ==> r in tables[i]
    ensures r in Items(pages)
    decreases |pages|
  {
    DueRowIsKept(d, tables[0], cursor, limit, r);
    if r !in pages[0].items {
      PermanentRowsAreReturned(d, limit, tables[1..], pages[1..], pages[0].nextCursor, r);
    }
  }

  // ---------------------------------------------------------------- rows whose sort value changes

  /** Every id keeps one sort value for the whole walk. */
  ghost predicate KeysFixed(tables: seq<set<Row>>) {
    forall i, j, a, b ::
      (0 <= i < |tables| && 0 <= j < |tables| && a in tables[i] && b in tables[j] && a.id == b.id) ==> a == b
  }

  lemma {:induction false} ItemsComeFromTables(
    d: Direction, limit: nat, tables: seq<set<Row>>, pages: seq<Page>, cursor: Option<Cursor>, r: Row) returns (i: nat)
    requires limit > 0 && Walk(d, limit, tables, pages, cursor) && r in Items(pages)
    ensures i < |tables| && r in tables[i]
    decreases |pages|
  {
    if r in pages[0].items {
      i := 0;
      var rest := Remaining(d, tables[0], cursor);
      PageIsAHead(d, tables[0], cursor, limit);
      HeadComesFirst(d, Sort(d, rest), limit);
      assert r in rest;
    } else {
      assert |pages| > 1 by { assert Items(pages[1..]) != []; }
      i := ItemsComeFromTables(d, limit, tables[1..], pages[1..], pages[0].nextCursor, r);
      i := i + 1;
    }
  }

  /** With fixed sort values no id is returned twice, not even one deleted and inserted again. */
  lemma {:induction false} NoIdTwice(
    d: Direction, limit: nat, tables: seq<set<Row>>, pages: seq<Page>, cursor: Option<Cursor>)
    requires limit > 0 && Walk(d, limit, tables, pages, cursor) && KeysFixed(tables)
    ensures forall x, y :: 0 <= x < y < |Items(pages)| ==> Items(pages)[x].id != Items(pages)[y].id
  {
    var rows := Items(pages);
    NoRowTwice(d, limit, tables, pages, cursor);
    forall x, y | 0 <= x < y < |rows| ensures rows[x].id != rows[y].id {
      var i := ItemsComeFromTables(d, limit, tables, pages, cursor, rows[x]);
      var j := ItemsComeFromTables(d, limit, tables, pages, cursor, rows[y]);
      assert rows[x] != rows[y];
    }
  }

  /** Wherever id `x` occurs it has a sort value from `keys`; the other rows are arbitrary. */
  ghost predicate Confined(tables: seq<set<Row>>, x: int, keys: set<int>) {
    forall i, r :: 0 <= i < |tables| && r in tables[i] && r.id == x ==> r.key in keys
  }

  ghost predicate UniqueIds(table: set<Row>) {
    forall a, b :: a in table && b in table && a.id == b.id ==> a == b
  }

  /** A walk from the start over tables in which ids are unique and `x` is confined to `keys`. */
  ghost predicate ConfinedWalk(
    d: Direction, limit: nat, tables: seq<set<Row>>, pages: seq<Page>, x: int, keys: set<int>)
  {
    Walk(d, limit, tables, pages, None) && Confined(tables, x, keys) && forall i :: 0 <= i < |tables| ==>
      UniqueIds(tables[i])
  }

  ghost predicate Twice(rows: seq<Row>, x: int) {
    exists i, j :: 0 <= i < j < |rows| && rows[i].id == rows[j].id == x
  }

  ghost predicate OneKey(keys: set<int>) {
    forall a, b :: a in keys && b in keys ==> a == b
  }

  /** `limit` rows at sort value `key`, in order, of which the row of id `x` is one end; then one row at `next`. */
  function Filled(d: Direction, limit: nat, x: int, key: int, next: int): (rows: seq<Row>)
    ensures |rows| == limit + 1
  {
    seq(limit + 1, i requires 0 <= i <= limit =>
      if i == limit then Row(next, x + limit) else Row(key, if d.Asc? then x + i else x + limit - 1 - i))
  }

  predicate KeyBefore(d: Direction, a: int, b: int) {
    if d.Asc? then a < b else a > b
  }

  lemma {:induction false} SortedTable(d: Direction, rows: seq<Row>)
    requires Ordered(d, rows)
    ensures Sort(d, Remaining(d, (set r | r in rows), None)) == rows
  {
    SortIsUnique(d, Sort(d, Remaining(d, (set r | r in rows), None)), rows);
  }

  lemma {:induction false} FilledIsOrdered(d: Direction, limit: nat, x: int, key: int, next: int)
    requires KeyBefore(d, key, next)
    ensures Ordered(d, Filled(d, limit, x, key, next)) && UniqueIds((set r | r in Filled(d, limit, x, key, next)))
  {
  }

  lemma {:induction false} TwoPages(d: Direction, limit: nat, t0: set<Row>, t1: set<Row>)
    requires limit > 0 && Fetch(d, t0, None, limit).nextCursor.Some?
    ensures var p := Fetch(d, t0, None, limit); var q := Fetch(d, t1, p.nextCursor, limit);
      Walk(d, limit, [t0, t1], [p, q], None) && Items([p, q]) == p.items + q.items
  {
    var p := Fetch(d, t0, None, limit);
    var q := Fetch(d, t1, p.nextCursor, limit);
    assert [p, q][1..] == [q] && [t0, t1][1..] == [t1] && [q][1..] == [];
    assert Walk(d, limit, [t1], [q], p.nextCursor);
    ItemsOf([p, q]);
    ItemsOf([q]);
  }

  /** The first page of one row too many. */
  lemma {:induction false} HeadPage(d: Direction, limit: nat, rows: seq<Row>)
    requires limit > 0 && Ordered(d, rows) && |rows| == limit + 1
    ensures var p := Fetch(d, (set r | r in rows), None, limit);
      && p.items == rows[..limit] && p.nextCursor == Some(Position(rows[limit - 1].key, rows[limit - 1].id))
  {
    SortedTable(d, rows);
    PageIsAHead(d, (set r | r in rows), None, limit);
  }

  lemma {:induction false} OneRowPage(d: Direction, limit: nat, r: Row, cursor: Option<Cursor>)
    requires limit > 0
    ensures Fetch(d, {r}, cursor, limit).items == (if Matches(d, cursor, r) then [r] else [])
    ensures Fetch(d, {r}, cursor, limit).nextCursor == None
  {
    var listed := if Matches(d, cursor, r) then [r] else [];
    PageIsAHead(d, {r}, cursor, limit);
    assert Remaining(d, {r}, cursor) == set x | x in listed;
    SortIsUnique(d, Sort(d, Remaining(d, {r}, cursor)), listed);
  }

  /** A row returned at sort value `k` that then moves on to `k'` is returned again. */
  lemma {:induction false} MovedRowIsReturnedTwice(d: Direction, limit: nat, x: int, k: int, k': int)
    returns (tables: seq<set<Row>>, pages: seq<Page>)
    requires limit > 0 && KeyBefore(d, k, k')
    ensures ConfinedWalk(d, limit, tables, pages, x, {k, k'}) && Twice(Items(pages), x)
  {
    var rows := Filled(d, limit, x, k, k');
    var t0, t1 := (set r | r in rows), {Row(k', x)};
    var p := Fetch(d, t0, None, limit);
    FilledIsOrdered(d, limit, x, k, k');
    HeadPage(d, limit, rows);
    OneRowPage(d, limit, Row(k', x), p.nextCursor);
    TwoPages(d, limit, t0, t1);
    tables, pages := [t0, t1], [p, Fetch(d, t1, p.nextCursor, limit)];
    var at := if d.Asc? then 0 else limit - 1;
    var items := Items(pages);
    assert items[at] == Row(k, x) && items[limit] == Row(k', x);
  }

  /** Where a walk, whatever its tables, may return id `x` twice: exactly where its sort value can change. */
  lemma {:induction false} ReturnedOnceIffKeyFixed(d: Direction, limit: nat, x: int, keys: set<int>)
    requires limit > 0
    ensures OneKey(keys)
       <==> forall tables, pages :: ConfinedWalk(d, limit, tables, pages, x, keys) ==> !Twice(Items(pages), x)
  {
    if OneKey(keys) {
      forall tables, pages | ConfinedWalk(d, limit, tables, pages, x, keys) ensures !Twice(Items(pages), x) {
        FixedKeyReturnedOnce(d, limit, tables, pages, x, keys);
      }
    } else {
      var a, b :| a in keys && b in keys && a != b;
      var k, k' := if KeyBefore(d, a, b) then a else b, if KeyBefore(d, a, b) then b else a;
      var tables, pages := MovedRowIsReturnedTwice(d, limit, x, k, k');
      assert ConfinedWalk(d, limit, tables, pages, x, keys);
    }
  }

  lemma {:induction false} FixedKeyReturnedOnce(
    d: Direction, limit: nat, tables: seq<set<Row>>, pages: seq<Page>, x: int, keys: set<int>)
    requires limit > 0 && ConfinedWalk(d, limit, tables, pages, x, keys) && OneKey(keys)
    ensures !Twice(Items(pages), x)
  {
    var rows := Items(pages);
    NoRowTwice(d, limit, tables, pages, None);
    forall i, j | 0 <= i < j < |rows| && rows[i].id == x ensures rows[j].id != x {
      var p := ItemsComeFromTables(d, limit, tables, pages, None, rows[i]);
      var q := ItemsComeFromTables(d, limit, tables, pages, None, rows[j]);
      assert rows[i] != rows[j];
    }
  }

  ghost predicate HasId(rows: set<Row>, x: int) {
    exists r :: r in rows && r.id == x
  }

  /** Id `x` is in the table at every fetch of a finished walk. */
  ghost predicate AlwaysThere(tables: seq<set<Row>>, pages: seq<Page>, x: int) {
    && pages != [] && pages[|pages| - 1].nextCursor.None?
    && forall i :: 0 <= i < |tables| ==> HasId(tables[i], x)
  }

  ghost predicate Returned(rows: seq<Row>, x: int) {
    exists i :: 0 <= i < |rows| && rows[i].id == x
  }

  /** `limit` rows before the one at `next` of id `x` and past the position `(key, x)`. */
  function Between(d: Direction, limit: nat, x: int, key: int, next: int): (rows: seq<Row>)
    ensures |rows| == limit + 1
  {
    seq(limit + 1, i requires 0 <= i <= limit =>
      if i == limit then Row(next, x) else Row(key, if d.Asc? then x + 1 + i else x - 1 - i))
  }

  lemma {:induction false} BetweenIsOrdered(d: Direction, limit: nat, x: int, key: int, next: int)
    requires KeyBefore(d, key, next)
    ensures Ordered(d, Between(d, limit, x, key, next)) && UniqueIds((set r | r in Between(d, limit, x, key, next)))
  {
  }

  /**
   * A row not yet returned, at `k'`, that moves back to `k` behind the cursor is never returned, though always there.
   */
  lemma {:induction false} MovedRowIsMissed(d: Direction, limit: nat, x: int, k: int, k': int)
    returns (tables: seq<set<Row>>, pages: seq<Page>)
    requires limit > 0 && KeyBefore(d, k, k')
    ensures ConfinedWalk(d, limit, tables, pages, x, {k, k'}) && AlwaysThere(tables, pages, x)
      && !Returned(Items(pages), x)
  {
    var rows := Between(d, limit, x, k, k');
    var t0, t1 := (set r | r in rows), {Row(k, x)};
    BetweenIsOrdered(d, limit, x, k, k');
    tables := [t0, t1];
    pages := ThenNothing(d, limit, rows, Row(k, x));
    assert rows[limit] in t0 && Row(k, x) in t1;
    assert HasId(t0, x) && HasId(t1, x);
    forall i | 0 <= i < |Items(pages)| ensures Items(pages)[i].id != x {
      assert Items(pages)[i] == rows[i];
    }
  }

  /** A page of rows, and then a table whose one row lies behind its cursor. */
  lemma {:induction false} ThenNothing(d: Direction, limit: nat, rows: seq<Row>, r: Row) returns (pages: seq<Page>)
    requires limit > 0 && Ordered(d, rows) && |rows| == limit + 1 && Before(d, r, rows[limit - 1])
    ensures Walk(d, limit, [(set r | r in rows), {r}], pages, None)
    ensures Items(pages) == rows[..limit] && |pages| == 2 && pages[1].nextCursor.None?
  {
    var t0 := set r | r in rows;
    var p := Fetch(d, t0, None, limit);
    HeadPage(d, limit, rows);
    OneRowPage(d, limit, r, p.nextCursor);
    TwoPages(d, limit, t0, {r});
    pages := [p, Fetch(d, {r}, p.nextCursor, limit)];
  }

  /** An id that is always there is returned by every finished walk exactly where its sort value cannot change. */
  lemma {:induction false} AlwaysReturnedIffKeyFixed(d: Direction, limit: nat, x: int, keys: set<int>)
    requires limit > 0
    ensures OneKey(keys) <==> forall tables, pages ::
      ConfinedWalk(d, limit, tables, pages, x, keys) && AlwaysThere(tables, pages, x) ==> Returned(Items(pages), x)
  {
    if OneKey(keys) {
      forall tables, pages | ConfinedWalk(d, limit, tables, pages, x, keys) && AlwaysThere(tables, pages, x)
        ensures Returned(Items(pages), x)
      {
        FixedKeyIsReturned(d, limit, tables, pages, x, keys);
      }
    } else {
      var a, b :| a in keys && b in keys && a != b;
      var k, k' := if KeyBefore(d, a, b) then a else b, if KeyBefore(d, a, b) then b else a;
      var tables, pages := MovedRowIsMissed(d, limit, x, k, k');
      assert ConfinedWalk(d, limit, tables, pages, x, keys);
    }
  }

  lemma {:induction false} FixedKeyIsReturned(
    d: Direction, limit: nat, tables: seq<set<Row>>, pages: seq<Page>, x: int, keys: set<int>)
    requires limit > 0 && ConfinedWalk(d, limit, tables, pages, x, keys) && AlwaysThere(tables, pages, x)
      && OneKey(keys)
    ensures Returned(Items(pages), x)
  {
    assert HasId(tables[0], x);
    var r :| r in tables[0] && r.id == x;
    forall i | 0 <= i < |tables| ensures r in tables[i] {
      assert HasId(tables[i], x);
      var q :| q in tables[i] && q.id == x;
      assert q == r;
    }
    PermanentRowsAreReturned(d, limit, tables, pages, None, r);
    var i :| 0 <= i < |Items(pages)| && Items(pages)[i] == r;
  }

  // ---------------------------------------------------------------- a walk over a fixed table

  lemma {:induction false} SortIsUnique(d: Direction, a: seq<Row>, b: seq<Row>)
    requires Ordered(d, a) && Ordered(d, b) && forall r :: r in a <==> r in b
    ensures a == b
    decreases |a|
  {
    assert |b| > 0 ==> b[0] in b;
    if a != [] {
      assert a[0] in a;
      assert a[0] == b[0];
      TailMembers(d, a);
      TailMembers(d, b);
      SortIsUnique(d, a[1..], b[1..]);
    }
  }

  lemma {:induction false} TailMembers(d: Direction, a: seq<Row>)
    requires Ordered(d, a) && a != []
    ensures forall r :: r in a[1..] <==> r in a && r != a[0]
  {
    assert a == [a[0]] + a[1..];
  }

  /** A cursor at row n of the sorted rows selects exactly the rows after it. */
  lemma {:induction false} CursorSelectsTheRest(
    d: Direction, table: set<Row>, cursor: Option<Cursor>, all: seq<Row>, n: nat)
    requires Ordered(d, all) && 0 < n < |all| && forall r :: r in all <==> r in Remaining(d, table, cursor)
    ensures Sort(d, Remaining(d, table, Some(Position(all[n - 1].key, all[n - 1].id)))) == all[n..]
  {
    var last := all[n - 1];
    var rest := Remaining(d, table, Some(Position(last.key, last.id)));
    HeadComesFirst(d, all, n);
    assert last in all;
    forall r | r in all[n..] ensures r in rest {
      assert r in all;
      CursorsNest(d, cursor, last, r);
    }
    forall r | r in rest ensures r in all[n..] {
      CursorsNest(d, cursor, last, r);
      assert r in Remaining(d, table, cursor) && r in all;
      var j :| 0 <= j < |all| && all[j] == r;
      assert n <= j;
      assert all[n..][j - n] == r;
    }
    SortIsUnique(d, Sort(d, rest), all[n..]);
  }

  /** A cursor that does not decode starts over. */
  lemma {:induction false} MalformedCursorStartsOver(d: Direction, table: set<Row>, limit: nat)
    ensures Fetch(d, table, Some(Malformed), limit) == Fetch(d, table, None, limit)
  {
    assert Remaining(d, table, Some(Malformed)) == Remaining(d, table, None);
  }

  /** What a walk returns is in the order asked for, by sort value and then by id. */
  lemma {:induction false} WalkOrder(
    d: Direction, limit: nat, tables: seq<set<Row>>, pages: seq<Page>, cursor: Option<Cursor>, i: nat, j: nat)
    requires limit > 0 && Walk(d, limit, tables, pages, cursor) && i < j < |Items(pages)|
    ensures var a, b := Items(pages)[i], Items(pages)[j];
      if d.Asc? then a.key < b.key || (a.key == b.key && a.id < b.id)
      else a.key > b.key || (a.key == b.key && a.id > b.id)
  {
    NoRowTwice(d, limit, tables, pages, cursor);
    assert Before(d, Items(pages)[i], Items(pages)[j]);
  }

  /** On a fixed table a page is followed by exactly the rows it left over. */
  lemma {:induction false} PageThenRest(d: Direction, table: set<Row>, cursor: Option<Cursor>, limit: nat)
    requires limit > 0
    ensures var p := Fetch(d, table, cursor, limit); var rest := Remaining(d, table, cursor);
      if |rest| <= limit then p.nextCursor.None? && p.items == Sort(d, rest)
      else
        && p.nextCursor.Some? && |Remaining(d, table, p.nextCursor)| == |rest| - limit
        && Sort(d, rest) == p.items + Sort(d, Remaining(d, table, p.nextCursor))
  {
    var all := Sort(d, Remaining(d, table, cursor));
    PageIsAHead(d, table, cursor, limit);
    if limit < |all| {
      CursorSelectsTheRest(d, table, cursor, all, limit);
      assert all == all[..limit] + all[limit..];
    }
  }

  lemma {:induction false} ItemsOf(pages: seq<Page>)
    requires pages != []
    ensures Items(pages) == if |pages| == 1 then pages[0].items else pages[0].items + Items(pages[1..])
  {
    assert |pages| == 1 ==> Items(pages[1..]) == [];
  }

  function PagesFor(size: nat, limit: nat): nat
    requires limit > 0
  {
    if size <= limit then 1 else 1 + PagesFor(size - limit, limit)
  }

  lemma {:induction false} PageAndRest(d: Direction, table: set<Row>, cursor: Option<Cursor>, limit: nat, p: Page)
    requires limit > 0 && p == Fetch(d, table, cursor, limit) && p.nextCursor.Some?
    ensures Sort(d, Remaining(d, table, cursor)) == p.items + Sort(d, Remaining(d, table, p.nextCursor))
    ensures PagesFor(|Remaining(d, table, cursor)|, limit) == 1 + PagesFor(|Remaining(d, table, p.nextCursor)|, limit)
  {
    PageThenRest(d, table, cursor, limit);
  }

  /** A finished walk over a fixed table returns exactly the rows the first cursor selects, in order. */
  lemma {:induction false} FixedTableIsReturnedInOrder(
    d: Direction, limit: nat, table: set<Row>, tables: seq<set<Row>>, pages: seq<Page>, cursor: Option<Cursor>)
    requires limit > 0 && Walk(d, limit, tables, pages, cursor) && pages[|pages| - 1].nextCursor.None?
    requires forall i :: 0 <= i < |tables| ==> tables[i] == table
    ensures Items(pages) == Sort(d, Remaining(d, table, cursor))
    ensures |pages| == PagesFor(|Remaining(d, table, cursor)|, limit)
    decreases |pages|
  {
    assert pages[0] == Fetch(d, table, cursor, limit);
    ItemsOf(pages);
    if |pages| == 1 {
      PageThenRest(d, table, cursor, limit);
    } else {
      PageAndRest(d, table, cursor, limit, pages[0]);
      assert forall i :: 0 <= i < |tables[1..]| ==> tables[1..][i] == table;
      FixedTableIsReturnedInOrder(d, limit, table, tables[1..], pages[1..], pages[0].nextCursor);
    }
  }

  /** On a fixed table a walk is never longer than that, and has ended exactly when it is that long. */
  lemma {:induction false} FixedTableWalkEnds(
    d: Direction, limit: nat, table: set<Row>, tables: seq<set<Row>>, pages: seq<Page>, cursor: Option<Cursor>)
    requires limit > 0 && Walk(d, limit, tables, pages, cursor)
    requires forall i :: 0 <= i < |tables| ==> tables[i] == table
    ensures var total := PagesFor(|Remaining(d, table, cursor)|, limit);
      |pages| <= total && (pages[|pages| - 1].nextCursor.None? <==> |pages| == total)
    decreases |pages|
  {
    assert pages[0] == Fetch(d, table, cursor, limit);
    PageThenRest(d, table, cursor, limit);
    if |pages| > 1 {
      PageAndRest(d, table, cursor, limit, pages[0]);
      assert forall i :: 0 <= i < |tables[1..]| ==> tables[1..][i] == table;
      FixedTableWalkEnds(d, limit, table, tables[1..], pages[1..], pages[0].nextCursor);
    }
  }

  /** The number of pages is max(1, ceil(size / limit)). */
  lemma {:induction false} PagesForIsCeiling(size: nat, limit: nat)
    requires limit > 0
    ensures PagesFor(size, limit) == Max(1, (size + limit - 1) / limit)
    decreases size
  {
    if size <= limit {
      DivBelowTwice(size + limit - 1, limit);
    } else {
      PagesForIsCeiling(size - limit, limit);
      DivStep(size - 1, limit);
      DivPositive(size - limit + limit - 1, limit);
    }
  }

  lemma {:induction false} DivStep(a: nat, k: nat)
    requires k > 0
    ensures (a + k) / k == a / k + 1
  {
    var p, q := a / k, (a + k) / k;
    assert q * k + (a + k) % k == p * k + a % k + k;
    assert (q - p - 1) * k == a % k - (a + k) % k;
    if q - p - 1 >= 1 { MulAtLeast(q - p - 1, k); }
    if p + 1 - q >= 1 { MulAtLeast(p + 1 - q, k); }
  }

  lemma {:induction false} MulAtLeast(n: int, k: nat)
    requires n >= 1
    ensures n * k >= k
  {
  }

  lemma {:induction false} DivPositive(a: nat, k: nat)
    requires 0 < k <= a
    ensures a / k >= 1
  {
    DivStep(a - k, k);
  }

  lemma {:induction false} DivBelowTwice(a: nat, k: nat)
    requires 0 < k && a < 2 * k
    ensures a / k == if a < k then 0 else 1
  {
    if k <= a { DivStep(a - k, k); }
  }

  /** With a limit of 0 a page is empty and offers no cursor, whatever the table holds. */
  lemma {:induction false} ZeroLimitReturnsNothing(d: Direction, table: set<Row>)
    ensures Fetch(d, table, None, 0) == Page([], None, table != {})
  {
    assert Remaining(d, table, None) == table;
    assert |Sort(d, table)| == |table|;
  }
}
