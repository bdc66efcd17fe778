/** The processed_transactions table: the insert that deduplicates, and the two read queries. */
module Table {
  import opened Errors
  import opened Converter

  /** `amountUsd` is in cents. */
  datatype Row = Row(
    id: string, userId: string, amount: Decimal, currency: string, rate: Decimal,
    amountUsd: int, timestamp: int)

  predicate HasId(table: seq<Row>, id: string) {
    exists i | 0 <= i < |table| :: table[i].id == id
  }

  predicate DistinctIds(table: seq<Row>) {
    forall i, j | 0 <= i < j < |table| :: table[i].id != table[j].id
  }

  /** INSERT ... ON CONFLICT (id) DO NOTHING. */
  function InsertIgnore(table: seq<Row>, row: Row): (t: seq<Row>)
    ensures DistinctIds(table) ==> DistinctIds(t)
    ensures table <= t && HasId(t, row.id)
  {
    if HasId(table, row.id) then table
    else
      assert (table + [row])[|table|].id == row.id;
      table + [row]
  }

  // ----- queries -----

  datatype Condition = UserIs(userId: string) | AtOrAfter(start: int) | EarlierThan(end: int)

  predicate Holds(c: Condition, row: Row) {
    match c
    case UserIs(u) => row.userId == u
    case AtOrAfter(start) => row.timestamp >= start
    case EarlierThan(end) => row.timestamp < end
  }

  predicate Matches(conditions: seq<Condition>, row: Row) {
    forall c <- conditions :: Holds(c, row)
  }

  function Where(table: seq<Row>, conditions: seq<Condition>): seq<Row> {
    if table == [] then []
    else
      var rest := Where(table[..|table| - 1], conditions);
      var row := table[|table| - 1];
      if Matches(conditions, row) then rest + [row] else rest
  }

  function SumUsd(rows: seq<Row>): int {
    if rows == [] then 0 else SumUsd(rows[..|rows| - 1]) + rows[|rows| - 1].amountUsd
  }

  /** The collation of ids: any strict total order. */
  type Collation = (string, string) -> bool

  ghost predicate IsStrictTotal(lt: Collation) {
    && (forall a :: !lt(a, a))
    && (forall a, b, c :: lt(a, b) && lt(b, c) ==> lt(a, c))
    && (forall a, b :: a == b || lt(a, b) || lt(b, a))
  }

  /** ORDER BY timestamp DESC, id DESC puts a before b. */
  predicate Newer(lt: Collation, a: Row, b: Row) {
    a.timestamp > b.timestamp || (a.timestamp == b.timestamp && lt(b.id, a.id))
  }

  function Place(lt: Collation, sorted: seq<Row>, row: Row): seq<Row> {
    if sorted == [] || Newer(lt, row, sorted[0]) then [row] + sorted
    else [sorted[0]] + Place(lt, sorted[1..], row)
  }

  function OrderBy(lt: Collation, rows: seq<Row>): seq<Row> {
    if rows == [] then [] else Place(lt, OrderBy(lt, rows[1..]), rows[0])
  }

  /** All rows a listing covers, in its order. */
  function Listing(lt: Collation, table: seq<Row>, conditions: seq<Condition>): seq<Row> {
    OrderBy(lt, Where(table, conditions))
  }

  function Page(rows: seq<Row>, limit: nat, offset: nat): seq<Row> {
    if offset >= |rows| then []
    else if offset + limit >= |rows| then rows[offset..]
    else rows[offset..offset + limit]
  }

  /** The conditions `list_user_transactions` collects. */
  function RangeConditions(userId: string, start: Option<int>, end: Option<int>): seq<Condition> {
    [UserIs(userId)]
    + (if start.Some? then [AtOrAfter(start.value)] else [])
    + (if end.Some? then [EarlierThan(end.value)] else [])
  }

  // ----- what a listing is -----

  predicate Descending(lt: Collation, rows: seq<Row>) {
    forall i, j | 0 <= i < j < |rows| :: Newer(lt, rows[i], rows[j])
  }

  lemma {:induction false} WhereKeeps(table: seq<Row>, conditions: seq<Condition>)
    ensures forall row :: row in Where(table, conditions) <==> row in table && Matches(conditions, row)
    ensures DistinctIds(table) ==> DistinctIds(Where(table, conditions))
  {
    if table != [] {
      var n := |table| - 1;
      WhereKeeps(table[..n], conditions);
      assert table == table[..n] + [table[n]];
      var rest := Where(table[..n], conditions);
      if DistinctIds(table) {
        forall i | 0 <= i < |rest| ensures rest[i].id != table[n].id {
          assert rest[i] in table[..n];
        }
      }
    }
  }

  lemma {:induction false} PlaceKeeps(lt: Collation, sorted: seq<Row>, row: Row)
    ensures forall r :: r in Place(lt, sorted, row) <==> r == row || r in sorted
    ensures |Place(lt, sorted, row)| == |sorted| + 1
    ensures IsStrictTotal(lt) && Descending(lt, sorted) && (forall r <- sorted :: r.id != row.id)
      ==> Descending(lt, Place(lt, sorted, row))
  {
    if sorted != [] && !Newer(lt, row, sorted[0]) {
      PlaceKeeps(lt, sorted[1..], row);
      assert sorted == [sorted[0]] + sorted[1..];
      if IsStrictTotal(lt) && Descending(lt, sorted) && forall r <- sorted :: r.id != row.id {
        var tail := Place(lt, sorted[1..], row);
        forall j | 0 <= j < |tail| ensures Newer(lt, sorted[0], tail[j]) {
          assert tail[j] in tail;
          assert sorted[0].id != row.id;
        }
      }
    }
  }

  lemma {:induction false} OrderByKeeps(lt: Collation, rows: seq<Row>)
    ensures forall r :: r in OrderBy(lt, rows) <==> r in rows
    ensures |OrderBy(lt, rows)| == |rows|
    ensures IsStrictTotal(lt) && DistinctIds(rows) ==> Descending(lt, OrderBy(lt, rows))
  {
    if rows != [] {
      OrderByKeeps(lt, rows[1..]);
      PlaceKeeps(lt, OrderBy(lt, rows[1..]), rows[0]);
      assert rows == [rows[0]] + rows[1..];
    }
  }

  /** A listing holds exactly the matching rows, once each and newest first; of rows with one
      timestamp, the one with the larger id comes first. */
  lemma ListingIsExact(lt: Collation, table: seq<Row>, conditions: seq<Condition>)
    requires IsStrictTotal(lt) && DistinctIds(table)
    ensures Descending(lt, Listing(lt, table, conditions))
    ensures var rows := Listing(lt, table, conditions);
      forall i, j | 0 <= i < j < |rows| ::
        && rows[i].timestamp >= rows[j].timestamp
        && (rows[i].timestamp == rows[j].timestamp ==> lt(rows[j].id, rows[i].id))
    ensures forall row :: row in Listing(lt, table, conditions) <==>
      row in table && Matches(conditions, row)
  {
    WhereKeeps(table, conditions);
    OrderByKeeps(lt, Where(table, conditions));
  }

  /** There is only one way to list a set of rows strictly newest first. */
  lemma {:induction false} DescendingIsUnique(lt: Collation, a: seq<Row>, b: seq<Row>)
    requires IsStrictTotal(lt) && Descending(lt, a) && Descending(lt, b)
    requires forall row :: row in a <==> row in b
    ensures a == b
  {
    assert a == [] || a[0] in b;
    assert b == [] || b[0] in a;
    if a != [] && b != [] {
      assert a[0] == b[0];
      forall row ensures row in a[1..] <==> row in b[1..] {
        SameTail(lt, a, b, row);
        SameTail(lt, b, a, row);
      }
      DescendingIsUnique(lt, a[1..], b[1..]);
      assert a == [a[0]] + a[1..] && b == [b[0]] + b[1..];
    }
  }

  lemma SameTail(lt: Collation, a: seq<Row>, b: seq<Row>, row: Row)
    requires IsStrictTotal(lt) && Descending(lt, a) && a != [] && b != [] && a[0] == b[0]
    requires forall r :: r in a <==> r in b
    ensures row in a[1..] ==> row in b[1..]
  {
    if row in a[1..] {
      var i :| 0 <= i < |a| - 1 && a[1..][i] == row;
      assert Newer(lt, a[0], a[i + 1]);
      assert row in b && row != b[0];
    }
  }

  // ----- paging -----

  /** The first n pages of a listing, one after the other. */
  function Pages(rows: seq<Row>, limit: nat, n: nat): seq<Row> {
    if n == 0 then [] else Pages(rows, limit, n - 1) + Page(rows, limit, (n - 1) * limit)
  }

  lemma {:induction false} PagesArePrefix(rows: seq<Row>, limit: nat, n: nat)
    requires limit >= 1
    ensures Pages(rows, limit, n) == Upto(rows, n * limit)
  {
    if n > 0 {
      PagesArePrefix(rows, limit, n - 1);
      NextPage(rows, limit, (n - 1) * limit);
      assert n * limit == (n - 1) * limit + limit;
    }
  }

  function Upto(rows: seq<Row>, n: nat): seq<Row> {
    if n >= |rows| then rows else rows[..n]
  }

  lemma NextPage(rows: seq<Row>, limit: nat, offset: nat)
    ensures Upto(rows, offset) + Page(rows, limit, offset) == Upto(rows, offset + limit)
  {}

  /** Reading page after page of a table that does not change gives every matching row exactly
      once, newest first, and stops after `total` rows. */
  lemma PagingCoversOnce(lt: Collation, table: seq<Row>, conditions: seq<Condition>, limit: nat, n: nat)
    requires IsStrictTotal(lt) && DistinctIds(table) && limit >= 1
    requires n * limit >= |Where(table, conditions)|
    ensures var read := Pages(Listing(lt, table, conditions), limit, n);
      && Descending(lt, read)
      && (forall row :: row in read <==> row in table && Matches(conditions, row))
      && |read| == |Where(table, conditions)|
  {
    ListingIsExact(lt, table, conditions);
    OrderByKeeps(lt, Where(table, conditions));
    PagesArePrefix(Listing(lt, table, conditions), limit, n);
  }

  // ----- adjacent ranges -----

  lemma RangeIs(userId: string, start: Option<int>, end: Option<int>)
    ensures forall row :: Matches(RangeConditions(userId, start, end), row) <==>
      && row.userId == userId
      && (start.Some? ==> start.value <= row.timestamp)
      && (end.Some? ==> row.timestamp < end.value)
  {
    var cs := RangeConditions(userId, start, end);
    assert UserIs(userId) in cs;
    assert start.Some? ==> AtOrAfter(start.value) in cs;
    assert end.Some? ==> EarlierThan(end.value) in cs;
    assert forall c <- cs ::
      c == UserIs(userId) || (start.Some? && c == AtOrAfter(start.value)) || (end.Some? && c == EarlierThan(end.value));
    forall row: Row | row.userId == userId && (start.Some? ==> start.value <= row.timestamp)
                      && (end.Some? ==> row.timestamp < end.value)
      ensures Matches(cs, row)
    {}
    forall row | Matches(cs, row)
      ensures row.userId == userId && (start.Some? ==> start.value <= row.timestamp)
              && (end.Some? ==> row.timestamp < end.value)
    {
      assert Holds(UserIs(userId), row);
      assert start.Some? ==> Holds(AtOrAfter(start.value), row);
      assert end.Some? ==> Holds(EarlierThan(end.value), row);
    }
  }

  /** Listing [mid, end) and then [start, mid) is listing [start, end), for any bounds that are
      in order, open ends included; so the totals add up. */
  lemma RangesTile(lt: Collation, table: seq<Row>, userId: string, start: Option<int>, mid: int, end: Option<int>)
    requires IsStrictTotal(lt) && DistinctIds(table)
    requires (start.Some? ==> start.value <= mid) && (end.Some? ==> mid <= end.value)
    ensures Listing(lt, table, RangeConditions(userId, Some(mid), end))
          + Listing(lt, table, RangeConditions(userId, start, Some(mid)))
         == Listing(lt, table, RangeConditions(userId, start, end))
    ensures |Where(table, RangeConditions(userId, Some(mid), end))|
          + |Where(table, RangeConditions(userId, start, Some(mid)))|
         == |Where(table, RangeConditions(userId, start, end))|
  {
    var late, early, all := RangeConditions(userId, Some(mid), end),
      RangeConditions(userId, start, Some(mid)), RangeConditions(userId, start, end);
    ListingIsExact(lt, table, late);
    ListingIsExact(lt, table, early);
    ListingIsExact(lt, table, all);
    RangeIs(userId, Some(mid), end);
    RangeIs(userId, start, Some(mid));
    RangeIs(userId, start, end);
    var a, b := Listing(lt, table, late), Listing(lt, table, early);
    assert Descending(lt, a + b) by {
      forall i, j | 0 <= i < |a| && 0 <= j < |b| ensures Newer(lt, a[i], b[j]) {
        assert a[i] in a && b[j] in b;
      }
    }
    DescendingIsUnique(lt, a + b, Listing(lt, table, all));
    OrderByKeeps(lt, Where(table, late));
    OrderByKeeps(lt, Where(table, early));
    OrderByKeeps(lt, Where(table, all));
  }
}
