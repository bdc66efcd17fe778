/** Once the queue is drained, the per-user summary covers exactly the ids published for the user,
    each once, with its published amount converted at the rate its row records: the interleaving,
    the redeliveries and the duplicates leave no trace in it. */
module Quiescence {
  import opened Errors
  import opened Converter
  import opened Events
  import opened Table
  import opened Protocol
  import opened Safety

  /** `user_summary`: the total in cents and the row count. */
  function Summary(table: seq<Row>, userId: string): (int, nat) {
    var rows := Where(table, [UserIs(userId)]);
    (SumUsd(rows), |rows|)
  }

  /** Nothing is undelivered or pending, nothing was trimmed, nothing was dead-lettered. */
  predicate Drained(st: Store) {
    st.cursor == |st.stream| && st.pel == map[] && st.first == 0 && st.dlq == []
  }

  /** Entries published under one id belong to one user. */
  predicate IdsAgree(cfg: Config, stream: seq<Fields>) {
    forall d, e | 0 <= d < |stream| && 0 <= e < |stream| ::
      var x, y := ToEvent(cfg.codec, stream[d]), ToEvent(cfg.codec, stream[e]);
      x.Valid? && y.Valid? && x.value.id == y.value.id ==> x.value.userId == y.value.userId
  }

  /** The distinct ids published for a user. */
  function PublishedIds(cfg: Config, stream: seq<Fields>, userId: string): set<string> {
    set e | 0 <= e < |stream| && ToEvent(cfg.codec, stream[e]).Valid?
            && ToEvent(cfg.codec, stream[e]).value.userId == userId
         :: ToEvent(cfg.codec, stream[e]).value.id
  }

  /** The amount stored under an id. */
  function UsdOf(table: seq<Row>, id: string): int {
    if table == [] then 0
    else if table[|table| - 1].id == id then table[|table| - 1].amountUsd
    else UsdOf(table[..|table| - 1], id)
  }

  /** The sum of f over a set of ids. */
  ghost function SumOver(ids: set<string>, f: string -> int): int {
    if ids == {} then 0
    else
      var id :| id in ids;
      f(id) + SumOver(ids - {id}, f)
  }

  lemma {:induction false} SumOverWithout(ids: set<string>, f: string -> int, id: string)
    requires id in ids
    ensures SumOver(ids, f) == f(id) + SumOver(ids - {id}, f)
  {
    var first :| first in ids && SumOver(ids, f) == f(first) + SumOver(ids - {first}, f);
    if first != id {
      SumOverWithout(ids - {first}, f, id);
      SumOverWithout(ids - {id}, f, first);
      assert ids - {first} - {id} == ids - {id} - {first};
    }
  }

  lemma {:induction false} SumOverSame(ids: set<string>, f: string -> int, g: string -> int)
    requires forall id <- ids :: f(id) == g(id)
    ensures SumOver(ids, f) == SumOver(ids, g)
  {
    if ids != {} {
      var id :| id in ids;
      SumOverWithout(ids, f, id);
      SumOverWithout(ids, g, id);
      SumOverSame(ids - {id}, f, g);
    }
  }

  function IdsOf(rows: seq<Row>): set<string> {
    set row | row in rows :: row.id
  }

  /** Over rows with distinct ids, summing rows is summing ids. */
  lemma {:induction false} SumOfRows(rows: seq<Row>)
    requires DistinctIds(rows)
    ensures |IdsOf(rows)| == |rows|
    ensures SumUsd(rows) == SumOver(IdsOf(rows), id => UsdOf(rows, id))
  {
    if rows == [] {
      assert IdsOf(rows) == {};
    } else {
      var n := |rows| - 1;
      LastId(rows);
      SumOfRows(rows[..n]);
      var f, g := id => UsdOf(rows, id), id => UsdOf(rows[..n], id);
      SumOverWithout(IdsOf(rows), f, rows[n].id);
      SumOverSame(IdsOf(rows[..n]), f, g);
    }
  }

  lemma LastId(rows: seq<Row>)
    requires rows != [] && DistinctIds(rows)
    ensures var front, id := rows[..|rows| - 1], rows[|rows| - 1].id;
      && DistinctIds(front) && id !in IdsOf(front) && IdsOf(rows) == IdsOf(front) + {id}
      && IdsOf(rows) - {id} == IdsOf(front) && |IdsOf(rows)| == |IdsOf(front)| + 1
  {
    var front, last := rows[..|rows| - 1], rows[|rows| - 1];
    assert rows == front + [last];
    assert IdsOf(rows) == IdsOf(front) + {last.id};
  }

  lemma {:induction false} UsdOfMember(table: seq<Row>, row: Row)
    requires DistinctIds(table) && row in table
    ensures UsdOf(table, row.id) == row.amountUsd
  {
    var n := |table| - 1;
    if table[n] != row {
      assert table == table[..n] + [table[n]];
      UsdOfMember(table[..n], row);
    }
  }

  /** With one user to an id, a user's rows are the rows of the ids published for the user. */
  lemma UserRows(cfg: Config, s: Sys, userId: string)
    requires Inv(cfg, s) && Drained(s.store) && IdsAgree(cfg, s.store.stream)
    ensures IdsOf(Where(s.store.table, [UserIs(userId)])) == PublishedIds(cfg, s.store.stream, userId)
  {
    var st, rows := s.store, Where(s.store.table, [UserIs(userId)]);
    UserRowsAre(st.table, userId);
    forall id | id in PublishedIds(cfg, st.stream, userId) ensures id in IdsOf(rows) {
      var e :| 0 <= e < |st.stream| && ToEvent(cfg.codec, st.stream[e]).Valid?
        && ToEvent(cfg.codec, st.stream[e]).value.userId == userId
        && ToEvent(cfg.codec, st.stream[e]).value.id == id;
      assert Resolved(cfg, st, e);
      var i :| 0 <= i < |st.table| && st.table[i].id == id;
      SourceUser(cfg, st, st.table[i], e);
      assert st.table[i] in rows;
    }
    forall id | id in IdsOf(rows) ensures id in PublishedIds(cfg, st.stream, userId) {
      var row :| row in rows && row.id == id;
      assert row in st.table && HasSource(cfg, st, row);
    }
  }

  lemma UserRowsAre(table: seq<Row>, userId: string)
    ensures forall row :: row in Where(table, [UserIs(userId)]) <==> row in table && row.userId == userId
  {
    WhereKeeps(table, [UserIs(userId)]);
    forall row: Row ensures Matches([UserIs(userId)], row) <==> row.userId == userId {
      assert UserIs(userId) in [UserIs(userId)];
      assert Matches([UserIs(userId)], row) ==> Holds(UserIs(userId), row);
    }
  }

  /** A row belongs to the user its id was published for. */
  lemma SourceUser(cfg: Config, st: Store, row: Row, e: EntryId)
    requires HasSource(cfg, st, row) && IdsAgree(cfg, st.stream) && e < |st.stream|
    requires ToEvent(cfg.codec, st.stream[e]).Valid? && ToEvent(cfg.codec, st.stream[e]).value.id == row.id
    ensures row.userId == ToEvent(cfg.codec, st.stream[e]).value.userId
  {
    var d :| 0 <= d < |st.stream| && ToEvent(cfg.codec, st.stream[d]).Valid?
      && IsRowOf(row, ToEvent(cfg.codec, st.stream[d]).value);
  }

  /** The amount stored under the id is the amount of an event published under it for the user,
      converted at the rate stored with it. */
  predicate IsConverted(cfg: Config, st: Store, userId: string, id: string) {
    exists e, i | 0 <= e < |st.stream| && 0 <= i < |st.table| ::
      && st.table[i].id == id && ToEvent(cfg.codec, st.stream[e]).Valid?
      && var event := ToEvent(cfg.codec, st.stream[e]).value;
         && event.id == id && event.userId == userId
         && ConvertToUsd(event.amount, st.table[i].rate) == Some(UsdOf(st.table, id))
  }

  lemma StoredIsConverted(cfg: Config, s: Sys, userId: string, row: Row)
    requires Inv(cfg, s) && row in s.store.table && row.userId == userId
    ensures IsConverted(cfg, s.store, userId, row.id)
  {
    var st := s.store;
    var i :| 0 <= i < |st.table| && st.table[i] == row;
    assert HasSource(cfg, st, row);
    var e :| 0 <= e < |st.stream| && ToEvent(cfg.codec, st.stream[e]).Valid?
      && IsRowOf(row, ToEvent(cfg.codec, st.stream[e]).value);
    UsdOfMember(st.table, row);
    assert st.table[i].id == row.id;
  }

  /** After any run that has drained, the summary counts the distinct ids published for the user
      and adds up the amounts stored under exactly those ids, each of them a published amount
      converted at the rate its row records. */
  lemma SummaryOfPublished(cfg: Config, run: seq<Step>, userId: string)
    requires Configured(cfg) && Legal(cfg, run)
    requires Drained(After(cfg, run).store) && IdsAgree(cfg, After(cfg, run).store.stream)
    ensures var st := After(cfg, run).store;
      var ids := PublishedIds(cfg, st.stream, userId);
      && Summary(st.table, userId) == (SumOver(ids, id => UsdOf(st.table, id)), |ids|)
      && forall id <- ids :: IsConverted(cfg, st, userId, id)
  {
    var s := After(cfg, run);
    var table := s.store.table;
    var rows := Where(table, [UserIs(userId)]);
    Reachable(cfg, run);
    UserRows(cfg, s, userId);
    UserRowsAre(table, userId);
    WhereKeeps(table, [UserIs(userId)]);
    SumOfRows(rows);
    var f, g := id => UsdOf(rows, id), id => UsdOf(table, id);
    forall id | id in IdsOf(rows) ensures f(id) == g(id) {
      var row :| row in rows && row.id == id;
      UsdOfMember(rows, row);
      UsdOfMember(table, row);
    }
    SumOverSame(IdsOf(rows), f, g);
    forall id | id in IdsOf(rows) ensures IsConverted(cfg, s.store, userId, id) {
      var row :| row in rows && row.id == id;
      StoredIsConverted(cfg, s, userId, row);
    }
  }
}
