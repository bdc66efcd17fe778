/** Data access for transactions: one idempotent insert and two read-only queries. */
module Repository {
  import opened Errors
  import opened Table
  import opened Protocol
  import opened Quiescence
  import opened Runtime

  class TransactionRepository {
    const world: World
    /** How the database orders ids. */
    const lt: Collation

    constructor (world: World, lt: Collation)
      ensures this.world == world && this.lt == lt
    {
      this.world, this.lt := world, lt;
    }

    /** `insert_ignore_duplicate`: true if the row was inserted, false if the id was there in the
        table `before` the statement. */
    method InsertIgnoreDuplicate(txn: Row)
      returns (alive: bool, inserted: Outcome<bool>, ghost answer: DbReply, ghost before: seq<Row>)
      requires world.Valid() && world.Mine().Handling? && world.Mine().stage.Insert? && world.Mine().msgs != []
      requires txn == RowOf(world.Mine().msgs[0].event, world.Mine().stage.rate, world.Mine().stage.cents)
      modifies world
      ensures world.Valid() && old(world.run) <= world.run && old(world.turn) <= world.turn
      ensures alive ==> world.own == old(world.own) + [InsertReply(answer)]
      ensures alive ==> old(world.sys).store.table <= before
      ensures alive && inserted.Ok? ==> answer.Committed? && (inserted.value <==> !HasId(before, txn.id))
      ensures alive && inserted.Ok? ==>
        world.sys.store.table == if inserted.value then before + [txn] else before
      ensures alive && inserted.Err? ==> answer.Broke? && inserted.failure == Reraised(answer.error)
      ensures alive ==> InsertLeadsTo(world.cfg, old(world.Mine()), answer,
                                      if inserted == Ok(true) then Processed else Duplicate, world.Mine())
      ensures !alive ==> world.Mine() == Idle
    {
      var reply, found;
      alive, reply, found, before := world.ExecuteInsert(txn);
      answer := reply;
      match reply
      case Committed => inserted := Ok(found == Processed);
      case Broke(error, _) => inserted := Err(Reraised(error));
    }

    /** `user_summary`: an unknown user is (0, 0). */
    method UserSummary(userId: string) returns (alive: bool, summary: Outcome<(int, nat)>)
      requires world.Valid()
      modifies world
      ensures world.Valid() && old(world.run) <= world.run
      ensures alive ==>
        match world.turns(old(world.turn)).answer
        case Committed => summary == Ok(Summary(world.sys.store.table, userId))
        case Broke(error, _) => summary == Err(Reraised(error))
    {
      var t;
      t, alive := world.Await();
      match t.answer
      case Broke(error, _) => summary := Err(Reraised(error));
      case Committed =>
        summary := Ok(Summary(world.sys.store.table, userId));
    }

    /** `list_user_transactions`: one page, newest first, and the total.  They are two statements,
        so rows may be inserted in between: the total is that of the later table. */
    method ListUserTransactions(userId: string, start: Option<int>, end: Option<int>, limit: nat, offset: nat)
      returns (alive: bool, page: Outcome<(seq<Row>, nat)>, ghost table: seq<Row>)
      requires world.Valid()
      modifies world
      ensures world.Valid() && old(world.run) <= world.run
      ensures alive ==> old(world.sys).store.table <= table <= world.sys.store.table
      ensures alive && page.Ok? ==>
        var conditions := RangeConditions(userId, start, end);
        && page.value.0 == Page(Listing(lt, table, conditions), limit, offset)
        && page.value.1 == |Where(world.sys.store.table, conditions)|
      ensures alive ==>
        var first, second := world.turns(old(world.turn)).answer, world.turns(old(world.turn) + 1).answer;
        if first.Broke? then page == Err(Reraised(first.error))
        else if second.Broke? then page == Err(Reraised(second.error))
        else page.Ok?
    {
      var conditions := [UserIs(userId)];
      if start.Some? {
        conditions := conditions + [AtOrAfter(start.value)];
      }
      if end.Some? {
        conditions := conditions + [EarlierThan(end.value)];
      }
      assert conditions == RangeConditions(userId, start, end);
      var t;
      t, alive := world.Await();
      table := world.sys.store.table;
      page := if t.answer.Broke? then Err(Reraised(t.answer.error)) else Ok(([], 0));
      if !alive || page.Err? { return; }
      var rows := Page(Listing(lt, world.sys.store.table, conditions), limit, offset);
      t, alive := world.Await();
      if t.answer.Broke? {
        page := Err(Reraised(t.answer.error));
        return;
      }
      page := Ok((rows, |Where(world.sys.store.table, conditions)|));
    }
  }
}
