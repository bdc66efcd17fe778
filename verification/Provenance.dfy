/** Where stored rates come from: the rate of every row was given to a task that had the row's own
    event in hand, by a lookup earlier in the run. */
module Provenance {
  import opened Errors
  import opened Converter
  import opened Events
  import opened Table
  import opened RateClients
  import opened Protocol
  import opened Safety

  /** Step j of the run is a rate lookup for a message with this event, and gave this rate. */
  predicate GaveRate(cfg: Config, run: seq<Step>, j: int, event: TransactionEvent, rate: Decimal) {
    && 0 <= j < |run| && Legal(cfg, run[..j]) && run[j].Act? && run[j].action.RateReply?
    && var task := TaskOf(After(cfg, run[..j]), run[j].task);
       && task.Handling? && task.msgs != [] && task.msgs[0].event == event
       && Gives(run[j].action.lookup, rate)
  }

  ghost predicate WasGiven(cfg: Config, run: seq<Step>, event: TransactionEvent, rate: Decimal) {
    exists j :: GaveRate(cfg, run, j, event, rate)
  }

  /** The row is an event, converted at a rate that was looked up for it. */
  ghost predicate IsLookedUp(cfg: Config, run: seq<Step>, row: Row) {
    exists event :: IsRowOf(row, event) && WasGiven(cfg, run, event, row.rate)
  }

  ghost predicate TaskLookedUp(cfg: Config, run: seq<Step>, task: Task) {
    task.Handling? && task.msgs != [] && task.stage.Insert? ==>
      && WasGiven(cfg, run, task.msgs[0].event, task.stage.rate)
      && ConvertToUsd(task.msgs[0].event.amount, task.stage.rate) == Some(task.stage.cents)
  }

  lemma GivenStays(cfg: Config, run: seq<Step>, step: Step, event: TransactionEvent, rate: Decimal)
    requires WasGiven(cfg, run, event, rate)
    ensures WasGiven(cfg, run + [step], event, rate)
  {
    var j :| GaveRate(cfg, run, j, event, rate);
    assert (run + [step])[..j] == run[..j];
    assert GaveRate(cfg, run + [step], j, event, rate);
  }

  lemma TaskStays(cfg: Config, run: seq<Step>, step: Step, task: Task)
    requires TaskLookedUp(cfg, run, task)
    ensures TaskLookedUp(cfg, run + [step], task)
  {
    if task.Handling? && task.msgs != [] && task.stage.Insert? {
      GivenStays(cfg, run, step, task.msgs[0].event, task.stage.rate);
    }
  }

  /** The rows an action adds and the insert stage it leads to: from a lookup just made, or from an
      insert stage before. */
  predicate Uses(st: Store, task: Task, a: Action, st': Store, task': Task) {
    && (forall row <- st'.table :: row in st.table ||
          (task.Handling? && task.msgs != [] && task.stage.Insert?
           && row == RowOf(task.msgs[0].event, task.stage.rate, task.stage.cents)))
    && (task'.Handling? && task'.msgs != [] && task'.stage.Insert? ==>
          && task.Handling? && task.msgs == task'.msgs
          && ((a.RateReply? && Gives(a.lookup, task'.stage.rate)
               && ConvertToUsd(task.msgs[0].event.amount, task'.stage.rate) == Some(task'.stage.cents))
              || (task.stage.Insert? && task'.stage.rate == task.stage.rate && task'.stage.cents == task.stage.cents)))
  }

  lemma FailureUses(cfg: Config, st: Store, msgs: seq<Message>, cause: Cause)
    requires msgs != [] && IsFailure(msgs[0].event.currency, cause)
    ensures var (st', task') := OnFailure(cfg, st, msgs, cause);
      st'.table == st.table && (task'.Handling? ==> !task'.stage.Insert?)
  {}

  lemma MoveUses(cfg: Config, st: Store, task: Task, a: Action)
    requires WellFormed(st, task) && CanAct(cfg, st, task, a)
    ensures var (st', task') := Move(cfg, st, task, a); Uses(st, task, a, st', task')
  {
    match a
    case RateReply(lookup) =>
      var reply := Replied(task.msgs[0].event.currency, lookup);
      FailureUses(cfg, st, task.msgs, if reply.Ok? then NotConvertible else RateFailed(lookup.reply));
      if reply.Ok? { RepliedIsGiven(task.msgs[0].event.currency, lookup, reply.value); }
    case InsertReply(answer) =>
      if answer.Broke? { FailureUses(cfg, st, task.msgs, InsertFailed(answer.error)); }
    case AckReply(_, _, text) => FailureUses(cfg, st, task.msgs, AckFailed(text));
    case _ =>
  }

  lemma ActLooksUp(cfg: Config, run: seq<Step>, t: TaskId, a: Action)
    requires Legal(cfg, run) && Enabled(cfg, After(cfg, run), Act(t, a))
    requires TaskLookedUp(cfg, run, TaskOf(After(cfg, run), t))
    ensures var s, run' := After(cfg, run), run + [Act(t, a)];
      var (st', task') := Move(cfg, s.store, TaskOf(s, t), a);
      && TaskLookedUp(cfg, run', task')
      && forall row <- st'.table :: row in s.store.table || IsLookedUp(cfg, run', row)
  {
    var s, run' := After(cfg, run), run + [Act(t, a)];
    var task := TaskOf(s, t);
    var (st', task') := Move(cfg, s.store, task, a);
    MoveUses(cfg, s.store, task, a);
    TaskStays(cfg, run, Act(t, a), task);
    if task'.Handling? && task'.msgs != [] && task'.stage.Insert? && !task.stage.Insert? {
      assert run'[..|run|] == run;
      assert GaveRate(cfg, run', |run|, task.msgs[0].event, task'.stage.rate);
    }
    forall row | row in st'.table && row !in s.store.table ensures IsLookedUp(cfg, run', row) {
      assert IsRowOf(row, task.msgs[0].event);
    }
  }

  /** In every reachable state, each row is an event, field by field, converted at a rate that an
      earlier step of the run looked up for a message with this very event: a cached rate, or the
      body of a 2xx reply. */
  lemma {:induction false} RatesWereLookedUp(cfg: Config, run: seq<Step>)
    requires Legal(cfg, run)
    ensures forall row <- After(cfg, run).store.table :: IsLookedUp(cfg, run, row)
    ensures forall t <- After(cfg, run).tasks :: TaskLookedUp(cfg, run, After(cfg, run).tasks[t])
  {
    if run != [] {
      var front, step := run[..|run| - 1], run[|run| - 1];
      assert run == front + [step];
      RatesWereLookedUp(cfg, front);
      if step.Act? { ActLooksUp(cfg, front, step.task, step.action); }
      forall row | row in After(cfg, front).store.table ensures IsLookedUp(cfg, run, row) {
        var event :| IsRowOf(row, event) && WasGiven(cfg, front, event, row.rate);
        GivenStays(cfg, front, step, event, row.rate);
      }
      forall t | t in After(cfg, front).tasks ensures TaskLookedUp(cfg, run, After(cfg, front).tasks[t]) {
        TaskStays(cfg, front, step, After(cfg, front).tasks[t]);
      }
    }
  }
}
