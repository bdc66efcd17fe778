/** The retry budget: how often one entry can be handled and left pending, in every interleaving,
    including reclaims that overlap with a worker still busy with the entry. */
module Budget {
  import opened RateClients
  import opened Events
  import opened Table
  import opened Protocol
  import opened Safety

  /** No delivery is held twice or handled twice. */
  predicate Unshared(s: Sys) {
    && (forall t, u, d | t in s.tasks && u in s.tasks && t != u && d in Held(s.tasks[t]) ::
          d !in Held(s.tasks[u]))
    && (forall t, c | t in s.tasks && c in s.store.log :: c.delivery !in Held(s.tasks[t]))
    && (forall i, j | 0 <= i < j < |s.store.log| :: s.store.log[i].delivery != s.store.log[j].delivery)
  }

  /** The log is unchanged, or one delivery it held was completed and let go. */
  predicate Completes(log: seq<Completion>, log': seq<Completion>, task: Task, task': Task) {
    log' == log ||
    (|log'| == |log| + 1 && log < log'
     && log'[|log|].delivery in Held(task)
     && forall d <- Held(task') :: d.id != log'[|log|].delivery.id)
  }

  /** What a task holds after an action it held before, unless the action made the delivery. */
  predicate HoldsOnly(st: Store, task: Task, task': Task) {
    forall d <- Held(task') :: d in Held(task) || !Made(st, d)
  }

  lemma HeadDone(msgs: seq<Message>)
    requires msgs != [] && OnePerEntry(Deliveries(msgs))
    ensures msgs[0].delivery in Deliveries(msgs)
    ensures forall d <- Held(AfterHandle(msgs)) :: d in Deliveries(msgs) && d.id != msgs[0].delivery.id
  {
    var ds := Deliveries(msgs);
    assert ds[0] == msgs[0].delivery;
    if |msgs| > 1 {
      assert Held(AfterHandle(msgs)) == ds[1..];
    }
  }

  /** From a log with the given messages in hand: nothing completes, or the first one does. */
  ghost predicate HeadOrNothing(log: seq<Completion>, msgs: seq<Message>, st': Store, task': Task)
    requires msgs != []
  {
    || (st'.log == log && (task'.Idle? || (task'.Handling? && task'.msgs == msgs)))
    || (task' == AfterHandle(msgs)
        && exists fate, cause ::
             var m := msgs[0];
             st'.log == log + [Completion(m.delivery, m.count, fate, cause, m.delivery.id in st'.pel)])
  }

  lemma FailureHolds(cfg: Config, st: Store, msgs: seq<Message>, cause: Cause)
    requires msgs != [] && IsFailure(msgs[0].event.currency, cause)
    ensures var (st', task') := OnFailure(cfg, st, msgs, cause); HeadOrNothing(st.log, msgs, st', task')
  {}

  /** A step of `handle` keeps its messages, or completes the first one and lets it go. */
  lemma HandlingHolds(cfg: Config, st: Store, task: Task, a: Action)
    requires task.Handling? && TaskInv(cfg, st, task) && CanAct(cfg, st, task, a)
    ensures var (st', task') := Move(cfg, st, task, a);
      && HeadOrNothing(st.log, task.msgs, st', task')
      && (!a.Crash? && st'.log == st.log ==> task'.Handling? && task'.msgs == task.msgs)
  {
    var msgs := task.msgs;
    match a
    case RateReply(answer) =>
      var reply := Replied(msgs[0].event.currency, answer);
      FailureHolds(cfg, st, msgs, if reply.Ok? then NotConvertible else RateFailed(answer.reply));
    case InsertReply(answer) =>
      if answer.Broke? {
        var row := RowOf(msgs[0].event, task.stage.rate, task.stage.cents);
        var after := if answer.applied then st.(table := InsertIgnore(st.table, row)) else st;
        FailureHolds(cfg, after, msgs, InsertFailed(answer.error));
      }
    case AckReply(ok, applied, text) =>
      FailureHolds(cfg, if applied then Acknowledged(st, msgs[0].delivery.id) else st, msgs, AckFailed(text));
    case _ =>
  }

  lemma ParsingHolds(cfg: Config, st: Store, task: Task, a: Action)
    requires task.Parsing? && TaskInv(cfg, st, task) && CanAct(cfg, st, task, a)
    ensures var (st', task') := Move(cfg, st, task, a);
      st'.log == st.log && forall d <- Held(task') :: d in Held(task)
  {
    if a.LetterAcked? {
      HeldAfterParse(task, task.msgs);
    } else if a.Parse? {
      var d := task.batch[task.at];
      var parsed := ToEvent(cfg.codec, st.stream[d.id]);
      if parsed.Valid? {
        HeldAfterParse(task, task.msgs + [Message(d, parsed.value, task.counts[d.id], st.stream[d.id])]);
      }
    }
  }

  /** The delivery was not there before: its entry was unread, or is claimed just now. */
  predicate Taken(st: Store, a: Action, d: Delivery) {
    || (a.Read? && d.id >= st.cursor)
    || (a.Claim? && d.id in a.ids && d.id in st.pel && d.nth == st.pel[d.id] + 1)
  }

  lemma FetchHolds(cfg: Config, st: Store, task: Task, a: Action)
    requires StoreInv(cfg, st) && TaskInv(cfg, st, task) && CanAct(cfg, st, task, a)
    requires task.Idle? || task.Looking?
    ensures var (st', task') := Move(cfg, st, task, a);
      st'.log == st.log && forall d <- Held(task') :: d in Held(task) || Taken(st, a, d)
  {
    var (st', task') := Move(cfg, st, task, a);
    if a.Read? && a.n > 0 {
      assert Held(task') == task'.batch;
    }
  }

  /** The log is unchanged, or ends with a completion that tells whether its entry is pending. */
  predicate Tells(log: seq<Completion>, st': Store) {
    st'.log != log && st'.log != [] ==>
      var c := st'.log[|st'.log| - 1];
      c.pending == (c.delivery.id in st'.pel)
  }

  lemma MoveHolds(cfg: Config, st: Store, task: Task, a: Action)
    requires StoreInv(cfg, st) && TaskInv(cfg, st, task) && CanAct(cfg, st, task, a)
    ensures var (st', task') := Move(cfg, st, task, a);
      && (forall d <- Held(task') :: d in Held(task) || Taken(st, a, d))
      && Completes(st.log, st'.log, task, task') && Tells(st.log, st')
  {
    match task
    case Handling(msgs, _) =>
      HandlingHolds(cfg, st, task, a);
      HeadDone(msgs);
    case Parsing(_, _, _, _, _) => ParsingHolds(cfg, st, task, a);
    case _ => FetchHolds(cfg, st, task, a);
  }

  lemma ActUnshared(cfg: Config, s: Sys, t: TaskId, st': Store, task': Task)
    requires Inv(cfg, s) && Unshared(s)
    requires HoldsOnly(s.store, TaskOf(s, t), task') && Completes(s.store.log, st'.log, TaskOf(s, t), task')
    ensures Unshared(Sys(st', s.tasks[t := task']))
  {
    var s' := Sys(st', s.tasks[t := task']);
    var task := TaskOf(s, t);
    forall d | d in Held(task') && d !in Held(task)
      ensures forall u | u in s.tasks :: d !in Held(s.tasks[u])
      ensures forall c <- s.store.log :: c.delivery != d
    {
      assert !Made(s.store, d);
    }
    forall i, j | 0 <= i < j < |st'.log| ensures st'.log[i].delivery != st'.log[j].delivery {
      if j == |s.store.log| {
        assert st'.log[i] in s.store.log;
        assert t in s.tasks;
      }
    }
    forall u, c | u in s'.tasks && c in st'.log ensures c.delivery !in Held(s'.tasks[u]) {
      if c !in s.store.log {
        assert c == st'.log[|s.store.log|];
        assert t in s.tasks;
      }
    }
  }

  lemma StepUnshared(cfg: Config, s: Sys, step: Step)
    requires Inv(cfg, s) && Unshared(s) && Enabled(cfg, s, step)
    ensures Unshared(Next(cfg, s, step))
  {
    if step.Act? {
      var task := TaskOf(s, step.task);
      MoveHolds(cfg, s.store, task, step.action);
      var (st', task') := Move(cfg, s.store, task, step.action);
      assert HoldsOnly(s.store, task, task');
      ActUnshared(cfg, s, step.task, st', task');
    }
  }

  lemma {:induction false} ReachableUnshared(cfg: Config, run: seq<Step>)
    requires Configured(cfg) && Legal(cfg, run)
    ensures Unshared(After(cfg, run))
  {
    if run != [] {
      ReachableUnshared(cfg, run[..|run| - 1]);
      Reachable(cfg, run[..|run| - 1]);
      StepUnshared(cfg, After(cfg, run[..|run| - 1]), run[|run| - 1]);
    }
  }

  // ----- counting -----

  /** How many completed calls of `handle` for entry e ended with e still pending. */
  function TimesLeft(log: seq<Completion>, e: EntryId): nat {
    if log == [] then 0
    else TimesLeft(log[..|log| - 1], e)
         + if log[|log| - 1].delivery.id == e && log[|log| - 1].pending then 1 else 0
  }

  /** The ordinals of the deliveries that were left. */
  function OrdinalsLeft(log: seq<Completion>, e: EntryId): set<nat> {
    set c | c in log && c.delivery.id == e && c.pending :: c.delivery.nth
  }

  lemma {:induction false} CountsOrdinals(log: seq<Completion>, e: EntryId)
    requires forall i, j | 0 <= i < j < |log| :: log[i].delivery != log[j].delivery
    ensures TimesLeft(log, e) == |OrdinalsLeft(log, e)|
  {
    if log != [] {
      var front, last := log[..|log| - 1], log[|log| - 1];
      CountsOrdinals(front, e);
      assert log == front + [last];
      if last.delivery.id == e && last.pending {
        assert last.delivery.nth !in OrdinalsLeft(front, e) by {
          forall c | c in front && c.delivery.id == e ensures c.delivery.nth != last.delivery.nth {
            assert c.delivery != last.delivery;
          }
        }
        assert OrdinalsLeft(log, e) == OrdinalsLeft(front, e) + {last.delivery.nth};
      } else {
        assert OrdinalsLeft(log, e) == OrdinalsLeft(front, e);
      }
    }
  }

  lemma {:induction false} AtMost(s: set<nat>, n: nat)
    requires forall x <- s :: 1 <= x <= n
    ensures |s| <= n
  {
    if n == 0 {
      assert s == {};
    } else {
      AtMost(s - {n}, n - 1);
      assert s <= (s - {n}) + {n};
    }
  }

  /** The retry budget holds in every interleaving: no entry is handled to the end and left
      pending `max_deliveries` times. */
  lemma RetryBudget(cfg: Config, run: seq<Step>, e: EntryId)
    requires Configured(cfg) && Legal(cfg, run)
    ensures TimesLeft(After(cfg, run).store.log, e) <= cfg.maxDeliveries - 1
  {
    var log := After(cfg, run).store.log;
    Reachable(cfg, run);
    ReachableUnshared(cfg, run);
    CountsOrdinals(log, e);
    forall x | x in OrdinalsLeft(log, e) ensures 1 <= x <= cfg.maxDeliveries - 1 {
      var c :| c in log && c.delivery.id == e && c.pending && c.delivery.nth == x;
      assert Made(After(cfg, run).store, c.delivery);
    }
    AtMost(OrdinalsLeft(log, e), cfg.maxDeliveries - 1);
  }
}
