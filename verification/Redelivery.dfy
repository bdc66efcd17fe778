/** The delivery count is honest: times_delivered is the number of times an entry was handed out in
    the run, no count a message is judged by exceeds it, and so an outage costs a message its
    place on the stream only after `max_deliveries` real deliveries. */
module Redelivery {
  import opened Events
  import opened Protocol
  import opened Safety
  import opened Budget
  import opened Routing

  /** The step is a read or a claim that returns this entry. */
  predicate HandsOut(st: Store, step: Step, e: EntryId) {
    step.Act? &&
    match step.action
    case Read(n) => Unread(st) <= e < Unread(st) + n
    case Claim(ids, _) => e in ids
    case _ => false
  }

  /** How often the entry was handed out in the run. */
  function TimesDelivered(cfg: Config, run: seq<Step>, e: EntryId): nat
    requires Legal(cfg, run)
  {
    if run == [] then 0
    else
      var front, step := run[..|run| - 1], run[|run| - 1];
      TimesDelivered(cfg, front, e) + if HandsOut(After(cfg, front).store, step, e) then 1 else 0
  }

  function Times(cfg: Config, run: seq<Step>): (f: EntryId -> nat)
    requires Legal(cfg, run)
    ensures forall e :: f(e) == TimesDelivered(cfg, run, e)
  {
    e => TimesDelivered(cfg, run, e)
  }

  // ----- what every run keeps; f counts deliveries -----

  /** Whatever the task holds was handed out, and no count it goes by is larger than that. */
  ghost predicate TaskCounted(task: Task, f: EntryId -> nat) {
    && (forall d <- Held(task) :: f(d.id) >= 1)
    && match task
       case Idle => true
       case Looking(_, counts, _) => forall id <- counts :: counts[id] <= f(id)
       case Parsing(_, counts, _, msgs, _) =>
         (forall id <- counts :: counts[id] <= f(id)) && forall m <- msgs :: m.count <= f(m.delivery.id)
       case Handling(msgs, _) => forall m <- msgs :: m.count <= f(m.delivery.id)
  }

  ghost predicate StoreCounted(st: Store, f: EntryId -> nat) {
    && (forall id <- st.pel :: st.pel[id] == f(id))
    && (forall e: EntryId | e >= st.cursor :: f(e) == 0)
    && (forall c <- st.log :: c.count <= f(c.delivery.id))
  }

  ghost predicate Counted(s: Sys, f: EntryId -> nat) {
    StoreCounted(s.store, f) && forall t <- s.tasks :: TaskCounted(s.tasks[t], f)
  }

  lemma FetchCounts(cfg: Config, st: Store, t: TaskId, a: Action, f: EntryId -> nat, g: EntryId -> nat)
    requires StoreInv(cfg, st) && CanAct(cfg, st, Idle, a) && (a.Read? || a.Claim?) && StoreCounted(st, f)
    requires forall e :: g(e) == f(e) + if HandsOut(st, Act(t, a), e) then 1 else 0
    ensures var (st', task') := Move(cfg, st, Idle, a); StoreCounted(st', g) && TaskCounted(task', g)
  {
    match a
    case Read(n) => if n > 0 { ReadCounts(cfg, st, t, n, f, g); }
    case Claim(ids, dropped) => ClaimCounts(cfg, st, t, ids, dropped, f, g);
  }

  lemma ReadCounts(cfg: Config, st: Store, t: TaskId, n: nat, f: EntryId -> nat, g: EntryId -> nat)
    requires StoreInv(cfg, st) && n > 0 && CanAct(cfg, st, Idle, Read(n)) && StoreCounted(st, f)
    requires forall e :: g(e) == f(e) + if HandsOut(st, Act(t, Read(n)), e) then 1 else 0
    ensures var (st', task') := Move(cfg, st, Idle, Read(n)); StoreCounted(st', g) && TaskCounted(task', g)
  {
    ReadStoreCounted(cfg, st, n, f, g);
    ReadTaskCounted(cfg, st, n, g);
  }

  lemma ReadStoreCounted(cfg: Config, st: Store, n: nat, f: EntryId -> nat, g: EntryId -> nat)
    requires StoreInv(cfg, st) && n > 0 && CanAct(cfg, st, Idle, Read(n)) && StoreCounted(st, f)
    requires forall e: EntryId :: g(e) == f(e) + if Unread(st) <= e < Unread(st) + n then 1 else 0
    ensures StoreCounted(Move(cfg, st, Idle, Read(n)).0, g)
  {
    var st' := Move(cfg, st, Idle, Read(n)).0;
    ReadPending(cfg, st, n);
    assert st' == st.(cursor := Unread(st) + n, pel := st'.pel);
    forall id | id in st'.pel ensures st'.pel[id] == g(id) {
      assert id in st.pel ==> id < st.cursor;
    }
  }

  lemma ReadTaskCounted(cfg: Config, st: Store, n: nat, g: EntryId -> nat)
    requires n > 0 && CanAct(cfg, st, Idle, Read(n))
    requires forall e: EntryId | Unread(st) <= e < Unread(st) + n :: g(e) >= 1
    ensures TaskCounted(Move(cfg, st, Idle, Read(n)).1, g)
  {
    var task' := Move(cfg, st, Idle, Read(n)).1;
    assert Held(task') == task'.batch;
    forall id | id in task'.counts ensures task'.counts[id] <= g(id) {
      var d :| d in task'.batch && d.id == id;
    }
  }

  /** A claim counts exactly the entries it returns once more; what it drops has been trimmed, and
      everything else stays as it is. */
  lemma ClaimPending(cfg: Config, st: Store, ids: seq<EntryId>, dropped: set<EntryId>)
    requires CanAct(cfg, st, Idle, Claim(ids, dropped))
    ensures var st' := Move(cfg, st, Idle, Claim(ids, dropped)).0;
      && (forall id :: id in st'.pel <==> id in st.pel && id !in dropped)
      && (forall id <- st'.pel :: st'.pel[id] == if id in ids then st.pel[id] + 1 else st.pel[id])
      && (forall id <- dropped :: id < st.first)
      && st' == st.(pel := st'.pel)
  {}

  lemma ClaimCounts(cfg: Config, st: Store, t: TaskId, ids: seq<EntryId>, dropped: set<EntryId>,
                    f: EntryId -> nat, g: EntryId -> nat)
    requires StoreInv(cfg, st) && CanAct(cfg, st, Idle, Claim(ids, dropped)) && StoreCounted(st, f)
    requires forall e :: g(e) == f(e) + if HandsOut(st, Act(t, Claim(ids, dropped)), e) then 1 else 0
    ensures var (st', task') := Move(cfg, st, Idle, Claim(ids, dropped)); StoreCounted(st', g) && TaskCounted(task', g)
  {
    ClaimPending(cfg, st, ids, dropped);
    var (st', task') := Move(cfg, st, Idle, Claim(ids, dropped));
    forall e: EntryId | e >= st'.cursor ensures g(e) == 0 {
      assert e !in st.pel;
    }
    forall d | d in Held(task') ensures g(d.id) >= 1 {
      assert d.id in ids;
    }
  }

  lemma LookupCounted(cfg: Config, st: Store, task: Task, f: EntryId -> nat)
    requires TaskInv(cfg, st, task) && task.Looking? && StoreCounted(st, f) && TaskCounted(task, f)
    ensures TaskCounted(Move(cfg, st, task, Lookup).1, f)
  {
    var id := task.batch[task.at].id;
    assert task.batch[task.at] in Held(task);
    var counts := task.counts[id := if id in st.pel then st.pel[id] else 1];
    assert forall i <- counts :: counts[i] <= f(i);
    if task.at + 1 == |task.batch| {
      assert Held(Parsing(task.batch, counts, 0, [], NoLetter)) == task.batch;
    }
  }

  lemma ParsingCounted(cfg: Config, st: Store, task: Task, a: Action, f: EntryId -> nat)
    requires TaskInv(cfg, st, task) && task.Parsing? && CanAct(cfg, st, task, a) && !a.Crash?
    requires TaskCounted(task, f)
    ensures TaskCounted(Move(cfg, st, task, a).1, f)
  {
    ParsingHolds(cfg, st, task, a);
    match a
    case Parse =>
      var d := task.batch[task.at];
      var parsed := ToEvent(cfg.codec, st.stream[d.id]);
      if parsed.Valid? {
        ParsedCounted(task, Message(d, parsed.value, task.counts[d.id], st.stream[d.id]), f);
      }
    case _ =>
  }

  lemma ParsedCounted(task: Task, m: Message, f: EntryId -> nat)
    requires task.Parsing? && task.at < |task.batch| && TaskCounted(task, f)
    requires m.delivery.id in task.counts && m.count == task.counts[m.delivery.id]
    ensures forall x <- task.msgs + [m] :: x.count <= f(x.delivery.id)
  {}

  lemma HandlingCounted(cfg: Config, st: Store, task: Task, a: Action, f: EntryId -> nat)
    requires TaskInv(cfg, st, task) && task.Handling? && CanAct(cfg, st, task, a)
    requires StoreCounted(st, f) && TaskCounted(task, f)
    ensures var (st', task') := Move(cfg, st, task, a);
      TaskCounted(task', f) && forall c <- st'.log :: c.count <= f(c.delivery.id)
  {
    HandlingHolds(cfg, st, task, a);
    HeadDone(task.msgs);
    assert task.msgs[0] in task.msgs;
  }

  /** A step that hands nothing out adds nothing to the pending list. */
  lemma PendingOnlyLeaves(cfg: Config, st: Store, task: Task, a: Action)
    requires WellFormed(st, task) && CanAct(cfg, st, task, a) && !a.Read? && !a.Claim?
    ensures var st' := Move(cfg, st, task, a).0;
      st'.cursor == st.cursor && forall id <- st'.pel :: id in st.pel && st'.pel[id] == st.pel[id]
  {}

  lemma MoveCounted(cfg: Config, st: Store, task: Task, t: TaskId, a: Action, f: EntryId -> nat, g: EntryId -> nat)
    requires StoreInv(cfg, st) && TaskInv(cfg, st, task) && CanAct(cfg, st, task, a)
    requires StoreCounted(st, f) && TaskCounted(task, f)
    requires forall e :: g(e) == f(e) + if HandsOut(st, Act(t, a), e) then 1 else 0
    ensures var (st', task') := Move(cfg, st, task, a); StoreCounted(st', g) && TaskCounted(task', g)
  {
    if a.Read? || a.Claim? {
      FetchCounts(cfg, st, t, a, f, g);
    } else {
      PendingOnlyLeaves(cfg, st, task, a);
      WorkCounted(cfg, st, task, a, f);
      TaskStaysCounted(Move(cfg, st, task, a).1, f, g);
    }
  }

  lemma WorkCounted(cfg: Config, st: Store, task: Task, a: Action, f: EntryId -> nat)
    requires TaskInv(cfg, st, task) && CanAct(cfg, st, task, a) && !a.Read? && !a.Claim?
    requires StoreCounted(st, f) && TaskCounted(task, f)
    ensures var (st', task') := Move(cfg, st, task, a);
      TaskCounted(task', f) && forall c <- st'.log :: c.count <= f(c.delivery.id)
  {
    match task
    case Idle =>
    case Looking(_, _, _) => if a.Lookup? { LookupCounted(cfg, st, task, f); }
    case Parsing(_, _, _, _, _) =>
      if !a.Crash? { ParsingCounted(cfg, st, task, a, f); }
      ParsingHolds(cfg, st, task, a);
    case Handling(_, _) => HandlingCounted(cfg, st, task, a, f);
  }

  lemma TaskStaysCounted(task: Task, f: EntryId -> nat, g: EntryId -> nat)
    requires TaskCounted(task, f) && forall e :: f(e) <= g(e)
    ensures TaskCounted(task, g)
  {}

  lemma {:induction false} RunIsCounted(cfg: Config, run: seq<Step>)
    requires Configured(cfg) && Legal(cfg, run)
    ensures Counted(After(cfg, run), Times(cfg, run))
  {
    if run != [] {
      var front, step := run[..|run| - 1], run[|run| - 1];
      RunIsCounted(cfg, front);
      Reachable(cfg, front);
      StepCounted(cfg, After(cfg, front), step, Times(cfg, front), Times(cfg, run));
    }
  }

  lemma StepCounted(cfg: Config, s: Sys, step: Step, f: EntryId -> nat, g: EntryId -> nat)
    requires Inv(cfg, s) && Enabled(cfg, s, step) && Counted(s, f)
    requires forall e :: g(e) == f(e) + if HandsOut(s.store, step, e) then 1 else 0
    ensures Counted(Next(cfg, s, step), g)
  {
    if step.Act? { MoveCounted(cfg, s.store, TaskOf(s, step.task), step.task, step.action, f, g); }
    forall t | t in s.tasks ensures TaskCounted(s.tasks[t], g) {
      TaskStaysCounted(s.tasks[t], f, g);
    }
  }

  /** In every reachable state, times_delivered of a pending entry is the number of times it was
      handed out, by reads and claims of whatever task; an entry beyond the cursor never was. */
  lemma CountIsHonest(cfg: Config, run: seq<Step>, e: EntryId)
    requires Configured(cfg) && Legal(cfg, run)
    ensures var st := After(cfg, run).store;
      && (e in st.pel ==> st.pel[e] == TimesDelivered(cfg, run, e))
      && (e >= st.cursor ==> TimesDelivered(cfg, run, e) == 0)
  {
    RunIsCounted(cfg, run);
  }

  /** Nothing is given up early: a message that an outage has dead-lettered was handed out at least
      `max_deliveries` times, in every interleaving, and no message was judged by a count larger
      than the number of its deliveries. */
  lemma NoEarlyGivingUp(cfg: Config, run: seq<Step>)
    requires Configured(cfg) && Legal(cfg, run)
    ensures forall c <- After(cfg, run).store.log ::
      && c.count <= TimesDelivered(cfg, run, c.delivery.id)
      && (c.fate.DeadLettered? && IsOutageCause(c.cause) ==>
            TimesDelivered(cfg, run, c.delivery.id) >= cfg.maxDeliveries)
  {
    RunIsCounted(cfg, run);
    FatesFollowCauses(cfg, run);
    forall c | c in After(cfg, run).store.log && c.fate.DeadLettered? && IsOutageCause(c.cause)
      ensures c.count >= cfg.maxDeliveries
    {
      assert Routed(cfg, After(cfg, run).store, c);
    }
  }
}
