/** Termination: with free claims, no crashes and nothing new published, only finitely many steps
    do any work, at most a constant for each delivery the published entries may still get; when
    that many have been taken, everything is done and every task is idle. */
module Termination {
  import opened Events
  import opened RateClients
  import opened Protocol
  import opened Safety
  import opened Budget
  import opened Drain
  import opened Progress

  /** A fetch that came back with nothing. */
  predicate FetchesNothing(a: Action) {
    (a.Read? && a.n == 0) || (a.Claim? && a.ids == [])
  }

  predicate DoesWork(step: Step) {
    step.Act? && !FetchesNothing(step.action)
  }

  /** How many steps of a run are more than an empty fetch. */
  function WorkSteps(run: seq<Step>): nat {
    if run == [] then 0 else WorkSteps(run[..|run| - 1]) + if DoesWork(run[|run| - 1]) then 1 else 0
  }

  // ----- the deliveries that may still be made -----

  /** An entry in hand has had the delivery it may cost. */
  function Owed(cfg: Config, s: Sys, e: EntryId): nat {
    var left := Remaining(cfg, s, e) - if HeldBySome(s, e) then 1 else 0;
    if left > 0 then left else 0
  }

  function OwedSum(cfg: Config, s: Sys, n: nat): nat {
    if n == 0 then 0 else OwedSum(cfg, s, n - 1) + Owed(cfg, s, n - 1)
  }

  /** Every unfinished entry may still cost something. */
  ghost predicate AllRemain(cfg: Config, s: Sys) {
    forall e :: Unfinished(s, e) ==> Remaining(cfg, s, e) >= 1
  }

  lemma Remains(cfg: Config, run: seq<Step>)
    requires Configured(cfg) && Legal(cfg, run)
    ensures AllRemain(cfg, After(cfg, run))
  {
    forall e | Unfinished(After(cfg, run), e) ensures Remaining(cfg, After(cfg, run), e) >= 1 {
      RetryBudget(cfg, run, e);
    }
  }

  /** How many of the ids are below n. */
  function CountIn(ids: set<EntryId>, n: nat): nat {
    if n == 0 then 0 else CountIn(ids, n - 1) + if n - 1 in ids then 1 else 0
  }

  lemma {:induction false} CountsTheSet(ids: set<EntryId>, n: nat)
    ensures CountIn(ids, n) == |set e | e in ids && e < n|
  {
    var below := set e | e in ids && e < n;
    if n == 0 {
      assert below == {};
    } else {
      CountsTheSet(ids, n - 1);
      var before := set e | e in ids && e < n - 1;
      assert below == if n - 1 in ids then before + {n - 1} else before;
    }
  }

  /** What each entry of a set gives up, the sum gives up. */
  lemma {:induction false} SumFalls(cfg: Config, s: Sys, s': Sys, ids: set<EntryId>, n: nat)
    requires forall e | 0 <= e < n :: Owed(cfg, s', e) + (if e in ids then 1 else 0) <= Owed(cfg, s, e)
    ensures OwedSum(cfg, s', n) + CountIn(ids, n) <= OwedSum(cfg, s, n)
  {
    if n > 0 { SumFalls(cfg, s, s', ids, n - 1); }
  }

  function IdsIn(ds: seq<Delivery>): set<EntryId> {
    set d | d in ds :: d.id
  }

  lemma {:induction false} OneIdEach(ds: seq<Delivery>)
    requires OnePerEntry(ds)
    ensures |IdsIn(ds)| == |ds|
  {
    if ds == [] {
      assert IdsIn(ds) == {};
    } else {
      var front, last := ds[..|ds| - 1], ds[|ds| - 1];
      OneIdEach(front);
      assert ds == front + [last];
      assert last.id !in IdsIn(front);
      assert IdsIn(ds) == IdsIn(front) + {last.id};
    }
  }

  // ----- what a step does to one entry -----

  /** A fetch takes a delivery from each entry it hands out, and from no other. */
  lemma FetchTakes(cfg: Config, s: Sys, t: TaskId, a: Action, e: EntryId)
    requires Configured(cfg) && Inv(cfg, s) && AllRemain(cfg, s)
    requires Enabled(cfg, s, Act(t, a)) && ClaimsFreely(s, Act(t, a)) && (a.Read? || a.Claim?)
    ensures var s' := Next(cfg, s, Act(t, a));
      Owed(cfg, s', e) + (if e in IdsIn(Held(TaskOf(s', t))) then 1 else 0) <= Owed(cfg, s, e)
  {
    var task := TaskOf(s, t);
    var (st', task') := Move(cfg, s.store, task, a);
    var s' := Sys(st', s.tasks[t := task']);
    StepProceeds(cfg, s, t, a);
    NothingRevives(cfg, s, t, st', task', e);
    assert st'.log == s.store.log;
    if e in IdsIn(Held(task')) {
      var d :| d in Held(task') && d.id == e;
      assert HoldsEntry(s'.tasks[t], e);
      NotHeldBefore(cfg, s, t, st', task', d);
    } else if HeldBySome(s, e) {
      var u :| u in s.tasks && HoldsEntry(s.tasks[u], e);
      assert u in s'.tasks && HoldsEntry(s'.tasks[u], e);
    }
  }

  lemma NotHeldBefore(cfg: Config, s: Sys, t: TaskId, st': Store, task': Task, d: Delivery)
    requires Inv(cfg, s) && Proceeds(s, t, st', task') && TaskOf(s, t) == Idle && d in Held(task')
    ensures !HeldBySome(s, d.id) && Unfinished(s, d.id)
  {
    HeldWasDelivered(cfg, s, d.id);
  }

  lemma HeldWasDelivered(cfg: Config, s: Sys, e: EntryId)
    requires Inv(cfg, s)
    ensures HeldBySome(s, e) ==> e < s.store.cursor
  {
    if HeldBySome(s, e) {
      var u :| u in s.tasks && HoldsEntry(s.tasks[u], e);
      var d :| d in Held(s.tasks[u]) && d.id == e;
      assert Made(s.store, d);
    }
  }

  /** Whatever a working task lets go of is completed or has left the pending list. */
  predicate LetsGo(log: seq<Completion>, st': Store, task: Task, task': Task) {
    forall d <- Held(task) ::
      d in Held(task') || d.id !in st'.pel || (|st'.log| > |log| && st'.log[|log|].delivery == d)
  }

  lemma HandlingLetsGo(cfg: Config, st: Store, task: Task, a: Action)
    requires TaskInv(cfg, st, task) && CanAct(cfg, st, task, a) && task.Handling? && Continues(a)
    ensures var (st', task') := Move(cfg, st, task, a); LetsGo(st.log, st', task, task')
  {
    var msgs, ds := task.msgs, Deliveries(task.msgs);
    HandlingHolds(cfg, st, task, a);
    HeadAndTail(ds);
    assert |msgs| > 1 ==> Held(AfterHandle(msgs)) == ds[1..];
  }

  lemma HeadAndTail(ds: seq<Delivery>)
    requires ds != []
    ensures forall d <- ds :: d == ds[0] || d in ds[1..]
  {
    assert ds == [ds[0]] + ds[1..];
  }

  lemma ParsingLetsGo(cfg: Config, st: Store, task: Task, a: Action)
    requires TaskInv(cfg, st, task) && CanAct(cfg, st, task, a) && task.Parsing? && Continues(a)
    ensures var (st', task') := Move(cfg, st, task, a); LetsGo(st.log, st', task, task')
  {
    if a.LetterAcked? {
      HeldAfterParse(task, task.msgs);
    } else if a.Parse? {
      var d := task.batch[task.at];
      var parsed := ToEvent(cfg.codec, st.stream[d.id]);
      if parsed.Valid? {
        HeldAfterParse(task, task.msgs + [Message(d, parsed.value, task.counts[d.id], st.stream[d.id])]);
      }
    }
  }

  lemma WorkLetsGo(cfg: Config, st: Store, task: Task, a: Action)
    requires TaskInv(cfg, st, task) && CanAct(cfg, st, task, a) && Continues(a)
    ensures var (st', task') := Move(cfg, st, task, a); LetsGo(st.log, st', task, task')
  {
    match task
    case Idle =>
    case Looking(batch, _, _) => assert batch[0..] == batch;
    case Parsing(_, _, _, _, _) => ParsingLetsGo(cfg, st, task, a);
    case Handling(_, _) => HandlingLetsGo(cfg, st, task, a);
  }

  /** A step of work takes nothing back: what it lets go of it has paid for. */
  lemma WorkOwesNoMore(cfg: Config, s: Sys, t: TaskId, a: Action, e: EntryId)
    requires Configured(cfg) && Inv(cfg, s) && Apart(s) && AllRemain(cfg, s)
    requires Enabled(cfg, s, Act(t, a)) && Continues(a)
    ensures Owed(cfg, Next(cfg, s, Act(t, a)), e) <= Owed(cfg, s, e)
  {
    var task := TaskOf(s, t);
    var (st', task') := Move(cfg, s.store, task, a);
    StepProceeds(cfg, s, t, a);
    NothingRevives(cfg, s, t, st', task', e);
    assert t in s.tasks ==> TaskInv(cfg, s.store, s.tasks[t]);
    assert forall d <- Held(task) :: Made(s.store, d);
    JustCompleted(s, t, st', task');
    WorkLetsGo(cfg, s.store, task, a);
    OwesNoMore(cfg, s, t, st', task', e);
  }

  lemma OwesNoMore(cfg: Config, s: Sys, t: TaskId, st': Store, task': Task, e: EntryId)
    requires AllRemain(cfg, s) && Grows(s.store, st')
    requires LetsGo(s.store.log, st', TaskOf(s, t), task') && Completes(s.store.log, st'.log, TaskOf(s, t), task')
    requires LastCounts(s, Sys(st', s.tasks[t := task']))
    requires Unfinished(Sys(st', s.tasks[t := task']), e) ==> Unfinished(s, e)
    requires forall d <- Held(TaskOf(s, t)) :: d.id < s.store.cursor
    ensures Owed(cfg, Sys(st', s.tasks[t := task']), e) <= Owed(cfg, s, e)
  {
    var s', log, log' := Sys(st', s.tasks[t := task']), s.store.log, st'.log;
    if Unfinished(s', e) {
      if log' != log && log'[|log|].delivery.id == e {
        assert log'[..|log'| - 1] == log;
        assert t in s.tasks && HoldsEntry(s.tasks[t], e);
      } else {
        SameTimesLeft(log, log', e);
        if HeldBySome(s, e) { StillHeld(s, t, st', task', e); }
      }
    }
  }

  lemma SameTimesLeft(log: seq<Completion>, log': seq<Completion>, e: EntryId)
    requires log' == log || (|log'| == |log| + 1 && log < log' && log'[|log|].delivery.id != e)
    ensures TimesLeft(log', e) == TimesLeft(log, e)
  {
    if log' != log { assert log'[..|log'| - 1] == log; }
  }

  lemma StillHeld(s: Sys, t: TaskId, st': Store, task': Task, e: EntryId)
    requires Grows(s.store, st') && LetsGo(s.store.log, st', TaskOf(s, t), task') && HeldBySome(s, e)
    requires |st'.log| > |s.store.log| ==> st'.log[|s.store.log|].delivery.id != e
    requires forall d <- Held(TaskOf(s, t)) :: d.id < s.store.cursor
    ensures var s' := Sys(st', s.tasks[t := task']); Unfinished(s', e) ==> HeldBySome(s', e)
  {
    var s' := Sys(st', s.tasks[t := task']);
    var u :| u in s.tasks && HoldsEntry(s.tasks[u], e);
    var d :| d in Held(s.tasks[u]) && d.id == e;
    if u != t {
      assert u in s'.tasks && HoldsEntry(s'.tasks[u], e);
    } else if d in Held(task') {
      assert HoldsEntry(s'.tasks[t], e);
    }
  }

  // ----- the work in hand -----

  /** The steps all tasks may still take with what they have. */
  ghost function EffortSum(cfg: Config, tasks: map<TaskId, Task>): int {
    if tasks == map[] then 0
    else
      var t :| t in tasks;
      Effort(cfg, tasks[t]) + EffortSum(cfg, tasks - {t})
  }

  lemma {:induction false} EffortSumWithout(cfg: Config, tasks: map<TaskId, Task>, t: TaskId)
    requires t in tasks
    ensures EffortSum(cfg, tasks) == Effort(cfg, tasks[t]) + EffortSum(cfg, tasks - {t})
    decreases |tasks|
  {
    var u :| u in tasks && EffortSum(cfg, tasks) == Effort(cfg, tasks[u]) + EffortSum(cfg, tasks - {u});
    if u != t {
      EffortSumWithout(cfg, tasks - {u}, t);
      EffortSumWithout(cfg, tasks - {t}, u);
      assert tasks - {u} - {t} == tasks - {t} - {u};
    }
  }

  lemma EffortSumUpdate(cfg: Config, tasks: map<TaskId, Task>, t: TaskId, task': Task)
    ensures EffortSum(cfg, tasks[t := task'])
         == EffortSum(cfg, tasks) - (if t in tasks then Effort(cfg, tasks[t]) else 0) + Effort(cfg, task')
  {
    EffortSumWithout(cfg, tasks[t := task'], t);
    assert tasks[t := task'] - {t} == tasks - {t};
    if t in tasks {
      EffortSumWithout(cfg, tasks, t);
    } else {
      assert tasks - {t} == tasks;
    }
  }

  // ----- the potential -----

  /** The most steps one delivery can take: its share of a fetch, the lookup of its count, its
      parsing and dead letter, and the handling of its message. */
  function PerDelivery(cfg: Config): nat {
    PerMessage(cfg) + 5
  }

  /** The steps of work that may still be taken. */
  ghost function Potential(cfg: Config, s: Sys): int {
    Total(OwedSum(cfg, s, |s.store.stream|), PerDelivery(cfg)) + EffortSum(cfg, s.tasks)
  }

  lemma {:induction false} TotalAdds(m: nat, n: nat, each: nat)
    ensures Total(m + n, each) == Total(m, each) + Total(n, each)
  {
    if n > 0 { TotalAdds(m, n - 1, each); }
  }

  lemma {:induction false} TotalOfOneMore(n: nat, each: nat)
    ensures Total(n, each + 1) == Total(n, each) + n
  {
    if n > 0 { TotalOfOneMore(n - 1, each); }
  }

  /** A batch just fetched brings less work than its deliveries are worth. */
  lemma FetchedEffort(cfg: Config, st: Store, a: Action)
    requires CanAct(cfg, st, Idle, a) && (a.Read? || a.Claim?)
    ensures var task' := Move(cfg, st, Idle, a).1;
      && (FetchesNothing(a) ==> task' == Idle)
      && (!FetchesNothing(a) ==> |Held(task')| >= 1)
      && 0 <= Effort(cfg, task') <= Total(|Held(task')|, PerDelivery(cfg)) - if FetchesNothing(a) then 0 else 1
  {
    var task' := Move(cfg, st, Idle, a).1;
    if !FetchesNothing(a) {
      var n := |task'.batch|;
      assert a.Read? ==> Held(task') == task'.batch;
      TotalOfOneMore(n, PerMessage(cfg) + 3);
      TotalOfOneMore(n, PerMessage(cfg) + 4);
    }
  }

  lemma FetchOwes(cfg: Config, run: seq<Step>, t: TaskId, a: Action)
    requires Configured(cfg) && Legal(cfg, run) && (a.Read? || a.Claim?)
    requires var s := After(cfg, run); Enabled(cfg, s, Act(t, a)) && ClaimsFreely(s, Act(t, a))
    ensures var s, s' := After(cfg, run), Next(cfg, After(cfg, run), Act(t, a));
      && s'.store.stream == s.store.stream
      && OwedSum(cfg, s', |s.store.stream|) + |Held(TaskOf(s', t))| <= OwedSum(cfg, s, |s.store.stream|)
  {
    var s := After(cfg, run);
    var s', n := Next(cfg, s, Act(t, a)), |s.store.stream|;
    Reachable(cfg, run);
    Remains(cfg, run);
    StepKeeps(cfg, s, Act(t, a));
    ActKeepsStream(cfg, s.store, TaskOf(s, t), a);
    var ids := IdsIn(Held(TaskOf(s', t)));
    forall e | 0 <= e < n ensures Owed(cfg, s', e) + (if e in ids then 1 else 0) <= Owed(cfg, s, e) {
      FetchTakes(cfg, s, t, a, e);
    }
    SumFalls(cfg, s, s', ids, n);
    CountsHeld(cfg, s'.store, TaskOf(s', t), n);
  }

  /** Deliveries taken pay for the effort they bring. */
  lemma Pays(owed': nat, taken: nat, owed: nat, each: nat, effort: int, work: nat)
    requires owed' + taken <= owed && effort + work <= Total(taken, each)
    ensures Total(owed', each) + effort + work <= Total(owed, each)
  {
    TotalAdds(owed', taken, each);
    TotalGrows(owed' + taken, owed, each);
  }

  lemma FetchLowers(cfg: Config, run: seq<Step>, t: TaskId, a: Action)
    requires Configured(cfg) && Legal(cfg, run) && (a.Read? || a.Claim?)
    requires var s := After(cfg, run); Enabled(cfg, s, Act(t, a)) && ClaimsFreely(s, Act(t, a))
    ensures var s := After(cfg, run);
      Potential(cfg, Next(cfg, s, Act(t, a))) + (if FetchesNothing(a) then 0 else 1) <= Potential(cfg, s)
  {
    var s := After(cfg, run);
    var s' := Next(cfg, s, Act(t, a));
    var task', n := TaskOf(s', t), |s.store.stream|;
    assert TaskOf(s, t) == Idle;
    FetchOwes(cfg, run, t, a);
    assert Effort(cfg, task') + (if FetchesNothing(a) then 0 else 1) <= Total(|Held(task')|, PerDelivery(cfg)) by {
      FetchedEffort(cfg, s.store, a);
    }
    TaskReplaced(cfg, s, s', t, task');
    Pays(OwedSum(cfg, s', n), |Held(task')|, OwedSum(cfg, s, n), PerDelivery(cfg), Effort(cfg, task'),
         if FetchesNothing(a) then 0 else 1);
  }

  /** What replacing one task's work does to the potential. */
  lemma TaskReplaced(cfg: Config, s: Sys, s': Sys, t: TaskId, task': Task)
    requires s'.tasks == s.tasks[t := task'] && |s'.store.stream| == |s.store.stream|
    ensures var n, each := |s.store.stream|, PerDelivery(cfg);
      Potential(cfg, s') - Potential(cfg, s)
      == Total(OwedSum(cfg, s', n), each) - Total(OwedSum(cfg, s, n), each)
         + Effort(cfg, task') - Effort(cfg, TaskOf(s, t))
  {
    EffortSumUpdate(cfg, s.tasks, t, task');
  }

  lemma CountsHeld(cfg: Config, st: Store, task: Task, n: nat)
    requires TaskInv(cfg, st, task) && st.cursor <= n
    ensures CountIn(IdsIn(Held(task)), n) == |Held(task)|
  {
    var ids := IdsIn(Held(task));
    OneIdEach(Held(task));
    CountsTheSet(ids, n);
    assert forall d <- Held(task) :: Made(st, d);
    assert (set e | e in ids && e < n) == ids;
  }

  lemma WorkLowers(cfg: Config, run: seq<Step>, t: TaskId, a: Action)
    requires Configured(cfg) && Legal(cfg, run) && Apart(After(cfg, run))
    requires Enabled(cfg, After(cfg, run), Act(t, a)) && Continues(a)
    ensures var s := After(cfg, run); Potential(cfg, Next(cfg, s, Act(t, a))) < Potential(cfg, s)
  {
    var s := After(cfg, run);
    var (st', task') := Move(cfg, s.store, TaskOf(s, t), a);
    var s', n := Sys(st', s.tasks[t := task']), |s.store.stream|;
    Reachable(cfg, run);
    Remains(cfg, run);
    ActKeepsStream(cfg, s.store, TaskOf(s, t), a);
    forall e | 0 <= e < n ensures Owed(cfg, s', e) + (if e in {} then 1 else 0) <= Owed(cfg, s, e) {
      WorkOwesNoMore(cfg, s, t, a, e);
    }
    SumFalls(cfg, s, s', {}, n);
    EveryStepAdvances(cfg, s.store, TaskOf(s, t), a);
    EffortSumUpdate(cfg, s.tasks, t, task');
    TotalGrows(OwedSum(cfg, s', n), OwedSum(cfg, s, n), PerDelivery(cfg));
  }

  lemma StepLowers(cfg: Config, run: seq<Step>, t: TaskId, a: Action)
    requires Configured(cfg) && Legal(cfg, run) && Apart(After(cfg, run)) && !a.Crash?
    requires Enabled(cfg, After(cfg, run), Act(t, a)) && ClaimsFreely(After(cfg, run), Act(t, a))
    ensures var s := After(cfg, run);
      && Next(cfg, s, Act(t, a)).store.stream == s.store.stream
      && Potential(cfg, Next(cfg, s, Act(t, a))) + (if DoesWork(Act(t, a)) then 1 else 0) <= Potential(cfg, s)
  {
    ActKeepsStream(cfg, After(cfg, run).store, TaskOf(After(cfg, run), t), a);
    if a.Read? || a.Claim? { FetchLowers(cfg, run, t, a); } else { WorkLowers(cfg, run, t, a); }
  }

  // ----- the potential is bounded, and zero when all is done -----

  function HeldIn(tasks: map<TaskId, Task>): set<EntryId> {
    set t, d | t in tasks && d in Held(tasks[t]) :: d.id
  }

  lemma TaskEffort(cfg: Config, st: Store, task: Task)
    requires Configured(cfg) && TaskInv(cfg, st, task)
    ensures 0 <= Effort(cfg, task) <= Total(|Held(task)|, PerDelivery(cfg))
    ensures Effort(cfg, task) == 0 ==> task.Idle?
  {
    BusyHasEffort(cfg, st, task);
    var each := PerMessage(cfg);
    match task
    case Idle =>
    case Looking(batch, _, at) =>
      TotalOfOneMore(|batch|, each + 3);
      TotalOfOneMore(|batch|, each + 4);
    case Parsing(batch, _, at, msgs, _) =>
      ManyMore(Left(batch, at), each + 3);
      ManyMore(|msgs|, each);
      TotalAdds(|msgs|, Left(batch, at), PerDelivery(cfg));
    case Handling(msgs, stage) =>
      assert StageInv(cfg, st, msgs[0], stage);
      ManyMore(|msgs|, each);
  }

  lemma {:induction false} ManyMore(n: nat, each: nat)
    ensures Total(n, each) <= Total(n, each + 2) <= Total(n, each + 5)
  {
    if n > 0 { ManyMore(n - 1, each); }
  }

  /** A task's work is paid for by the entries it holds, and only an idle task has none. */
  predicate IsPaidFor(cfg: Config, task: Task) {
    && 0 <= Effort(cfg, task) <= Total(|Held(task)|, PerDelivery(cfg))
    && (Effort(cfg, task) == 0 ==> task.Idle?) && OnePerEntry(Held(task))
  }

  predicate ArePaidFor(cfg: Config, tasks: map<TaskId, Task>) {
    forall t <- tasks :: IsPaidFor(cfg, tasks[t])
  }

  lemma TasksArePaidFor(cfg: Config, s: Sys)
    requires Configured(cfg) && Inv(cfg, s)
    ensures ArePaidFor(cfg, s.tasks)
  {
    forall t | t in s.tasks ensures IsPaidFor(cfg, s.tasks[t]) {
      TaskEffort(cfg, s.store, s.tasks[t]);
    }
  }

  lemma {:induction false} EffortWithin(cfg: Config, st: Store, tasks: map<TaskId, Task>)
    requires ArePaidFor(cfg, tasks) && Apart(Sys(st, tasks))
    ensures 0 <= EffortSum(cfg, tasks) <= Total(|HeldIn(tasks)|, PerDelivery(cfg))
    decreases |tasks|
  {
    if tasks == map[] {
      assert HeldIn(tasks) == {};
    } else {
      var t :| t in tasks;
      var rest := tasks - {t};
      EffortSumWithout(cfg, tasks, t);
      RestKeeps(cfg, st, tasks, t);
      EffortWithin(cfg, st, rest);
      TaskIsPaidFor(cfg, st, tasks, t, EffortSum(cfg, rest));
    }
  }

  lemma TaskIsPaidFor(cfg: Config, st: Store, tasks: map<TaskId, Task>, t: TaskId, others: int)
    requires ArePaidFor(cfg, tasks) && Apart(Sys(st, tasks)) && t in tasks
    requires 0 <= others <= Total(|HeldIn(tasks - {t})|, PerDelivery(cfg))
    ensures 0 <= Effort(cfg, tasks[t]) + others <= Total(|HeldIn(tasks)|, PerDelivery(cfg))
  {
    HeldSplits(st, tasks, t);
    BothWithin(|HeldIn(tasks - {t})|, |Held(tasks[t])|, |HeldIn(tasks)|, PerDelivery(cfg),
               others, Effort(cfg, tasks[t]));
  }

  lemma BothWithin(m: nat, n: nat, sum: nat, each: nat, x: int, y: int)
    requires x <= Total(m, each) && y <= Total(n, each) && sum == m + n
    ensures x + y <= Total(sum, each)
  {
    TotalAdds(m, n, each);
  }

  lemma RestKeeps(cfg: Config, st: Store, tasks: map<TaskId, Task>, t: TaskId)
    requires ArePaidFor(cfg, tasks) && Apart(Sys(st, tasks)) && t in tasks
    ensures var rest := tasks - {t}; |rest| < |tasks| && Apart(Sys(st, rest)) && ArePaidFor(cfg, rest)
  {
    var rest := tasks - {t};
    assert |rest| == |rest.Keys| && |tasks| == |tasks.Keys| && rest.Keys == tasks.Keys - {t};
  }

  lemma IdleWhenZero(cfg: Config, st: Store, tasks: map<TaskId, Task>, t: TaskId)
    requires ArePaidFor(cfg, tasks) && Apart(Sys(st, tasks)) && EffortSum(cfg, tasks) == 0 && t in tasks
    ensures tasks[t].Idle?
  {
    assert IsPaidFor(cfg, tasks[t]);
    EffortSumWithout(cfg, tasks, t);
    RestKeeps(cfg, st, tasks, t);
    EffortWithin(cfg, st, tasks - {t});
  }

  lemma HeldSplits(st: Store, tasks: map<TaskId, Task>, t: TaskId)
    requires t in tasks && Apart(Sys(st, tasks)) && OnePerEntry(Held(tasks[t]))
    ensures |HeldIn(tasks)| == |HeldIn(tasks - {t})| + |Held(tasks[t])|
  {
    var all, rest, mine := HeldIn(tasks), HeldIn(tasks - {t}), IdsIn(Held(tasks[t]));
    forall e | e in all ensures e in rest + mine {
      var u, d :| u in tasks && d in Held(tasks[u]) && d.id == e;
      assert u != t ==> u in tasks - {t} && (tasks - {t})[u] == tasks[u];
    }
    forall e | e in rest + mine ensures e in all {}
    assert all == rest + mine;
    assert rest !! mine;
    OneIdEach(Held(tasks[t]));
  }

  lemma HeldIs(s: Sys, e: EntryId)
    ensures e in HeldIn(s.tasks) <==> HeldBySome(s, e)
  {
    if HeldBySome(s, e) {
      var t :| t in s.tasks && HoldsEntry(s.tasks[t], e);
      var d :| d in Held(s.tasks[t]) && d.id == e;
    }
    if e in HeldIn(s.tasks) {
      var t, d :| t in s.tasks && d in Held(s.tasks[t]) && d.id == e;
      assert HoldsEntry(s.tasks[t], e);
    }
  }

  lemma {:induction false} OwedWithin(cfg: Config, s: Sys, n: nat)
    requires AllRemain(cfg, s)
    ensures OwedSum(cfg, s, n) + CountIn(HeldIn(s.tasks), n) <= Backlog(cfg, s, n)
    ensures OwedSum(cfg, s, n) == 0 && HeldIn(s.tasks) == {} ==> Backlog(cfg, s, n) == 0
  {
    if n > 0 {
      OwedWithin(cfg, s, n - 1);
      HeldIs(s, n - 1);
    }
  }

  /** Nothing is pending or unread, and every task is idle. */
  predicate IsDone(s: Sys) {
    && s.store.pel == map[] && s.store.cursor == |s.store.stream|
    && forall t <- s.tasks :: s.tasks[t].Idle?
  }

  lemma PotentialWithin(cfg: Config, run: seq<Step>, budget: nat)
    requires Configured(cfg) && Legal(cfg, run) && Apart(After(cfg, run))
    requires Backlog(cfg, After(cfg, run), |After(cfg, run).store.stream|) <= budget
    ensures 0 <= Potential(cfg, After(cfg, run)) <= Total(budget, PerDelivery(cfg))
  {
    var s := After(cfg, run);
    var n, held := |s.store.stream|, |HeldIn(s.tasks)|;
    Reachable(cfg, run);
    Remains(cfg, run);
    TasksArePaidFor(cfg, s);
    EffortWithin(cfg, s.store, s.tasks);
    HeldBelow(cfg, s);
    OwedWithin(cfg, s, n);
    Pays(OwedSum(cfg, s, n), held, budget, PerDelivery(cfg), EffortSum(cfg, s.tasks), 0);
  }

  lemma DoneWhenZero(cfg: Config, run: seq<Step>)
    requires Configured(cfg) && Legal(cfg, run) && Apart(After(cfg, run)) && Potential(cfg, After(cfg, run)) == 0
    ensures IsDone(After(cfg, run))
  {
    var s := After(cfg, run);
    Reachable(cfg, run);
    Remains(cfg, run);
    TasksArePaidFor(cfg, s);
    EffortWithin(cfg, s.store, s.tasks);
    NothingOwed(OwedSum(cfg, s, |s.store.stream|), PerDelivery(cfg));
    forall t | t in s.tasks ensures s.tasks[t].Idle? { IdleWhenZero(cfg, s.store, s.tasks, t); }
    OwedWithin(cfg, s, |s.store.stream|);
    ReachableBounds(cfg, run);
    NothingLeft(cfg, s);
  }

  lemma HeldBelow(cfg: Config, s: Sys)
    requires Inv(cfg, s)
    ensures CountIn(HeldIn(s.tasks), |s.store.stream|) == |HeldIn(s.tasks)|
  {
    var ids, n := HeldIn(s.tasks), |s.store.stream|;
    CountsTheSet(ids, n);
    forall e | e in ids ensures e < n {
      HeldIs(s, e);
      HeldWasDelivered(cfg, s, e);
    }
    assert (set e | e in ids && e < n) == ids;
  }

  lemma NothingOwed(n: nat, each: nat)
    requires each > 0 && Total(n, each) == 0
    ensures n == 0
  {}

  lemma NothingLeft(cfg: Config, s: Sys)
    requires StoreInv(cfg, s.store) && forall t <- s.tasks :: s.tasks[t].Idle?
    requires forall e | 0 <= e < |s.store.stream| :: !Unfinished(s, e)
    ensures IsDone(s)
  {
    assert s.store.cursor < |s.store.stream| ==> Unfinished(s, s.store.cursor);
    assert forall e <- s.store.pel :: Unfinished(s, e);
  }

  // ----- every run -----

  lemma PotentialAtMost(cfg: Config, run: seq<Step>)
    requires Configured(cfg) && Legal(cfg, run) && Apart(After(cfg, run))
    ensures var s := After(cfg, run);
      0 <= Potential(cfg, s) <= |s.store.stream| * cfg.maxDeliveries * (cfg.rateAttempts + cfg.dbAttempts + 8)
  {
    ReachableBounds(cfg, run);
    PotentialWithin(cfg, run, |After(cfg, run).store.stream| * cfg.maxDeliveries);
    BudgetIs(|After(cfg, run).store.stream| * cfg.maxDeliveries, cfg);
  }

  lemma BudgetIs(budget: nat, cfg: Config)
    ensures Total(budget, PerDelivery(cfg)) == budget * (cfg.rateAttempts + cfg.dbAttempts + 8)
  {
    TotalIsProduct(budget, PerDelivery(cfg));
  }

  lemma {:induction false} WorkIsPaid(cfg: Config, run: seq<Step>, more: seq<Step>)
    requires Configured(cfg) && Legal(cfg, run) && Legal(cfg, run + more)
    requires Apart(After(cfg, run)) && FreeClaims(cfg, run, more)
    requires forall step <- more :: step.Act? && !step.action.Crash?
    ensures var s, s' := After(cfg, run), After(cfg, run + more);
      && s'.store.stream == s.store.stream
      && WorkSteps(more) + Potential(cfg, s') <= Potential(cfg, s)
  {
    if more == [] {
      assert run + more == run;
    } else {
      var front, step := run + more[..|more| - 1], more[|more| - 1];
      assert (run + more)[..|run + more| - 1] == front;
      WorkIsPaid(cfg, run, more[..|more| - 1]);
      StaysApart(cfg, run, more[..|more| - 1]);
      StepLowers(cfg, front, step.task, step.action);
    }
  }

  /** Termination: from any point of a run at which no entry is held twice, while claims stay free,
      no task is lost and nothing new is published, the steps of work taken and the potential left
      never exceed the potential there was, which is at most rate_attempts + db_attempts + 8 for
      each of max_deliveries deliveries of every entry published; when all of it is used up,
      nothing is pending or unread and every task is idle. */
  lemma Terminates(cfg: Config, run: seq<Step>, more: seq<Step>)
    requires Configured(cfg) && Legal(cfg, run) && Legal(cfg, run + more)
    requires Apart(After(cfg, run)) && FreeClaims(cfg, run, more)
    requires forall step <- more :: step.Act? && !step.action.Crash?
    ensures var s, s', n := After(cfg, run), After(cfg, run + more), |After(cfg, run).store.stream|;
      && s'.store.stream == s.store.stream
      && WorkSteps(more) + Potential(cfg, s') <= Potential(cfg, s)
      && Potential(cfg, s) <= n * cfg.maxDeliveries * (cfg.rateAttempts + cfg.dbAttempts + 8)
      && 0 <= Potential(cfg, s') && (Potential(cfg, s') == 0 ==> IsDone(s'))
  {
    WorkIsPaid(cfg, run, more);
    PotentialAtMost(cfg, run);
    StaysApart(cfg, run, more);
    PotentialAtMost(cfg, run + more);
    if Potential(cfg, After(cfg, run + more)) == 0 { DoneWhenZero(cfg, run + more); }
  }

  /** What a busy task can do next. */
  function NextAction(task: Task): Action
    requires !task.Idle?
  {
    match task
    case Looking(_, _, _) => Lookup
    case Parsing(_, _, _, _, letter) =>
      if letter.NoLetter? then Parse else if letter.Writing? then LetterWritten else LetterAcked
    case Handling(_, stage) =>
      match stage
      case Rate(_) => RateReply(FromService(NoAnswer("")))
      case Insert(_, _, _) => InsertReply(Committed)
      case Ack(_) => AckReply(true, true, "")
      case WriteLetter(_, _) => LetterWritten
      case AckLetter(_) => LetterAcked
  }

  lemma BusyCanAct(cfg: Config, st: Store, task: Task)
    requires !task.Idle?
    ensures CanAct(cfg, st, task, NextAction(task)) && Continues(NextAction(task))
  {}

  /** Until nothing is pending, nothing that can still be read is unread and every task is idle,
      some task can do work, or drop a trimmed entry from the pending list. */
  lemma NeverStuck(cfg: Config, run: seq<Step>) returns (t: TaskId, a: Action)
    requires Configured(cfg) && cfg.batchSize >= 1 && Legal(cfg, run)
    requires var s := After(cfg, run);
      s.store.pel != map[] || Unread(s.store) < |s.store.stream| || exists t :: t in s.tasks && !s.tasks[t].Idle?
    ensures var s := After(cfg, run);
      && Enabled(cfg, s, Act(t, a)) && ClaimsFreely(s, Act(t, a)) && !a.Crash?
      && (DoesWork(Act(t, a)) || |Next(cfg, s, Act(t, a)).store.pel| < |s.store.pel|)
  {
    var s := After(cfg, run);
    Reachable(cfg, run);
    if u :| u in s.tasks && !s.tasks[u].Idle? {
      t, a := u, NextAction(s.tasks[u]);
      BusyCanAct(cfg, s.store, s.tasks[u]);
    } else if e :| e in s.store.pel {
      t := 0;
      if e >= s.store.first {
        a := Claim([e], {});
        assert !HeldBySome(s, e);
      } else {
        a := Claim([], {e});
        DropsOne(cfg, s, e);
      }
    } else {
      t, a := 0, Read(1);
    }
  }

  lemma DropsOne(cfg: Config, s: Sys, e: EntryId)
    requires e in s.store.pel && e < s.store.first && TaskOf(s, 0) == Idle
    ensures Enabled(cfg, s, Act(0, Claim([], {e})))
    ensures |Next(cfg, s, Act(0, Claim([], {e}))).store.pel| < |s.store.pel|
  {
    var pel' := Move(cfg, s.store, Idle, Claim([], {e})).0.pel;
    assert Bumped(s.store.pel, []) == s.store.pel;
    assert pel'.Keys == s.store.pel.Keys - {e};
    assert |pel'| == |pel'.Keys| && |s.store.pel| == |s.store.pel.Keys|;
  }
}
