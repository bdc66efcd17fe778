/** Draining: once no two tasks hold the same entry and claims take only what none holds, every
    completed `handle` uses up part of a budget that each unfinished entry brings, so a backlog of
    N entries is finished after at most N * max_deliveries completed calls.  Crashes are allowed. */
module Drain {
  import opened Protocol
  import opened Safety
  import opened Budget

  predicate HeldBySome(s: Sys, e: EntryId) {
    exists t :: t in s.tasks && HoldsEntry(s.tasks[t], e)
  }

  predicate HoldsEntry(task: Task, e: EntryId) {
    exists d :: d in Held(task) && d.id == e
  }

  /** A claim does not take what a live task still holds. */
  predicate ClaimsFreely(s: Sys, step: Step) {
    step.Act? && step.action.Claim? ==> forall e <- step.action.ids :: !HeldBySome(s, e)
  }

  /** From `run` on, no step of `more` claims what a task still holds. */
  predicate FreeClaims(cfg: Config, run: seq<Step>, more: seq<Step>)
    requires Legal(cfg, run + more)
    decreases |more|
  {
    more == [] ||
    (assert (run + more)[..|run + more| - 1] == run + more[..|more| - 1];
     FreeClaims(cfg, run, more[..|more| - 1])
     && ClaimsFreely(After(cfg, run + more[..|more| - 1]), more[|more| - 1]))
  }

  /** Something may still happen to the entry: it is undelivered, pending, or being handled. */
  predicate Unfinished(s: Sys, e: EntryId) {
    e >= s.store.cursor || e in s.store.pel || HeldBySome(s, e)
  }

  /** No two tasks hold the same entry. */
  predicate Apart(s: Sys) {
    forall t, u, d, d' | t in s.tasks && u in s.tasks && t != u && d in Held(s.tasks[t]) && d' in Held(s.tasks[u]) ::
      d.id != d'.id
  }

  /** The part of a task's step that matters here. */
  predicate Proceeds(s: Sys, t: TaskId, st': Store, task': Task) {
    && Grows(s.store, st')
    && Completes(s.store.log, st'.log, TaskOf(s, t), task') && Tells(s.store.log, st')
    && (forall d <- Held(task') :: d in Held(TaskOf(s, t)) || d.id >= s.store.cursor
                                 || (d.id in s.store.pel && !HeldBySome(s, d.id)))
  }

  lemma NothingRevives(cfg: Config, s: Sys, t: TaskId, st': Store, task': Task, e: EntryId)
    requires Proceeds(s, t, st', task')
    ensures Unfinished(Sys(st', s.tasks[t := task']), e) ==> Unfinished(s, e)
  {
    var s' := Sys(st', s.tasks[t := task']);
    if Unfinished(s', e) && e < s.store.cursor && e !in s.store.pel {
      var u :| u in s'.tasks && HoldsEntry(s'.tasks[u], e);
      var d :| d in Held(s'.tasks[u]) && d.id == e;
      assert d in Held(TaskOf(s, u));
      assert HoldsEntry(s.tasks[u], e);
    }
  }

  lemma StillApart(cfg: Config, s: Sys, t: TaskId, st': Store, task': Task)
    requires Inv(cfg, s) && Apart(s) && Proceeds(s, t, st', task')
    ensures forall u, d, d' | u in s.tasks && t != u && d in Held(task') && d' in Held(s.tasks[u]) ::
      d.id != d'.id
  {
    forall u, d, d' | u in s.tasks && t != u && d in Held(task') && d' in Held(s.tasks[u])
      ensures d.id != d'.id
    {
      assert Made(s.store, d');
      assert HoldsEntry(s.tasks[u], d'.id);
    }
  }

  lemma OneTaskMoved(s: Sys, t: TaskId, st': Store, task': Task)
    requires Apart(s)
    requires forall u, d, d' | u in s.tasks && t != u && d in Held(task') && d' in Held(s.tasks[u]) :: d.id != d'.id
    ensures Apart(Sys(st', s.tasks[t := task']))
  {}

  /** If a call was just completed, its entry was unfinished, and is now only if pending. */
  predicate LastCounts(s: Sys, s': Sys) {
    s'.store.log == s.store.log ||
    (|s'.store.log| == |s.store.log| + 1 && s.store.log < s'.store.log
     && var c := s'.store.log[|s.store.log|];
        && Unfinished(s, c.delivery.id)
        && (Unfinished(s', c.delivery.id) ==> c.pending))
  }

  lemma JustCompleted(s: Sys, t: TaskId, st': Store, task': Task)
    requires Apart(s) && Proceeds(s, t, st', task')
    requires forall d <- Held(TaskOf(s, t)) :: d.id < s.store.cursor
    ensures LastCounts(s, Sys(st', s.tasks[t := task']))
  {
    if st'.log != s.store.log {
      var d, s' := st'.log[|s.store.log|].delivery, Sys(st', s.tasks[t := task']);
      assert t in s.tasks && d in Held(s.tasks[t]);
      assert HoldsEntry(s.tasks[t], d.id);
      forall u | u in s'.tasks ensures !HoldsEntry(s'.tasks[u], d.id) {
        assert u == t || u in s.tasks;
      }
    }
  }

  lemma StepProceeds(cfg: Config, s: Sys, t: TaskId, a: Action)
    requires Configured(cfg) && Inv(cfg, s) && Enabled(cfg, s, Act(t, a)) && ClaimsFreely(s, Act(t, a))
    ensures var (st', task') := Move(cfg, s.store, TaskOf(s, t), a); Proceeds(s, t, st', task')
  {
    MoveKeeps(cfg, s.store, TaskOf(s, t), a);
    MoveHolds(cfg, s.store, TaskOf(s, t), a);
  }

  lemma StepApart(cfg: Config, s: Sys, step: Step)
    requires Configured(cfg) && Inv(cfg, s) && Apart(s) && Enabled(cfg, s, step) && ClaimsFreely(s, step)
    ensures Apart(Next(cfg, s, step))
  {
    if step.Act? {
      StepProceeds(cfg, s, step.task, step.action);
      var (st', task') := Move(cfg, s.store, TaskOf(s, step.task), step.action);
      StillApart(cfg, s, step.task, st', task');
      OneTaskMoved(s, step.task, st', task');
    }
  }

  /** Entries stay apart for as long as claims are free; in the initial state they are. */
  lemma {:induction false} StaysApart(cfg: Config, run: seq<Step>, more: seq<Step>)
    requires Configured(cfg) && Legal(cfg, run) && Legal(cfg, run + more)
    requires Apart(After(cfg, run)) && FreeClaims(cfg, run, more)
    ensures Apart(After(cfg, run + more))
    ensures Apart(Init())
  {
    if more == [] {
      assert run + more == run;
    } else {
      var front := run + more[..|more| - 1];
      assert (run + more)[..|run + more| - 1] == front;
      StaysApart(cfg, run, more[..|more| - 1]);
      Reachable(cfg, front);
      StepApart(cfg, After(cfg, front), more[|more| - 1]);
    }
  }

  // ----- the budget as a measure -----

  /** What entry e may still cost: its calls that ended with it pending are bounded, and at most
      one more ends otherwise. */
  function Remaining(cfg: Config, s: Sys, e: EntryId): int {
    if Unfinished(s, e) then cfg.maxDeliveries - TimesLeft(s.store.log, e) else 0
  }

  /** What the first n entries may still cost together. */
  function Backlog(cfg: Config, s: Sys, n: nat): int {
    if n == 0 then 0 else Backlog(cfg, s, n - 1) + Remaining(cfg, s, n - 1)
  }

  /** What a step leaves of one entry's budget: a completed call takes one from its own entry. */
  lemma StepRemaining(cfg: Config, s: Sys, s': Sys, e: EntryId)
    requires LastCounts(s, s')
    requires Unfinished(s', e) ==> Unfinished(s, e)
    requires Unfinished(s, e) ==> Remaining(cfg, s, e) >= 1
    ensures var completed := s'.store.log != s.store.log && s'.store.log[|s.store.log|].delivery.id == e;
      Remaining(cfg, s', e) + (if completed then 1 else 0) <= Remaining(cfg, s, e)
  {
    var log, log' := s.store.log, s'.store.log;
    if log' != log {
      assert log'[..|log'| - 1] == log;
    }
  }

  lemma {:induction false} StepBacklog(cfg: Config, s: Sys, s': Sys, n: nat)
    requires LastCounts(s, s')
    requires forall e :: Unfinished(s', e) ==> Unfinished(s, e)
    requires forall e :: Unfinished(s, e) ==> Remaining(cfg, s, e) >= 1
    ensures var completed := s'.store.log != s.store.log && s'.store.log[|s.store.log|].delivery.id < n;
      Backlog(cfg, s', n) + (if completed then 1 else 0) <= Backlog(cfg, s, n)
  {
    if n > 0 {
      StepBacklog(cfg, s, s', n - 1);
      StepRemaining(cfg, s, s', n - 1);
    }
  }

  /** A completed call always takes from the backlog, and no other step of a task adds to it. */
  lemma ActBacklog(cfg: Config, run: seq<Step>, t: TaskId, a: Action)
    requires Configured(cfg) && Legal(cfg, run) && Apart(After(cfg, run))
    requires var s := After(cfg, run); Enabled(cfg, s, Act(t, a)) && ClaimsFreely(s, Act(t, a))
    ensures var s, s', n := After(cfg, run), Next(cfg, After(cfg, run), Act(t, a)), |After(cfg, run).store.stream|;
      && s'.store.stream == s.store.stream
      && Backlog(cfg, s', n) + |s'.store.log| <= Backlog(cfg, s, n) + |s.store.log|
  {
    var s := After(cfg, run);
    Reachable(cfg, run);
    var (st', task') := Move(cfg, s.store, TaskOf(s, t), a);
    StepProceeds(cfg, s, t, a);
    assert t in s.tasks ==> TaskInv(cfg, s.store, s.tasks[t]);
    assert forall d <- Held(TaskOf(s, t)) :: Made(s.store, d);
    JustCompleted(s, t, st', task');
    forall e | Unfinished(s, e) ensures Remaining(cfg, s, e) >= 1 { RetryBudget(cfg, run, e); }
    forall e | Unfinished(Sys(st', s.tasks[t := task']), e) ensures Unfinished(s, e) {
      NothingRevives(cfg, s, t, st', task', e);
    }
    StepBacklog(cfg, s, Sys(st', s.tasks[t := task']), |s.store.stream|);
    ActKeepsStream(cfg, s.store, TaskOf(s, t), a);
  }

  lemma {:induction false} BacklogBounds(cfg: Config, s: Sys, n: nat)
    requires forall e :: Unfinished(s, e) ==> Remaining(cfg, s, e) >= 1
    ensures 0 <= Backlog(cfg, s, n) <= n * cfg.maxDeliveries
    ensures Backlog(cfg, s, n) == 0 <==> forall e | 0 <= e < n :: !Unfinished(s, e)
  {
    if n > 0 { BacklogBounds(cfg, s, n - 1); }
  }

  lemma ReachableBounds(cfg: Config, run: seq<Step>)
    requires Configured(cfg) && Legal(cfg, run)
    ensures var s, n := After(cfg, run), |After(cfg, run).store.stream|;
      && 0 <= Backlog(cfg, s, n) <= n * cfg.maxDeliveries
      && (Backlog(cfg, s, n) == 0 <==> forall e | 0 <= e < n :: !Unfinished(s, e))
  {
    forall e | Unfinished(After(cfg, run), e) ensures Remaining(cfg, After(cfg, run), e) >= 1 {
      RetryBudget(cfg, run, e);
    }
    BacklogBounds(cfg, After(cfg, run), |After(cfg, run).store.stream|);
  }

  /** Draining a backlog: from any point of a run at which no entry is held twice, however it was
      reached, while claims stay free and nothing new is published, the calls of `handle` completed
      and the backlog still left never exceed the backlog there was; so completing that many calls,
      at most max_deliveries for every entry published, leaves nothing pending and nothing
      undelivered. */
  lemma DrainTerminates(cfg: Config, run: seq<Step>, more: seq<Step>)
    requires Configured(cfg) && Legal(cfg, run) && Legal(cfg, run + more)
    requires Apart(After(cfg, run)) && FreeClaims(cfg, run, more)
    requires forall step <- more :: step.Act?
    ensures var s, s' := After(cfg, run), After(cfg, run + more);
      var n, calls := |s.store.stream|, |s'.store.log| - |s.store.log|;
      && s'.store.stream == s.store.stream
      && calls + Backlog(cfg, s', n) <= Backlog(cfg, s, n) <= n * cfg.maxDeliveries
      && (calls >= Backlog(cfg, s, n) ==> s'.store.pel == map[] && s'.store.cursor == n)
  {
    DrainCounts(cfg, run, more);
    var s, s' := After(cfg, run), After(cfg, run + more);
    var n := |s.store.stream|;
    ReachableBounds(cfg, run);
    ReachableBounds(cfg, run + more);
    Reachable(cfg, run + more);
    if |s'.store.log| - |s.store.log| >= Backlog(cfg, s, n) {
      if s'.store.cursor < n { assert Unfinished(s', s'.store.cursor); }
      forall e ensures e !in s'.store.pel {
        if e in s'.store.pel { assert Unfinished(s', e); }
      }
    }
  }

  lemma {:induction false} DrainCounts(cfg: Config, run: seq<Step>, more: seq<Step>)
    requires Configured(cfg) && Legal(cfg, run) && Legal(cfg, run + more)
    requires Apart(After(cfg, run)) && FreeClaims(cfg, run, more) && forall step <- more :: step.Act?
    ensures var s, s' := After(cfg, run), After(cfg, run + more);
      && s'.store.stream == s.store.stream
      && Backlog(cfg, s', |s.store.stream|) + |s'.store.log| <= Backlog(cfg, s, |s.store.stream|) + |s.store.log|
  {
    if more == [] {
      assert run + more == run;
    } else {
      var front, step := run + more[..|more| - 1], more[|more| - 1];
      assert (run + more)[..|run + more| - 1] == front;
      DrainCounts(cfg, run, more[..|more| - 1]);
      StaysApart(cfg, run, more[..|more| - 1]);
      ActBacklog(cfg, front, step.task, step.action);
    }
  }
}
