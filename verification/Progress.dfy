/** Progress: every step a busy task takes brings it closer to the end of its batch.  Unless it is
    lost, it is back to reading after a number of its own steps fixed when the batch arrived. */
module Progress {
  import opened Events
  import opened RateClients
  import opened Protocol
  import opened Safety

  /** The most steps one message can take: every attempt of both retries, then a failing ack and
      the two calls of a dead letter. */
  function PerMessage(cfg: Config): nat {
    cfg.rateAttempts + cfg.dbAttempts + 3
  }

  /** n * each. */
  function Total(n: nat, each: nat): nat {
    if n == 0 then 0 else Total(n - 1, each) + each
  }

  /** The steps the current message may still take. */
  function StageEffort(cfg: Config, stage: Stage): int {
    match stage
    case Rate(k) => cfg.rateAttempts - k + 1 + cfg.dbAttempts + 3
    case Insert(_, _, k) => cfg.dbAttempts - k + 1 + 3
    case Ack(_) => 3
    case WriteLetter(_, _) => 2
    case AckLetter(_) => 1
  }

  function LetterEffort(letter: Letter): nat {
    match letter
    case NoLetter => 0
    case Writing(_) => 1
    case Written => 2
  }

  /** The steps a task may still take before it is idle again: a claimed entry is looked up, and
      every entry is parsed and then dead-lettered or handled. */
  function Effort(cfg: Config, task: Task): int {
    match task
    case Idle => 0
    case Looking(batch, _, at) => |batch| - at + Total(|batch|, PerMessage(cfg) + 3)
    case Parsing(batch, _, at, msgs, letter) =>
      Total(Left(batch, at), PerMessage(cfg) + 3) - LetterEffort(letter) + Total(|msgs|, PerMessage(cfg))
    case Handling(msgs, stage) => StageEffort(cfg, stage) + Total(|msgs|, PerMessage(cfg)) - PerMessage(cfg)
  }

  function Left(batch: seq<Delivery>, at: nat): nat {
    if at < |batch| then |batch| - at else 0
  }

  /** The first message is finished, or one of its remaining steps is used up. */
  predicate Advances(cfg: Config, msgs: seq<Message>, stage: Stage, task': Task) {
    || task' == AfterHandle(msgs)
    || (task'.Handling? && task'.msgs == msgs && 1 <= StageEffort(cfg, task'.stage) < StageEffort(cfg, stage))
  }

  lemma VerdictAdvances(cfg: Config, msgs: seq<Message>, stage: Stage, cause: Cause)
    requires msgs != [] && IsFailure(msgs[0].event.currency, cause) && StageEffort(cfg, stage) >= 3
    ensures Advances(cfg, msgs, stage, Verdict(cfg, msgs, cause))
  {}

  lemma StageAdvances(cfg: Config, st: Store, msgs: seq<Message>, stage: Stage, a: Action)
    requires Configured(cfg) && msgs != [] && StageInv(cfg, st, msgs[0], stage)
    requires CanAct(cfg, st, Handling(msgs, stage), a) && !a.Crash?
    ensures StageEffort(cfg, stage) >= 1
    ensures Advances(cfg, msgs, stage, Move(cfg, st, Handling(msgs, stage), a).1)
  {
    match a
    case RateReply(answer) =>
      var reply := Replied(msgs[0].event.currency, answer);
      VerdictAdvances(cfg, msgs, stage, if reply.Ok? then NotConvertible else RateFailed(answer.reply));
    case InsertReply(answer) =>
      if answer.Broke? { VerdictAdvances(cfg, msgs, stage, InsertFailed(answer.error)); }
    case AckReply(_, _, text) => VerdictAdvances(cfg, msgs, stage, AckFailed(text));
    case _ =>
  }

  lemma HandlingAdvances(cfg: Config, st: Store, task: Task, a: Action)
    requires Configured(cfg) && TaskInv(cfg, st, task) && CanAct(cfg, st, task, a)
    requires task.Handling? && !a.Crash?
    ensures 0 <= Effort(cfg, Move(cfg, st, task, a).1) < Effort(cfg, task)
  {
    StageAdvances(cfg, st, task.msgs, task.stage, a);
  }

  /** An entry that becomes a message costs what was set aside for it, or less. */
  lemma AfterParseEffort(cfg: Config, task: Task, msgs: seq<Message>)
    requires task.Parsing? && task.at < |task.batch| && |msgs| <= |task.msgs| + 1
    ensures var task' := AfterParse(task.batch, task.counts, task.at + 1, msgs);
      0 <= Effort(cfg, task') <= Effort(cfg, task) + LetterEffort(task.letter) - 3
  {
    var each := PerMessage(cfg);
    assert Total(|task.msgs| + 1, each) == Total(|task.msgs|, each) + each;
    TotalGrows(|msgs|, |task.msgs| + 1, each);
  }

  lemma {:induction false} TotalGrows(m: nat, n: nat, each: nat)
    requires m <= n
    ensures Total(m, each) <= Total(n, each)
  {
    if m < n { TotalGrows(m, n - 1, each); }
  }

  lemma ParsingAdvances(cfg: Config, st: Store, task: Task, a: Action)
    requires Configured(cfg) && WellFormed(st, task) && CanAct(cfg, st, task, a)
    requires task.Parsing? && !a.Crash?
    ensures 0 <= Effort(cfg, Move(cfg, st, task, a).1) < Effort(cfg, task)
  {
    if a.LetterAcked? {
      AfterParseEffort(cfg, task, task.msgs);
    } else if a.Parse? {
      var d := task.batch[task.at];
      var parsed := ToEvent(cfg.codec, st.stream[d.id]);
      if parsed.Valid? {
        AfterParseEffort(cfg, task, task.msgs + [Message(d, parsed.value, task.counts[d.id], st.stream[d.id])]);
      }
    }
  }

  /** A step of its own, other than a crash, leaves a busy task with less to do. */
  lemma EveryStepAdvances(cfg: Config, st: Store, task: Task, a: Action)
    requires Configured(cfg) && TaskInv(cfg, st, task) && CanAct(cfg, st, task, a)
    requires Continues(a)
    ensures 0 <= Effort(cfg, Move(cfg, st, task, a).1) < Effort(cfg, task)
  {
    match task
    case Idle =>
    case Looking(_, _, _) =>
    case Parsing(_, _, _, _, _) => ParsingAdvances(cfg, st, task, a);
    case Handling(_, _) => HandlingAdvances(cfg, st, task, a);
  }

  // ----- over whole runs -----

  /** The steps of one task in a run. */
  function StepsOf(run: seq<Step>, t: TaskId): nat {
    if run == [] then 0
    else StepsOf(run[..|run| - 1], t) + if run[|run| - 1].Act? && run[|run| - 1].task == t then 1 else 0
  }

  predicate WorksOff(step: Step, t: TaskId) {
    step.Act? && step.task == t ==> Continues(step.action)
  }

  lemma BusyHasEffort(cfg: Config, st: Store, task: Task)
    requires Configured(cfg) && TaskInv(cfg, st, task)
    ensures 0 <= Effort(cfg, task) && (Effort(cfg, task) == 0 <==> task.Idle?)
  {
    if task.Handling? {
      assert StageInv(cfg, st, task.msgs[0], task.stage);
    }
  }

  lemma KnownTask(cfg: Config, run: seq<Step>, t: TaskId)
    requires Configured(cfg) && Legal(cfg, run)
    ensures TaskInv(cfg, After(cfg, run).store, TaskOf(After(cfg, run), t))
  {
    Reachable(cfg, run);
  }

  lemma LastStep(cfg: Config, run: seq<Step>, step: Step, t: TaskId)
    requires Configured(cfg) && Legal(cfg, run) && Enabled(cfg, After(cfg, run), step) && WorksOff(step, t)
    ensures var task, task' := TaskOf(After(cfg, run), t), TaskOf(Next(cfg, After(cfg, run), step), t);
      if step.Act? && step.task == t then Effort(cfg, task') < Effort(cfg, task) else task' == task
  {
    if step.Act? && step.task == t {
      KnownTask(cfg, run, t);
      EveryStepAdvances(cfg, After(cfg, run).store, TaskOf(After(cfg, run), t), step.action);
    }
  }

  /** Whatever the others do meanwhile, a task takes at most Effort more steps of its own before
      it is idle again: the steps taken and the effort left never exceed what it started with. */
  lemma {:induction false} BatchEnds(cfg: Config, run: seq<Step>, more: seq<Step>, t: TaskId)
    requires Configured(cfg) && Legal(cfg, run + more) && forall step <- more :: WorksOff(step, t)
    ensures Legal(cfg, run)
    ensures var task, task' := TaskOf(After(cfg, run), t), TaskOf(After(cfg, run + more), t);
      && StepsOf(more, t) + Effort(cfg, task') <= Effort(cfg, task)
      && 0 <= Effort(cfg, task') && (Effort(cfg, task') == 0 <==> task'.Idle?)
  {
    PrefixIsLegal(cfg, run, more);
    KnownTask(cfg, run + more, t);
    BusyHasEffort(cfg, After(cfg, run + more).store, TaskOf(After(cfg, run + more), t));
    if more == [] {
      assert run + more == run;
    } else {
      var front := run + more[..|more| - 1];
      assert (run + more)[..|run + more| - 1] == front;
      BatchEnds(cfg, run, more[..|more| - 1], t);
      LastStep(cfg, front, more[|more| - 1], t);
    }
  }

  /** The effort of a batch just fetched, in closed form. */
  lemma EffortOfBatch(cfg: Config, batch: seq<Delivery>, counts: map<EntryId, nat>)
    ensures Effort(cfg, Parsing(batch, counts, 0, [], NoLetter)) == |batch| * (cfg.rateAttempts + cfg.dbAttempts + 6)
    ensures Effort(cfg, Looking(batch, counts, 0)) == |batch| * (cfg.rateAttempts + cfg.dbAttempts + 7)
  {
    TotalIsProduct(|batch|, PerMessage(cfg) + 3);
  }

  lemma {:induction false} TotalIsProduct(n: nat, each: nat)
    ensures Total(n, each) == n * each
  {
    if n > 0 { TotalIsProduct(n - 1, each); }
  }
}
