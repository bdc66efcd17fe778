/** Error routing over whole runs: what becomes of a message is decided by what failed, and every
    completed call of `handle` in every reachable history shows it. */
module Routing {
  import opened Errors
  import opened Events
  import opened Table
  import opened RateClients
  import opened Protocol
  import opened Safety

  /** The failure may pass: the rate service is down, or the database is. */
  predicate IsOutageCause(cause: Cause) {
    match cause
    case RateFailed(reply) => IsDown(reply)
    case InsertFailed(error) => IsOutage(error)
    case _ => false
  }

  lemma OutagesRaiseTransient(currency: string, cause: Cause)
    requires IsFailure(currency, cause)
    ensures RaisedBy(currency, cause).Transient? <==> IsOutageCause(cause)
  {
    match cause
    case RateFailed(reply) => DownIsTransient(currency, reply);
    case InsertFailed(error) => OutagesAreTransient(error);
    case _ =>
  }

  /** The reason a dead letter gives, by what failed: a refused currency is named, an outage is
      given up on, and anything else is unexpected and says what it was. */
  function WrittenReason(currency: string, cause: Cause): string
    requires !cause.NoFailure?
  {
    match cause
    case RateFailed(reply) =>
      if IsDown(reply) then "max deliveries exceeded"
      else if reply.status == 404 then "no rate for currency '" + currency + "'"
      else "unexpected error: " + reply.text
    case NotConvertible => "unexpected error: " + "[<class 'decimal.InvalidOperation'>]"
    case InsertFailed(error) =>
      if IsOutage(error) then "max deliveries exceeded" else "unexpected error: " + error.text
    case AckFailed(text) => "unexpected error: " + text
  }

  lemma ReasonIsWritten(currency: string, cause: Cause)
    requires IsFailure(currency, cause)
    ensures ReasonFor(RaisedBy(currency, cause)) == WrittenReason(currency, cause)
  {
    match cause
    case RateFailed(reply) => DownIsTransient(currency, reply);
    case InsertFailed(error) => OutagesAreTransient(error);
    case _ =>
  }

  /** A failure the policy does not leave pending, and the reason it gives. */
  predicate GivesUp(cfg: Config, currency: string, count: nat, cause: Cause, reason: string) {
    && IsFailure(currency, cause) && !(IsOutageCause(cause) && count < cfg.maxDeliveries)
    && reason == WrittenReason(currency, cause)
  }

  /** The fate of a completed call is the one its cause calls for, and has been carried out. */
  predicate Routed(cfg: Config, st: Store, c: Completion) {
    && c.delivery.id < st.cursor && c.delivery.id < |st.stream|
    && var fields := st.stream[c.delivery.id];
    && ToEvent(cfg.codec, fields).Valid?
    && var event := ToEvent(cfg.codec, fields).value;
       match c.fate
       case Acked => c.cause.NoFailure? && HasId(st.table, event.id) && c.delivery.id !in st.pel
       case LeftPending => IsOutageCause(c.cause) && c.count < cfg.maxDeliveries
       case DeadLettered =>
         && IsFailure(event.currency, c.cause) && !(IsOutageCause(c.cause) && c.count < cfg.maxDeliveries)
         && HasLetter(st.dlq, fields, WrittenReason(event.currency, c.cause))
         && c.delivery.id !in st.pel
  }

  predicate StageRouted(cfg: Config, st: Store, m: Message, stage: Stage) {
    match stage
    case WriteLetter(reason, cause) => GivesUp(cfg, m.event.currency, m.count, cause, reason)
    case AckLetter(cause) =>
      && IsFailure(m.event.currency, cause) && !(IsOutageCause(cause) && m.count < cfg.maxDeliveries)
      && HasLetter(st.dlq, m.raw, WrittenReason(m.event.currency, cause))
    case _ => true
  }

  predicate TaskRouted(cfg: Config, st: Store, task: Task) {
    task.Handling? && task.msgs != [] ==> StageRouted(cfg, st, task.msgs[0], task.stage)
  }

  predicate AllRouted(cfg: Config, s: Sys) {
    && (forall c <- s.store.log :: Routed(cfg, s.store, c))
    && (forall t <- s.tasks :: TaskRouted(cfg, s.store, s.tasks[t]))
  }

  lemma RoutedGrows(cfg: Config, st: Store, st': Store, c: Completion)
    requires Grows(st, st') && Routed(cfg, st, c)
    ensures Routed(cfg, st', c)
  {
    var fields := st.stream[c.delivery.id];
    var event := ToEvent(cfg.codec, fields).value;
    IdStays(st.table, st'.table, event.id);
    if c.fate.DeadLettered? { HasLetterGrows(st.dlq, st'.dlq, fields, WrittenReason(event.currency, c.cause)); }
  }

  lemma TaskRoutedGrows(cfg: Config, st: Store, st': Store, task: Task)
    requires Grows(st, st') && TaskRouted(cfg, st, task)
    ensures TaskRouted(cfg, st', task)
  {
    if task.Handling? && task.msgs != [] && task.stage.AckLetter? {
      var m := task.msgs[0];
      HasLetterGrows(st.dlq, st'.dlq, m.raw, WrittenReason(m.event.currency, task.stage.cause));
    }
  }

  /** Every completion this step added is routed, and so is the stage the task is in now. */
  predicate RoutesTo(cfg: Config, log: seq<Completion>, st': Store, task': Task) {
    && (forall c <- st'.log :: c in log || Routed(cfg, st', c))
    && TaskRouted(cfg, st', task')
  }

  lemma FailureRoutes(cfg: Config, st: Store, msgs: seq<Message>, cause: Cause)
    requires msgs != [] && IsFailure(msgs[0].event.currency, cause)
    requires MessageInv(cfg, st, msgs[0])
    ensures var (st', task') := OnFailure(cfg, st, msgs, cause); RoutesTo(cfg, st.log, st', task')
  {
    OutagesRaiseTransient(msgs[0].event.currency, cause);
    ReasonIsWritten(msgs[0].event.currency, cause);
  }

  lemma LetterRoutes(cfg: Config, st: Store, m: Message, reason: string, cause: Cause)
    requires StageRouted(cfg, st, m, WriteLetter(reason, cause))
    ensures StageRouted(cfg, st.(dlq := st.dlq + [DeadLetter(m.raw, reason)]), m, AckLetter(cause))
  {
    var letter := DeadLetter(m.raw, reason);
    assert letter in st.dlq + [letter];
  }

  lemma RateRoutes(cfg: Config, st: Store, task: Task, answer: RateAnswer)
    requires TaskInv(cfg, st, task) && task.Handling? && task.stage.Rate?
    ensures var (st', task') := Move(cfg, st, task, RateReply(answer)); RoutesTo(cfg, st.log, st', task')
  {
    var msgs := task.msgs;
    assert MessageInv(cfg, st, msgs[0]);
    var reply := Replied(msgs[0].event.currency, answer);
    FailureRoutes(cfg, st, msgs, if reply.Ok? then NotConvertible else RateFailed(answer.reply));
  }

  lemma HandlingRoutes(cfg: Config, st: Store, task: Task, a: Action)
    requires StoreInv(cfg, st) && TaskInv(cfg, st, task) && CanAct(cfg, st, task, a)
    requires task.Handling? && TaskRouted(cfg, st, task)
    ensures var (st', task') := Move(cfg, st, task, a); RoutesTo(cfg, st.log, st', task')
  {
    var msgs := task.msgs;
    assert MessageInv(cfg, st, msgs[0]);
    match a
    case RateReply(answer) => RateRoutes(cfg, st, task, answer);
    case InsertReply(answer) =>
      if answer.Broke? {
        var row := RowOf(msgs[0].event, task.stage.rate, task.stage.cents);
        var after := if answer.applied then st.(table := InsertIgnore(st.table, row)) else st;
        FailureRoutes(cfg, after, msgs, InsertFailed(answer.error));
      }
    case AckReply(ok, applied, text) =>
      var after := if applied then Acknowledged(st, msgs[0].delivery.id) else st;
      if !ok { FailureRoutes(cfg, after, msgs, AckFailed(text)); }
    case LetterWritten => LetterRoutes(cfg, st, msgs[0], task.stage.reason, task.stage.cause);
    case _ =>
  }

  lemma MoveRoutes(cfg: Config, st: Store, task: Task, a: Action)
    requires StoreInv(cfg, st) && TaskInv(cfg, st, task) && CanAct(cfg, st, task, a)
    requires TaskRouted(cfg, st, task)
    ensures var (st', task') := Move(cfg, st, task, a); RoutesTo(cfg, st.log, st', task')
  {
    if task.Handling? { HandlingRoutes(cfg, st, task, a); }
  }

  lemma StepRoutes(cfg: Config, s: Sys, step: Step)
    requires Configured(cfg) && Inv(cfg, s) && AllRouted(cfg, s) && Enabled(cfg, s, step)
    ensures AllRouted(cfg, Next(cfg, s, step))
  {
    var s' := Next(cfg, s, step);
    StepKeeps(cfg, s, step);
    if step.Act? { MoveRoutes(cfg, s.store, TaskOf(s, step.task), step.action); }
    forall c | c in s'.store.log ensures Routed(cfg, s'.store, c) {
      if c in s.store.log { RoutedGrows(cfg, s.store, s'.store, c); }
    }
    forall t | t in s'.tasks ensures TaskRouted(cfg, s'.store, s'.tasks[t]) {
      if t in s.tasks && s'.tasks[t] == s.tasks[t] { TaskRoutedGrows(cfg, s.store, s'.store, s.tasks[t]); }
    }
  }

  /** In every reachable history, with any number of tasks and crashes anywhere: a message was
      left pending exactly when the rate service or the database was down and its count was below
      the cutoff; it was dead-lettered exactly when anything else failed or the count had reached
      the cutoff, and a letter with its fields gives the reason written for what failed; and it was
      acked exactly when nothing had failed, with its row committed. */
  lemma {:induction false} FatesFollowCauses(cfg: Config, run: seq<Step>)
    requires Configured(cfg) && Legal(cfg, run)
    ensures AllRouted(cfg, After(cfg, run))
    ensures forall c <- After(cfg, run).store.log ::
      && (c.fate.Acked? <==> c.cause.NoFailure?)
      && (c.fate.LeftPending? <==> IsOutageCause(c.cause) && c.count < cfg.maxDeliveries)
  {
    if run != [] {
      FatesFollowCauses(cfg, run[..|run| - 1]);
      Reachable(cfg, run[..|run| - 1]);
      StepRoutes(cfg, After(cfg, run[..|run| - 1]), run[|run| - 1]);
    }
  }
}
