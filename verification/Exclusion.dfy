/** When an entry can end up both stored and dead-lettered.  Six things make it possible, each on
    its own; in a run without any of them no entry ever has both fates. */
module Exclusion {
  import opened Events
  import opened Table
  import opened RateClients
  import opened Protocol
  import opened Safety
  import opened Budget
  import opened Drain

  datatype Deviation =
    | SharedId              // two entries carry events with one id
    | OverlappingClaim      // an entry is claimed from a task that is still busy with it
    | FailedAck             // the ack of a processed message raises
    | UnreportedCommit      // an insert takes effect and raises
    | LostBeforeAck         // a task is lost between its commit and its ack
    | LostBeforeLetterAck   // a task is lost between writing a letter and acking the entry

  /** What the step does that can cost an entry its single fate. */
  function StepDeviations(s: Sys, step: Step): set<Deviation> {
    match step
    case Publish(_, _) => {}
    case Act(t, a) =>
      match a
      case Claim(_, _) => if ClaimsFreely(s, step) then {} else {OverlappingClaim}
      case AckReply(ok, _, _) => if ok then {} else {FailedAck}
      case InsertReply(answer) => if answer.Broke? && answer.applied then {UnreportedCommit} else {}
      case Crash =>
        var task := TaskOf(s, t);
        if task.Handling? && task.stage.Ack? then {LostBeforeAck}
        else if task.Handling? && task.stage.AckLetter? then {LostBeforeLetterAck} else {}
      case _ => {}
  }

  /** Any two entries that can be read carry different ids. */
  predicate IdsDiffer(cfg: Config, stream: seq<Fields>) {
    forall d, e | 0 <= d < e < |stream| ::
      var x, y := ToEvent(cfg.codec, stream[d]), ToEvent(cfg.codec, stream[e]);
      x.Valid? && y.Valid? ==> x.value.id != y.value.id
  }

  function RunDeviations(cfg: Config, run: seq<Step>): set<Deviation>
    requires Legal(cfg, run)
  {
    if run == [] then {}
    else RunDeviations(cfg, run[..|run| - 1]) + StepDeviations(After(cfg, run[..|run| - 1]), run[|run| - 1])
  }

  /** Everything in a run that can cost an entry its single fate. */
  function Deviations(cfg: Config, run: seq<Step>): set<Deviation>
    requires Legal(cfg, run)
  {
    RunDeviations(cfg, run) + if IdsDiffer(cfg, After(cfg, run).store.stream) then {} else {SharedId}
  }

  predicate HasBothFates(cfg: Config, st: Store, e: EntryId)
    requires e < |st.stream|
  {
    InDlq(st, e) && IsStored(cfg, st, e)
  }

  // ----- the invariant of one entry -----

  predicate IsHead(task: Task, e: EntryId) {
    task.Handling? && task.msgs != [] && task.msgs[0].delivery.id == e
  }

  predicate AtAck(task: Task, e: EntryId) {
    IsHead(task, e) && task.stage.Ack?
  }

  predicate AtLetterAck(task: Task, e: EntryId) {
    IsHead(task, e) && task.stage.AckLetter?
  }

  /** The entry is off the pending list and in nobody's hands, or its one holder is about to
      acknowledge it. */
  predicate Closing(s: Sys, e: EntryId, stored: bool) {
    && e < s.store.cursor
    && (e in s.store.pel ==> HeldBySome(s, e))
    && (forall t <- s.tasks :: HoldsEntry(s.tasks[t], e) ==>
          if stored then AtAck(s.tasks[t], e) else AtLetterAck(s.tasks[t], e))
  }

  predicate EntryInv(cfg: Config, s: Sys, e: EntryId)
    requires e < |s.store.stream|
  {
    && !HasBothFates(cfg, s.store, e)
    && (IsStored(cfg, s.store, e) ==> Closing(s, e, true))
    && (InDlq(s.store, e) ==> Closing(s, e, false))
  }

  predicate IsReadable(cfg: Config, st: Store, e: EntryId) {
    e < |st.stream| && ToEvent(cfg.codec, st.stream[e]).Valid?
  }

  // ----- where rows and letters come from -----

  /** A letter is read as the entry it was made from. */
  lemma LetterReadsBack(cfg: Config, st: Store, letter: Fields, e: EntryId)
    requires e < |st.stream| && IsLetterOf(letter, st.stream[e])
    ensures ToEvent(cfg.codec, letter) == ToEvent(cfg.codec, st.stream[e])
  {
    LetterIsRead(cfg.codec, letter, st.stream[e], letter["reason"]);
  }

  /** With different ids, only the letters of an entry itself put it into the dead-letter stream. */
  lemma NewLetterIsOf(cfg: Config, st: Store, st': Store, from: EntryId, reason: string, e: EntryId)
    requires st'.stream == st.stream && IdsDiffer(cfg, st.stream) && from < |st.stream| && IsReadable(cfg, st, e)
    requires st'.dlq == st.dlq + [DeadLetter(st.stream[from], reason)]
    requires InDlq(st', e) && !InDlq(st, e)
    ensures e == from
  {
    var i :| 0 <= i < |st'.dlq| && IsLetterOf(st'.dlq[i], st'.stream[e]);
    assert i == |st.dlq|;
    LetterReadsBack(cfg, st, st'.dlq[i], e);
    LetterIsRead(cfg.codec, st'.dlq[i], st.stream[from], reason);
  }

  lemma NewRowIsOf(cfg: Config, st: Store, st': Store, from: EntryId, row: Row, e: EntryId)
    requires st'.stream == st.stream && IdsDiffer(cfg, st.stream) && IsReadable(cfg, st, from) && IsReadable(cfg, st, e)
    requires st'.table == InsertIgnore(st.table, row) && row.id == ToEvent(cfg.codec, st.stream[from]).value.id
    requires IsStored(cfg, st', e) && !IsStored(cfg, st, e)
    ensures e == from
  {
    var id := ToEvent(cfg.codec, st.stream[e]).value.id;
    var i :| 0 <= i < |st'.table| && st'.table[i].id == id;
    assert i == |st.table|;
  }

  // ----- one step -----

  /** What an undeviating move does to one entry. */
  predicate MovesEntry(cfg: Config, st: Store, task: Task, st': Store, task': Task, e: EntryId)
    requires e < |st.stream| && e < |st'.stream|
  {
    && (IsStored(cfg, st', e) && !IsStored(cfg, st, e) ==> IsHead(task, e) && task.stage.Insert? && AtAck(task', e))
    && (InDlq(st', e) && !InDlq(st, e) ==> IsHead(task, e) && task.stage.WriteLetter? && AtLetterAck(task', e))
    && (AtAck(task, e) || AtLetterAck(task, e) ==> !HoldsEntry(task', e) && e !in st'.pel)
  }

  /** The task lets go of the first message. */
  lemma HeadIsGone(msgs: seq<Message>)
    requires msgs != [] && OnePerEntry(Deliveries(msgs))
    ensures !HoldsEntry(AfterHandle(msgs), msgs[0].delivery.id)
  {
    HeadDone(msgs);
  }

  lemma FailureStoresNothing(cfg: Config, st: Store, msgs: seq<Message>, cause: Cause)
    requires msgs != [] && IsFailure(msgs[0].event.currency, cause)
    ensures var st' := OnFailure(cfg, st, msgs, cause).0;
      st'.table == st.table && st'.dlq == st.dlq && st'.stream == st.stream
  {}

  lemma InsertMovesEntry(cfg: Config, st: Store, task: Task, answer: DbReply, e: EntryId)
    requires TaskInv(cfg, st, task) && CanAct(cfg, st, task, InsertReply(answer))
    requires IdsDiffer(cfg, st.stream) && IsReadable(cfg, st, e) && (answer.Broke? ==> !answer.applied)
    ensures var (st', task') := Move(cfg, st, task, InsertReply(answer));
      e < |st'.stream| && MovesEntry(cfg, st, task, st', task', e)
  {
    match answer
    case Committed => CommitMovesEntry(cfg, st, task, e);
    case Broke(error, _) => FailureStoresNothing(cfg, st, task.msgs, InsertFailed(error));
  }

  lemma CommitMovesEntry(cfg: Config, st: Store, task: Task, e: EntryId)
    requires TaskInv(cfg, st, task) && task.Handling? && task.stage.Insert?
    requires IdsDiffer(cfg, st.stream) && IsReadable(cfg, st, e)
    ensures var row := RowOf(task.msgs[0].event, task.stage.rate, task.stage.cents);
      MovesEntry(cfg, st, task, st.(table := InsertIgnore(st.table, row)),
                 Handling(task.msgs, Ack(Found(st.table, row.id))), e)
  {
    CommitIsOf(cfg, st, task, e);
  }

  lemma CommitIsOf(cfg: Config, st: Store, task: Task, e: EntryId)
    requires TaskInv(cfg, st, task) && task.Handling? && task.stage.Insert?
    requires IdsDiffer(cfg, st.stream) && IsReadable(cfg, st, e)
    ensures var row := RowOf(task.msgs[0].event, task.stage.rate, task.stage.cents);
      var st' := st.(table := InsertIgnore(st.table, row));
      IsStored(cfg, st', e) && !IsStored(cfg, st, e) ==> task.msgs[0].delivery.id == e
  {
    var row := RowOf(task.msgs[0].event, task.stage.rate, task.stage.cents);
    var st' := st.(table := InsertIgnore(st.table, row));
    assert MessageInv(cfg, st, task.msgs[0]);
    if IsStored(cfg, st', e) && !IsStored(cfg, st, e) {
      NewRowIsOf(cfg, st, st', task.msgs[0].delivery.id, row, e);
    }
  }

  lemma LetterMovesEntry(cfg: Config, st: Store, task: Task, e: EntryId)
    requires StoreInv(cfg, st) && TaskInv(cfg, st, task) && CanAct(cfg, st, task, LetterWritten)
    requires IdsDiffer(cfg, st.stream) && IsReadable(cfg, st, e)
    ensures var (st', task') := Move(cfg, st, task, LetterWritten);
      e < |st'.stream| && MovesEntry(cfg, st, task, st', task', e)
  {
    var (st', task') := Move(cfg, st, task, LetterWritten);
    if InDlq(st', e) && !InDlq(st, e) {
      if task.Parsing? {
        NewLetterIsOf(cfg, st, st', task.batch[task.at].id, task.letter.reason, e);
      } else {
        assert MessageInv(cfg, st, task.msgs[0]);
        NewLetterIsOf(cfg, st, st', task.msgs[0].delivery.id, task.stage.reason, e);
      }
    }
  }

  lemma MoveMovesEntry(cfg: Config, st: Store, task: Task, a: Action, e: EntryId)
    requires StoreInv(cfg, st) && TaskInv(cfg, st, task) && CanAct(cfg, st, task, a)
    requires IdsDiffer(cfg, st.stream) && IsReadable(cfg, st, e)
    requires !(a.AckReply? && !a.ok) && !(a.InsertReply? && a.answer.Broke? && a.answer.applied)
    requires a.Crash? && task.Handling? ==> !task.stage.Ack? && !task.stage.AckLetter?
    ensures var (st', task') := Move(cfg, st, task, a);
      e < |st'.stream| && MovesEntry(cfg, st, task, st', task', e)
  {
    ActKeepsStream(cfg, st, task, a);
    if task.Handling? { HeadIsGone(task.msgs); }
    match a
    case InsertReply(answer) => InsertMovesEntry(cfg, st, task, answer, e);
    case LetterWritten => LetterMovesEntry(cfg, st, task, e);
    case RateReply(answer) =>
      var reply := Replied(task.msgs[0].event.currency, answer);
      FailureStoresNothing(cfg, st, task.msgs, if reply.Ok? then NotConvertible else RateFailed(answer.reply));
    case _ =>
  }

  lemma NobodyTakesItUp(s: Sys, t: TaskId, st': Store, task': Task, e: EntryId)
    requires Proceeds(s, t, st', task') && e < s.store.cursor && (e in s.store.pel ==> HeldBySome(s, e))
    ensures HoldsEntry(task', e) ==> t in s.tasks && HoldsEntry(s.tasks[t], e)
  {
    if HoldsEntry(task', e) {
      var d :| d in Held(task') && d.id == e;
      assert d in Held(TaskOf(s, t));
    }
  }

  /** An entry that is closing stays so: its holder acknowledges it, or nobody takes it up. */
  lemma ClosingStays(cfg: Config, s: Sys, t: TaskId, st': Store, task': Task, e: EntryId, stored: bool)
    requires Closing(s, e, stored) && Proceeds(s, t, st', task')
    requires AtAck(TaskOf(s, t), e) || AtLetterAck(TaskOf(s, t), e) ==> !HoldsEntry(task', e) && e !in st'.pel
    ensures Closing(Sys(st', s.tasks[t := task']), e, stored)
  {
    var s' := Sys(st', s.tasks[t := task']);
    NobodyTakesItUp(s, t, st', task', e);
    if e in st'.pel {
      var u :| u in s.tasks && HoldsEntry(s.tasks[u], e);
      assert u in s'.tasks && HoldsEntry(s'.tasks[u], e);
    }
  }

  /** An entry that gets its fate just now is closing: nobody else holds it. */
  lemma ClosingStarts(cfg: Config, s: Sys, t: TaskId, st': Store, task': Task, e: EntryId, stored: bool)
    requires Apart(s) && Grows(s.store, st') && IsHead(TaskOf(s, t), e) && e < s.store.cursor
    requires if stored then AtAck(task', e) else AtLetterAck(task', e)
    ensures Closing(Sys(st', s.tasks[t := task']), e, stored)
  {
    var s' := Sys(st', s.tasks[t := task']);
    HeadIsHeld(s.tasks[t], e);
    HeadIsHeld(task', e);
    assert HoldsEntry(s'.tasks[t], e);
    forall u | u in s'.tasks && u != t ensures !HoldsEntry(s'.tasks[u], e) {}
  }

  lemma HeadIsHeld(task: Task, e: EntryId)
    requires IsHead(task, e)
    ensures HoldsEntry(task, e)
  {
    assert Held(task)[0] == task.msgs[0].delivery;
  }

  lemma ActKeepsEntry(cfg: Config, s: Sys, t: TaskId, st': Store, task': Task, e: EntryId)
    requires Apart(s) && Proceeds(s, t, st', task') && e < |s.store.stream|
    requires EntryInv(cfg, s, e) && MovesEntry(cfg, s.store, TaskOf(s, t), st', task', e)
    requires IsHead(TaskOf(s, t), e) ==> e < s.store.cursor
    ensures EntryInv(cfg, Sys(st', s.tasks[t := task']), e)
  {
    var task := TaskOf(s, t);
    if IsHead(task, e) { HeadIsHeld(task, e); }
    if IsStored(cfg, st', e) {
      if IsStored(cfg, s.store, e) { ClosingStays(cfg, s, t, st', task', e, true); }
      else { ClosingStarts(cfg, s, t, st', task', e, true); }
    }
    if InDlq(st', e) {
      if InDlq(s.store, e) { ClosingStays(cfg, s, t, st', task', e, false); }
      else { ClosingStarts(cfg, s, t, st', task', e, false); }
    }
  }

  lemma SourceOfLetter(cfg: Config, st: Store, st': Store, e: EntryId) returns (d: EntryId)
    requires StoreInv(cfg, st) && st.stream <= st'.stream && st'.dlq == st.dlq
    requires e < |st'.stream| && InDlq(st', e)
    ensures d < |st.stream| && ToEvent(cfg.codec, st'.stream[d]) == ToEvent(cfg.codec, st'.stream[e])
  {
    var i :| 0 <= i < |st'.dlq| && IsLetterOf(st'.dlq[i], st'.stream[e]);
    assert st.dlq[i] in st.dlq;
    d :| 0 <= d < |st.stream| && IsLetterOf(st.dlq[i], st.stream[d]);
    LetterReadsBack(cfg, st', st'.dlq[i], e);
    LetterReadsBack(cfg, st, st.dlq[i], d);
  }

  lemma SourceOfRow(cfg: Config, st: Store, st': Store, e: EntryId) returns (d: EntryId)
    requires StoreInv(cfg, st) && st.stream <= st'.stream && st'.table == st.table
    requires e < |st'.stream| && IsStored(cfg, st', e)
    ensures d < |st.stream| && IsReadable(cfg, st', d)
    ensures ToEvent(cfg.codec, st'.stream[d]).value.id == ToEvent(cfg.codec, st'.stream[e]).value.id
  {
    var i :| 0 <= i < |st.table| && st.table[i].id == ToEvent(cfg.codec, st'.stream[e]).value.id;
    assert st.table[i] in st.table && HasSource(cfg, st, st.table[i]);
    d :| 0 <= d < |st.stream| && ToEvent(cfg.codec, st.stream[d]).Valid?
      && IsRowOf(st.table[i], ToEvent(cfg.codec, st.stream[d]).value);
  }

  /** A new entry has neither fate: whatever has one was published under another id. */
  lemma NewEntryIsOpen(cfg: Config, st: Store, st': Store, e: EntryId)
    requires StoreInv(cfg, st) && e == |st.stream| && IsReadable(cfg, st', e) && IdsDiffer(cfg, st'.stream)
    requires st.stream <= st'.stream && st'.dlq == st.dlq && st'.table == st.table
    ensures !InDlq(st', e) && !IsStored(cfg, st', e)
  {
    if InDlq(st', e) {
      var d := SourceOfLetter(cfg, st, st', e);
      assert false;
    }
    if IsStored(cfg, st', e) {
      var d := SourceOfRow(cfg, st, st', e);
      assert false;
    }
  }

  // ----- every run -----

  predicate AllOpen(cfg: Config, s: Sys) {
    forall e: nat | e < |s.store.stream| && IsReadable(cfg, s.store, e) :: EntryInv(cfg, s, e)
  }

  lemma ActKeepsOne(cfg: Config, s: Sys, t: TaskId, a: Action, e: EntryId)
    requires Configured(cfg) && Inv(cfg, s) && Apart(s) && Enabled(cfg, s, Act(t, a))
    requires StepDeviations(s, Act(t, a)) == {} && IdsDiffer(cfg, s.store.stream)
    requires IsReadable(cfg, s.store, e) && EntryInv(cfg, s, e)
    ensures e < |Next(cfg, s, Act(t, a)).store.stream| && EntryInv(cfg, Next(cfg, s, Act(t, a)), e)
  {
    var task := TaskOf(s, t);
    var (st', task') := Move(cfg, s.store, task, a);
    NoDeviationIsFree(s, Act(t, a));
    StepProceeds(cfg, s, t, a);
    MoveMovesEntry(cfg, s.store, task, a, e);
    if IsHead(task, e) { assert MessageInv(cfg, s.store, task.msgs[0]); }
    ActKeepsEntry(cfg, s, t, st', task', e);
  }

  lemma ActKeepsOpen(cfg: Config, s: Sys, t: TaskId, a: Action)
    requires Configured(cfg) && Inv(cfg, s) && Apart(s) && AllOpen(cfg, s) && Enabled(cfg, s, Act(t, a))
    requires StepDeviations(s, Act(t, a)) == {} && IdsDiffer(cfg, s.store.stream)
    ensures AllOpen(cfg, Next(cfg, s, Act(t, a)))
  {
    ActKeepsStream(cfg, s.store, TaskOf(s, t), a);
    forall e | IsReadable(cfg, s.store, e) ensures EntryInv(cfg, Next(cfg, s, Act(t, a)), e) {
      ActKeepsOne(cfg, s, t, a, e);
    }
  }

  lemma PublishKeepsOpen(cfg: Config, s: Sys, fields: Fields, first: nat)
    requires Configured(cfg) && Inv(cfg, s) && AllOpen(cfg, s) && Enabled(cfg, s, Step.Publish(fields, first))
    requires IdsDiffer(cfg, Next(cfg, s, Step.Publish(fields, first)).store.stream)
    ensures AllOpen(cfg, Next(cfg, s, Step.Publish(fields, first)))
  {
    var s' := Next(cfg, s, Step.Publish(fields, first));
    forall e | 0 <= e < |s'.store.stream| && IsReadable(cfg, s'.store, e) ensures EntryInv(cfg, s', e) {
      if e == |s.store.stream| {
        NewEntryIsOpen(cfg, s.store, s'.store, e);
      } else {
        assert EntryInv(cfg, s, e);
        assert s'.store.stream[e] == s.store.stream[e];
        assert HeldBySome(s, e) ==> HeldBySome(s', e);
      }
    }
  }

  lemma {:induction false} UndeviatingKeepsOpen(cfg: Config, run: seq<Step>)
    requires Configured(cfg) && Legal(cfg, run) && RunDeviations(cfg, run) == {}
    requires IdsDiffer(cfg, After(cfg, run).store.stream)
    ensures Apart(After(cfg, run)) && AllOpen(cfg, After(cfg, run))
  {
    if run != [] {
      var front, step := run[..|run| - 1], run[|run| - 1];
      var s := After(cfg, front);
      Reachable(cfg, front);
      StepKeeps(cfg, s, step);
      IdsDifferedBefore(cfg, s.store.stream, After(cfg, run).store.stream);
      UndeviatingKeepsOpen(cfg, front);
      NoDeviationIsFree(s, step);
      StepApart(cfg, s, step);
      match step
      case Publish(fields, first) => PublishKeepsOpen(cfg, s, fields, first);
      case Act(t, a) => ActKeepsOpen(cfg, s, t, a);
    }
  }

  lemma IdsDifferedBefore(cfg: Config, stream: seq<Fields>, stream': seq<Fields>)
    requires stream <= stream' && IdsDiffer(cfg, stream')
    ensures IdsDiffer(cfg, stream)
  {
    forall d, e | 0 <= d < e < |stream|
      ensures var x, y := ToEvent(cfg.codec, stream[d]), ToEvent(cfg.codec, stream[e]);
        x.Valid? && y.Valid? ==> x.value.id != y.value.id
    {
      assert stream[d] == stream'[d] && stream[e] == stream'[e];
    }
  }

  lemma NoDeviationIsFree(s: Sys, step: Step)
    requires StepDeviations(s, step) == {}
    ensures ClaimsFreely(s, step)
  {
    assert OverlappingClaim !in StepDeviations(s, step);
  }

  /** In a run with none of the six, no entry is ever both stored and dead-lettered. */
  lemma OneFate(cfg: Config, run: seq<Step>, e: EntryId)
    requires Configured(cfg) && Legal(cfg, run) && e < |After(cfg, run).store.stream|
    requires Deviations(cfg, run) == {}
    ensures !HasBothFates(cfg, After(cfg, run).store, e)
  {
    var st := After(cfg, run).store;
    assert SharedId !in Deviations(cfg, run);
    UndeviatingKeepsOpen(cfg, run);
    assert IsStored(cfg, st, e) ==> IsReadable(cfg, st, e);
  }
}
