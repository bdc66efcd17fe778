/** One task of a worker, running among all the others.  Whatever happens to the shared state is a
    step of the protocol; between two steps of this task the others take any number of theirs. */
module Runtime {
  import opened Errors
  import opened Converter
  import opened Events
  import opened Table
  import opened Protocol
  import opened Safety
  import opened RateClients

  datatype Loss = Alive | LostBefore | LostAfter

  /** What the outside does at one awaited call: the steps others take first, whether this task is
      lost around the call, and how the call is answered.  `idle` and `wait` are what happens to
      the rate client before a lookup and while its HTTP call is awaited. */
  datatype Turn = Turn(
    others: seq<Step>, loss: Loss, read: nat, claim: seq<EntryId>, dropped: set<EntryId>,
    idle: Pause, wait: Pause, reply: HttpReply, answer: DbReply,
    ackFails: bool, ackApplied: bool, ackText: string)

  function OwnActions(run: seq<Step>, me: TaskId): seq<Action> {
    if run == [] then []
    else
      var last := run[|run| - 1];
      OwnActions(run[..|run| - 1], me)
      + if last.Act? && last.task == me then [last.action] else []
  }

  /** One (id, fields) pair of a reply. */
  datatype Entry = Entry(id: EntryId, fields: Fields)

  /** The reply lists this batch, with the fields the stream has for it. */
  predicate Lists(entries: seq<Entry>, batch: seq<Delivery>, st: Store) {
    && |entries| == |batch|
    && forall i | 0 <= i < |entries| ::
      entries[i].id == batch[i].id && entries[i].id < |st.stream| && entries[i].fields == st.stream[entries[i].id]
  }

  function EntriesOf(batch: seq<Delivery>, st: Store): (entries: seq<Entry>)
    requires forall d <- batch :: d.id < |st.stream|
    ensures Lists(entries, batch, st)
  {
    seq(|batch|, i requires 0 <= i < |batch| => Entry(batch[i].id, st.stream[batch[i].id]))
  }

  function IdsOf(entries: seq<Entry>): seq<EntryId> {
    seq(|entries|, i requires 0 <= i < |entries| => entries[i].id)
  }

  /** `{msg_id: 1 for msg_id, _fields in entries}`. */
  function Ones(entries: seq<Entry>): map<EntryId, nat> {
    map e | e in entries :: e.id := 1
  }

  lemma OnesMatch(entries: seq<Entry>, batch: seq<Delivery>, st: Store)
    requires Lists(entries, batch, st)
    ensures Ones(entries) == AllOnes(batch)
  {
    forall id | id in AllOnes(batch) ensures id in Ones(entries) {
      var i :| 0 <= i < |batch| && batch[i].id == id;
      assert entries[i] in entries;
    }
    forall id | id in Ones(entries) ensures id in AllOnes(batch) {
      var i :| 0 <= i < |entries| && entries[i].id == id;
      assert batch[i] in batch;
    }
  }

  /** Where a rate lookup takes a task: to the insert, to the next attempt, or to the policy. */
  predicate RateLeadsTo(cfg: Config, msgs: seq<Message>, attempt: nat, answer: RateAnswer, task': Task)
    requires msgs != []
  {
    match Replied(msgs[0].event.currency, answer)
    case Ok(rate) =>
      (match ConvertToUsd(msgs[0].event.amount, rate)
       case Some(cents) => task' == Handling(msgs, Insert(rate, cents, 1))
       case None => task' == Verdict(cfg, msgs, NotConvertible))
    case Err(f) =>
      task' == if Retries(f, attempt, cfg.rateAttempts) then Handling(msgs, Rate(attempt + 1))
               else Verdict(cfg, msgs, RateFailed(answer.reply))
  }

  lemma RateGives(cfg: Config, st: Store, msgs: seq<Message>, attempt: nat, answer: RateAnswer)
    requires msgs != []
    ensures RateLeadsTo(cfg, msgs, attempt, answer, Move(cfg, st, Handling(msgs, Rate(attempt)), RateReply(answer)).1)
  {}

  /** Where an insert's answer takes a task: to the ack, to the next attempt, or to the policy. */
  predicate InsertLeadsTo(cfg: Config, task: Task, answer: DbReply, found: Stored, task': Task)
    requires task.Handling? && task.stage.Insert? && task.msgs != []
  {
    match answer
    case Committed => task' == Handling(task.msgs, Ack(found))
    case Broke(error, _) =>
      task' == if Retries(Reraised(error), task.stage.attempt, cfg.dbAttempts)
               then Handling(task.msgs, task.stage.(attempt := task.stage.attempt + 1))
               else Verdict(cfg, task.msgs, InsertFailed(error))
  }

  lemma InsertGives(cfg: Config, st: Store, task: Task, answer: DbReply)
    requires WellFormed(st, task) && task.Handling? && task.stage.Insert?
    ensures var (st', task') := Move(cfg, st, task, InsertReply(answer));
      && InsertLeadsTo(cfg, task, answer, Found(st.table, task.msgs[0].event.id), task')
      && Inserts(st.table, RowOf(task.msgs[0].event, task.stage.rate, task.stage.cents), answer, st'.table)
  {}

  /** The statement took effect, for certain if it was committed. */
  predicate Inserts(table: seq<Row>, row: Row, answer: DbReply, table': seq<Row>) {
    table' == if answer.Committed? || answer.applied then InsertIgnore(table, row) else table
  }

  /** These are the fields of the entry, and a letter made of them gives this reason. */
  predicate Posted(st: Store, id: EntryId, fields: Fields, reason: string) {
    id < |st.stream| && fields == st.stream[id] && HasLetter(st.dlq, fields, reason)
  }

  /** The entry was delivered and has left the pending list for good. */
  predicate Gone(st: Store, id: EntryId) {
    id < st.cursor && id !in st.pel
  }

  /** Dead-lettered for good, with this reason. */
  predicate Buried(st: Store, id: EntryId, fields: Fields, reason: string) {
    Posted(st, id, fields, reason) && Gone(st, id)
  }

  lemma BuriedGrows(st: Store, st': Store, id: EntryId, fields: Fields, reason: string)
    requires Grows(st, st') && Buried(st, id, fields, reason)
    ensures Buried(st', id, fields, reason)
  {
    HasLetterGrows(st.dlq, st'.dlq, fields, reason);
  }

  /** The letter a task is about to write is made of these fields and gives this reason. */
  predicate IsWriting(st: Store, task: Task, fields: Fields, reason: string) {
    match task
    case Parsing(batch, _, at, _, letter) =>
      letter == Writing(reason) && at < |batch| && batch[at].id < |st.stream| && fields == st.stream[batch[at].id]
    case Handling(msgs, stage) =>
      stage.WriteLetter? && reason == stage.reason && msgs != [] && fields == msgs[0].raw
    case _ => false
  }

  /** The entry a task is dead-lettering. */
  predicate HasLetterId(task: Task, id: EntryId) {
    match task
    case Parsing(batch, _, at, _, _) => at < |batch| && id == batch[at].id
    case Handling(msgs, _) => msgs != [] && id == msgs[0].delivery.id
    case _ => false
  }

  /** It was delivered, and the letter is made of its own fields. */
  lemma LetterFits(cfg: Config, st: Store, task: Task, id: EntryId)
    requires TaskInv(cfg, st, task) && HasLetterId(task, id)
    requires CanAct(cfg, st, task, LetterWritten) || CanAct(cfg, st, task, LetterAcked)
    ensures id < |st.stream| && id < st.cursor
    ensures forall fields, reason :: IsWriting(st, task, fields, reason) ==> fields == st.stream[id]
  {
    if task.Parsing? {
      assert task.batch[task.at] == task.batch[task.at..][0];
      assert Made(st, task.batch[task.at]) by { assert task.batch[task.at] in Held(task); }
    } else {
      assert MessageInv(cfg, st, task.msgs[0]);
    }
  }

  /** The reply lists the first entries, without a gap, that were never delivered or trimmed. */
  predicate NextUnread(entries: seq<Entry>, st: Store) {
    var from := if st.cursor < st.first then st.first else st.cursor;
    && from + |entries| <= |st.stream|
    && forall i | 0 <= i < |entries| :: entries[i] == Entry(from + i, st.stream[from + i])
  }

  /** The reply lists entries that were pending, and counts each once more. */
  predicate WerePending(claimed: seq<Entry>, batch: seq<Delivery>, st: Store) {
    && |claimed| == |batch| && Distinct(IdsOf(claimed))
    && forall i | 0 <= i < |claimed| ::
      && claimed[i].id in st.pel && st.first <= claimed[i].id < |st.stream|
      && claimed[i].fields == st.stream[claimed[i].id]
      && batch[i] == Delivery(claimed[i].id, st.pel[claimed[i].id] + 1)
  }

  lemma ReadGives(cfg: Config, st: Store, n: nat)
    requires StoreInv(cfg, st) && n > 0 && CanAct(cfg, st, Idle, Read(n))
    ensures var (st', task') := Move(cfg, st, Idle, Read(n));
      && task'.Parsing? && |task'.batch| == n && (forall d <- task'.batch :: d.id < |st'.stream|)
      && var entries := EntriesOf(task'.batch, st');
         && NextUnread(entries, st) && task' == Parsing(task'.batch, Ones(entries), 0, [], NoLetter)
  {
    var (st', task') := Move(cfg, st, Idle, Read(n));
    OnesMatch(EntriesOf(task'.batch, st'), task'.batch, st');
  }

  lemma ClaimGives(cfg: Config, st: Store, ids: seq<EntryId>, dropped: set<EntryId>)
    requires StoreInv(cfg, st) && CanAct(cfg, st, Idle, Claim(ids, dropped))
    ensures var (st', task') := Move(cfg, st, Idle, Claim(ids, dropped));
      && (ids == [] ==> task' == Idle && IdsOf([]) == ids)
      && (ids != [] ==>
            && task'.Looking? && task' == Looking(task'.batch, map[], 0)
            && (forall d <- task'.batch :: d.id < |st'.stream|)
            && var entries := EntriesOf(task'.batch, st');
               entries != [] && IdsOf(entries) == ids && WerePending(entries, task'.batch, st))
  {
    if ids != [] {
      var (st', task') := Move(cfg, st, Idle, Claim(ids, dropped));
      forall d | d in task'.batch ensures d.id < |st'.stream| {
        assert d.id in ids && d.id in st.pel;
      }
      var entries := EntriesOf(task'.batch, st');
      assert IdsOf(entries) == ids;
      ClaimedWerePending(entries, ids, task'.batch, st, st');
    }
  }

  lemma ClaimedWerePending(claimed: seq<Entry>, ids: seq<EntryId>, batch: seq<Delivery>, st: Store, st': Store)
    requires Distinct(ids) && |batch| == |ids| && Lists(claimed, batch, st') && st'.stream == st.stream
    requires forall id <- ids :: id in st.pel && id >= st.first
    requires forall i | 0 <= i < |ids| :: batch[i].id == ids[i] && batch[i].nth == Bumped(st.pel, ids)[ids[i]]
    ensures WerePending(claimed, batch, st)
  {
    assert IdsOf(claimed) == ids;
  }

  lemma LetterIsPosted(cfg: Config, st: Store, task: Task, id: EntryId, fields: Fields, reason: string)
    requires TaskInv(cfg, st, task) && CanAct(cfg, st, task, LetterWritten)
    requires HasLetterId(task, id) && IsWriting(st, task, fields, reason)
    ensures var (st', task') := Move(cfg, st, task, LetterWritten);
      Posted(st', id, fields, reason) && task' == AfterLetter(task)
  {
    LetterFits(cfg, st, task, id);
    var letter := DeadLetter(fields, reason);
    assert Move(cfg, st, task, LetterWritten).0.dlq == st.dlq + [letter];
    assert letter in st.dlq + [letter];
  }

  /** Where a task goes once its letter is written. */
  function AfterLetter(task: Task): Task {
    match task
    case Parsing(_, _, _, _, _) => task.(letter := Written)
    case Handling(msgs, WriteLetter(_, cause)) => Handling(msgs, AckLetter(cause))
    case _ => Idle
  }

  /** Where a task goes once the entry of its letter is acked. */
  function AfterLetterAck(task: Task): Task {
    match task
    case Parsing(batch, counts, at, msgs, _) => AfterParse(batch, counts, at + 1, msgs)
    case Handling(msgs, _) => AfterHandle(msgs)
    case _ => Idle
  }

  lemma LetterIsAcked(cfg: Config, st: Store, task: Task, id: EntryId, fields: Fields, reason: string)
    requires TaskInv(cfg, st, task) && CanAct(cfg, st, task, LetterAcked)
    requires HasLetterId(task, id) && Posted(st, id, fields, reason)
    ensures var (st', task') := Move(cfg, st, task, LetterAcked);
      Buried(st', id, fields, reason) && task' == AfterLetterAck(task)
  {
    LetterFits(cfg, st, task, id);
  }

  lemma PostedGrows(st: Store, st': Store, id: EntryId, fields: Fields, reason: string)
    requires Grows(st, st') && Posted(st, id, fields, reason)
    ensures Posted(st', id, fields, reason)
  {
    HasLetterGrows(st.dlq, st'.dlq, fields, reason);
  }

  class World {
    const cfg: Config
    const me: TaskId
    const turns: nat -> Turn
    var turn: nat
    var sys: Sys
    /** The run that led here, and the actions in it that were this task's. */
    ghost var run: seq<Step>
    ghost var own: seq<Action>

    ghost predicate Valid()
      reads this
    {
      && Configured(cfg) && Legal(cfg, run) && After(cfg, run) == sys
      && own == OwnActions(run, me)
      && (forall k :: Flows(turns(k).idle) && Flows(turns(k).wait))
    }

    function Mine(): Task
      reads this
    {
      TaskOf(sys, me)
    }

    constructor (cfg: Config, me: TaskId, turns: nat -> Turn)
      requires Configured(cfg) && forall k :: Flows(turns(k).idle) && Flows(turns(k).wait)
      ensures Valid() && this.cfg == cfg && this.me == me && sys == Init()
    {
      this.cfg, this.me, this.turns, turn, sys := cfg, me, turns, 0, Init();
      run, own := [], [];
    }

    /** One step of the protocol happens. */
    method Happens(step: Step)
      requires Valid() && Enabled(cfg, sys, step)
      modifies `sys, `run, `own
      ensures Valid() && run == old(run) + [step] && sys == Next(cfg, old(sys), step)
      ensures own == old(own) + if step.Act? && step.task == me then [step.action] else []
    {
      sys := Next(cfg, sys, step);
      run := run + [step];
      assert run[..|run| - 1] == old(run);
      own := own + if step.Act? && step.task == me then [step.action] else [];
    }

    /** What every reachable state keeps, for this task. */
    lemma KnownInv()
      requires Valid()
      ensures StoreInv(cfg, sys.store) && TaskInv(cfg, sys.store, Mine())
    {
      Reachable(cfg, run);
    }

    lemma KnownShape()
      requires Valid()
      ensures WellFormed(sys.store, Mine())
    {
      KnownInv();
    }

    /** Since an earlier point of this run, history has only grown. */
    lemma GrownSince(run0: seq<Step>, st0: Store)
      requires Valid() && run0 <= run && Legal(cfg, run0) && After(cfg, run0).store == st0
      ensures Grows(st0, sys.store)
    {
      assert run == run0 + run[|run0|..];
      HistoryOnlyGrows(cfg, run0, run[|run0|..]);
    }

    /** This task acts. */
    method Take(a: Action)
      requires Valid() && CanAct(cfg, sys.store, Mine(), a)
      modifies `sys, `run, `own
      ensures Valid() && old(run) <= run && own == old(own) + [a]
      ensures WellFormed(old(sys).store, old(Mine()))
      ensures (sys.store, Mine()) == Move(cfg, old(sys).store, old(Mine()), a)
      ensures Grows(old(sys).store, sys.store)
    {
      KnownInv();
      MoveKeeps(cfg, sys.store, Mine(), a);
      Happens(Act(me, a));
    }

    /** The others run for a while. */
    method Others(steps: seq<Step>)
      requires Valid()
      modifies `sys, `run, `own
      ensures Valid() && old(run) <= run && own == old(own) && Mine() == old(Mine())
      ensures Grows(old(sys).store, sys.store)
    {
      var k := 0;
      while k < |steps|
        invariant 0 <= k <= |steps|
        invariant Valid() && old(run) <= run && own == old(own) && Mine() == old(Mine())
        invariant Grows(old(sys).store, sys.store)
      {
        var step := steps[k];
        if !(step.Act? && step.task == me) && Enabled(cfg, sys, step) {
          Reachable(cfg, run);
          StepKeeps(cfg, sys, step);
          GrowsTwice(old(sys).store, sys.store, Next(cfg, sys, step).store);
          Happens(step);
        }
        k := k + 1;
      }
    }

    /** An awaited call begins: others run, and this task may be lost. */
    method Await() returns (t: Turn, alive: bool)
      requires Valid()
      modifies this
      ensures Valid() && old(run) <= run && t == turns(old(turn)) && turn == old(turn) + 1
      ensures alive ==> own == old(own) && Mine() == old(Mine()) && Grows(old(sys).store, sys.store)
      ensures !alive ==> own == old(own) + [Crash] && Mine() == Idle
    {
      t := turns(turn);
      turn := turn + 1;
      Others(t.others);
      alive := !t.loss.LostBefore?;
      if !alive {
        Take(Crash);
      }
    }

    /** An awaited call ends: its reply may still be lost. */
    method Finish(t: Turn) returns (alive: bool)
      requires Valid()
      modifies `sys, `run, `own
      ensures Valid() && old(run) <= run
      ensures alive ==> own == old(own) && sys == old(sys)
      ensures !alive ==> own == old(own) + [Crash] && Mine() == Idle
    {
      alive := !t.loss.LostAfter?;
      if !alive {
        Take(Crash);
      }
    }

    // ----- the calls a task awaits -----

    /** The rate lookup returns, after the HTTP call it may have awaited. */
    method RateReturns(answer: RateAnswer) returns (alive: bool)
      requires Valid() && Mine().Handling? && Mine().stage.Rate? && Mine().msgs != []
      modifies this
      ensures Valid() && old(run) <= run
      ensures turn == old(turn) + if answer.FromService? then 1 else 0
      ensures alive ==>
        && own == old(own) + [RateReply(answer)]
        && RateLeadsTo(cfg, old(Mine()).msgs, old(Mine()).stage.attempt, answer, Mine())
      ensures !alive ==> Mine() == Idle
    {
      alive := true;
      if answer.FromService? {
        var t;
        t, alive := Await();
        if !alive { return; }
      }
      RateGives(cfg, sys.store, Mine().msgs, Mine().stage.attempt, answer);
      Take(RateReply(answer));
    }

    /** Parsing one entry, which awaits nothing. */
    method ParseNext()
      requires Valid() && WellFormed(sys.store, Mine()) && Mine().Parsing? && Mine().letter.NoLetter?
      modifies this
      ensures Valid() && old(run) <= run && own == old(own) + [Parse]
      ensures sys.store == old(sys).store && Mine() == OnParse(cfg, old(sys).store, old(Mine()))
      ensures WellFormed(sys.store, Mine())
    {
      Take(Parse);
      KnownInv();
    }

    /** asyncio.sleep. */
    method Sleep() returns (alive: bool)
      requires Valid()
      modifies this
      ensures Valid() && old(run) <= run && old(turn) <= turn
      ensures alive ==> own == old(own) && Mine() == old(Mine()) && Grows(old(sys).store, sys.store)
      ensures !alive ==> Mine() == Idle
    {
      var t;
      t, alive := Await();
    }

    /** XREADGROUP '>': the next unread entries, now pending with count 1, or nothing; `before` is
        the store it finds. */
    method XReadGroup(count: nat) returns (alive: bool, entries: seq<Entry>, ghost before: Store)
      requires Valid() && Mine().Idle? && count == cfg.batchSize
      modifies this
      ensures Valid() && old(run) <= run && |entries| <= count
      ensures alive ==> own == old(own) + [Read(|entries|)]
      ensures alive ==> Grows(old(sys).store, before) && NextUnread(entries, before) && Grows(before, sys.store)
      ensures alive && entries == [] ==> Mine() == Idle
      ensures alive && entries != [] ==>
        && Mine().Parsing? && Lists(entries, Mine().batch, sys.store)
        && Mine() == Parsing(Mine().batch, Ones(entries), 0, [], NoLetter)
      ensures !alive ==> Mine() == Idle
    {
      var t;
      entries := [];
      t, alive := Await();
      before := sys.store;
      if !alive { return; }
      if t.read == 0 || !CanAct(cfg, sys.store, Mine(), Read(t.read)) {
        assert Unread(sys.store) <= |sys.store.stream| by { KnownInv(); }
        Take(Read(0));
      } else {
        assert StoreInv(cfg, sys.store) by { KnownInv(); }
        ReadGives(cfg, sys.store, t.read);
        Take(Read(t.read));
        entries := EntriesOf(Mine().batch, sys.store);
      }
      alive := Finish(t);
    }

    /** XAUTOCLAIM: some idle pending entries that are still in the stream, at most `count`. */
    method XAutoClaim(count: nat)
      returns (alive: bool, claimed: seq<Entry>, ghost dropped: set<EntryId>, ghost before: Store)
      requires Valid() && Mine().Idle? && count == cfg.batchSize
      modifies this
      ensures Valid() && old(run) <= run && |claimed| <= count
      ensures alive ==> own == old(own) + [Claim(IdsOf(claimed), dropped)]
      ensures alive ==> Grows(old(sys).store, before) && Grows(before, sys.store)
      ensures alive && claimed == [] ==> Mine() == Idle
      ensures alive && claimed != [] ==>
        && Mine() == Looking(if Mine().Looking? then Mine().batch else [], map[], 0)
        && Lists(claimed, Mine().batch, sys.store) && WerePending(claimed, Mine().batch, before)
      ensures !alive ==> Mine() == Idle
    {
      var t;
      claimed, dropped := [], {};
      t, alive := Await();
      before := sys.store;
      if !alive { return; }
      var a := Claim(t.claim, t.dropped);
      if !CanAct(cfg, sys.store, Mine(), a) { a := Claim([], {}); }
      dropped := a.dropped;
      assert StoreInv(cfg, sys.store) by { KnownInv(); }
      ClaimGives(cfg, sys.store, a.ids, a.dropped);
      Take(a);
      if a.ids != [] {
        claimed := EntriesOf(Mine().batch, sys.store);
      }
      alive := Finish(t);
    }

    /** XPENDING for one id: its times_delivered, if it is still pending. */
    method XPending(id: EntryId) returns (alive: bool, delivered: Option<nat>)
      requires Valid() && Mine().Looking? && Mine().at < |Mine().batch| && id == Mine().batch[Mine().at].id
      modifies this
      ensures Valid() && old(run) <= run
      ensures alive ==>
        && own == old(own) + [Lookup] && Grows(old(sys).store, sys.store)
        && delivered == (if id in sys.store.pel then Some(sys.store.pel[id]) else None)
        && var batch, at := old(Mine()).batch, old(Mine()).at;
           var counts := old(Mine()).counts[id := if delivered.Some? then delivered.value else 1];
           Mine() == if at + 1 < |batch| then Looking(batch, counts, at + 1)
                     else Parsing(batch, counts, 0, [], NoLetter)
      ensures !alive ==> Mine() == Idle
    {
      var t;
      delivered := None;
      t, alive := Await();
      if !alive { return; }
      if id in sys.store.pel { delivered := Some(sys.store.pel[id]); }
      Take(Lookup);
      alive := Finish(t);
    }

    /** A letter is appended to the dead-letter stream. */
    method LetterAppended(ghost id: EntryId, ghost fields: Fields, ghost reason: string)
      requires Valid() && CanAct(cfg, sys.store, Mine(), LetterWritten)
      requires HasLetterId(Mine(), id) && IsWriting(sys.store, Mine(), fields, reason)
      modifies `sys, `run, `own
      ensures Valid() && old(run) <= run && own == old(own) + [LetterWritten]
      ensures Grows(old(sys).store, sys.store) && Posted(sys.store, id, fields, reason)
      ensures Mine() == AfterLetter(old(Mine()))
    {
      KnownInv();
      LetterIsPosted(cfg, sys.store, Mine(), id, fields, reason);
      Take(LetterWritten);
    }

    /** XADD of a letter to the dead-letter stream. */
    method XAdd(letter: Fields, ghost id: EntryId, ghost fields: Fields, ghost reason: string) returns (alive: bool)
      requires Valid() && CanAct(cfg, sys.store, Mine(), LetterWritten)
      requires HasLetterId(Mine(), id) && IsWriting(sys.store, Mine(), fields, reason)
      requires letter == DeadLetter(fields, reason)
      modifies this
      ensures Valid() && old(run) <= run && old(turn) <= turn
      ensures alive ==>
        && own == old(own) + [LetterWritten] && Grows(old(sys).store, sys.store)
        && Posted(sys.store, id, fields, reason) && Mine() == AfterLetter(old(Mine()))
      ensures !alive ==> Mine() == Idle
    {
      var t;
      t, alive := Await();
      if !alive { return; }
      ghost var st := sys.store;
      LetterAppended(id, fields, reason);
      GrowsTwice(old(sys).store, st, sys.store);
      alive := Finish(t);
    }

    /** An entry whose letter has been written leaves the pending list. */
    method LetterAckTakes(id: EntryId, ghost fields: Fields, ghost reason: string)
      requires Valid() && CanAct(cfg, sys.store, Mine(), LetterAcked)
      requires HasLetterId(Mine(), id) && Posted(sys.store, id, fields, reason)
      modifies `sys, `run, `own
      ensures Valid() && old(run) <= run && own == old(own) + [LetterAcked]
      ensures Grows(old(sys).store, sys.store) && Buried(sys.store, id, fields, reason)
      ensures Mine() == AfterLetterAck(old(Mine()))
    {
      KnownInv();
      LetterIsAcked(cfg, sys.store, Mine(), id, fields, reason);
      Take(LetterAcked);
    }

    /** XACK of an entry whose letter has been written. */
    method XAck(id: EntryId, ghost fields: Fields, ghost reason: string) returns (alive: bool)
      requires Valid() && CanAct(cfg, sys.store, Mine(), LetterAcked)
      requires HasLetterId(Mine(), id) && Posted(sys.store, id, fields, reason)
      modifies this
      ensures Valid() && old(run) <= run && old(turn) <= turn
      ensures alive ==>
        && own == old(own) + [LetterAcked] && Grows(old(sys).store, sys.store)
        && Buried(sys.store, id, fields, reason) && Mine() == AfterLetterAck(old(Mine()))
      ensures !alive ==> Mine() == Idle
    {
      var t;
      t, alive := Await();
      if !alive { return; }
      ghost var st := sys.store;
      PostedGrows(old(sys).store, st, id, fields, reason);
      LetterAckTakes(id, fields, reason);
      GrowsTwice(old(sys).store, st, sys.store);
      alive := Finish(t);
    }

    /** XACK of a processed entry; the error, if the call raises one.  It may have taken effect. */
    method XAckProcessed(id: EntryId) returns (alive: bool, error: Option<string>)
      requires Valid() && Mine().Handling? && Mine().stage.Ack? && Mine().msgs != []
      requires id == Mine().msgs[0].delivery.id
      modifies this
      ensures Valid() && old(run) <= run && old(turn) <= turn
      ensures alive ==> Grows(old(sys).store, sys.store)
      ensures alive && error.None? ==>
        && own == old(own) + [AckReply(true, true, "")]
        && Gone(sys.store, id) && Mine() == AfterHandle(old(Mine()).msgs)
      ensures alive && error.Some? ==>
        && (exists applied :: own == old(own) + [AckReply(false, applied, error.value)])
        && Mine() == Verdict(cfg, old(Mine()).msgs, AckFailed(error.value))
      ensures !alive ==> Mine() == Idle
    {
      var t;
      error := None;
      t, alive := Await();
      if !alive { return; }
      assert id < sys.store.cursor by {
        KnownInv();
        assert MessageInv(cfg, sys.store, Mine().msgs[0]);
      }
      if t.ackFails {
        Take(AckReply(false, t.ackApplied, t.ackText));
        error := Some(t.ackText);
      } else {
        Take(AckReply(true, true, ""));
      }
      alive := Finish(t);
    }

    /** The insert statement and its commit; `before` is the table it finds. */
    method ExecuteInsert(row: Row) returns (alive: bool, answer: DbReply, found: Stored, ghost before: seq<Row>)
      requires Valid() && Mine().Handling? && Mine().stage.Insert? && Mine().msgs != []
      requires row == RowOf(Mine().msgs[0].event, Mine().stage.rate, Mine().stage.cents)
      modifies this
      ensures Valid() && old(run) <= run && old(turn) <= turn
      ensures alive ==> own == old(own) + [InsertReply(answer)]
      ensures alive ==> InsertLeadsTo(cfg, old(Mine()), answer, found, Mine())
      ensures alive ==> old(sys).store.table <= before && Inserts(before, row, answer, sys.store.table)
      ensures alive ==> found == if HasId(before, row.id) then Duplicate else Processed
      ensures !alive ==> Mine() == Idle
    {
      var t;
      answer, found, before := Committed, Processed, [];
      t, alive := Await();
      if !alive { return; }
      answer, found, before := t.answer, Found(sys.store.table, row.id), sys.store.table;
      assert WellFormed(sys.store, Mine()) by { KnownInv(); }
      InsertGives(cfg, sys.store, Mine(), answer);
      Take(InsertReply(answer));
      alive := Finish(t);
    }
  }
}
