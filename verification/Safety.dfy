/** What every step keeps, and so every reachable state has: no entry is lost, a row is stored
    at most once and never changes, and no delivery is seen with too small a count. */
module Safety {
  import opened Errors
  import opened Converter
  import opened Events
  import opened Table
  import opened RateClients
  import opened Protocol

  // ----- when an entry is settled -----

  /** The letter carries exactly these raw fields, plus a reason. */
  predicate IsLetterOf(letter: Fields, fields: Fields) {
    "reason" in letter && IsLetter(letter, fields, letter["reason"])
  }

  predicate InDlq(st: Store, e: EntryId)
    requires e < |st.stream|
  {
    exists i | 0 <= i < |st.dlq| :: IsLetterOf(st.dlq[i], st.stream[e])
  }

  /** The entry holds an event, and a row with its id is committed. */
  predicate IsStored(cfg: Config, st: Store, e: EntryId)
    requires e < |st.stream|
  {
    var parsed := ToEvent(cfg.codec, st.stream[e]);
    parsed.Valid? && HasId(st.table, parsed.value.id)
  }

  predicate Resolved(cfg: Config, st: Store, e: EntryId)
    requires e < |st.stream|
  {
    InDlq(st, e) || IsStored(cfg, st, e)
  }

  // ----- the invariant -----

  /** The row is this event, field by field, with its amount converted at the rate it records. */
  predicate IsRowOf(row: Row, event: TransactionEvent) {
    && row.id == event.id && row.userId == event.userId && row.amount == event.amount
    && row.currency == event.currency && row.timestamp == event.timestamp
    && ConvertToUsd(event.amount, row.rate) == Some(row.amountUsd)
  }

  predicate HasSource(cfg: Config, st: Store, row: Row) {
    exists e | 0 <= e < |st.stream| ::
      && ToEvent(cfg.codec, st.stream[e]).Valid?
      && IsRowOf(row, ToEvent(cfg.codec, st.stream[e]).value)
  }

  predicate LetterHasSource(st: Store, letter: Fields) {
    exists e | 0 <= e < |st.stream| :: IsLetterOf(letter, st.stream[e])
  }

  /** The delivery was made; while its entry is pending the count has only grown since. */
  predicate Made(st: Store, d: Delivery) {
    d.id < st.cursor && d.nth >= 1 && (d.id in st.pel ==> d.nth <= st.pel[d.id])
  }

  /** An observed count is at least the delivery's own ordinal, or the entry has left the
      pending list, for good. */
  predicate Observed(st: Store, d: Delivery, count: nat) {
    d.id in st.pel ==> count >= d.nth
  }

  predicate StoreInv(cfg: Config, st: Store) {
    && st.cursor <= |st.stream| && st.first <= |st.stream|
    && (forall id <- st.pel :: id < st.cursor && st.pel[id] >= 1)
    && (forall e | 0 <= e < st.cursor :: e in st.pel || e < st.first || Resolved(cfg, st, e))
    && DistinctIds(st.table)
    && (forall row <- st.table :: HasSource(cfg, st, row))
    && (forall letter <- st.dlq :: LetterHasSource(st, letter))
    && (forall c <- st.log :: Made(st, c.delivery))
    && (forall c <- st.log :: c.pending ==> c.fate.LeftPending? && c.delivery.nth < cfg.maxDeliveries)
  }

  predicate MessageInv(cfg: Config, st: Store, m: Message) {
    && Made(st, m.delivery) && m.delivery.id < |st.stream|
    && m.raw == st.stream[m.delivery.id]
    && ToEvent(cfg.codec, m.raw) == Valid(m.event)
    && Observed(st, m.delivery, m.count)
  }

  function Deliveries(msgs: seq<Message>): seq<Delivery> {
    seq(|msgs|, i requires 0 <= i < |msgs| => msgs[i].delivery)
  }

  /** The deliveries a task still has to deal with. */
  function Held(task: Task): seq<Delivery> {
    match task
    case Idle => []
    case Looking(batch, _, _) => batch
    case Parsing(batch, _, at, msgs, _) =>
      Deliveries(msgs) + if at <= |batch| then batch[at..] else []
    case Handling(msgs, _) => Deliveries(msgs)
  }

  predicate OnePerEntry(ds: seq<Delivery>) {
    forall i, j | 0 <= i < j < |ds| :: ds[i].id != ds[j].id
  }

  predicate StageInv(cfg: Config, st: Store, m: Message, stage: Stage) {
    match stage
    case Rate(k) => 1 <= k <= cfg.rateAttempts
    case Insert(rate, cents, k) =>
      1 <= k <= cfg.dbAttempts && ConvertToUsd(m.event.amount, rate) == Some(cents)
    case Ack(_) => HasId(st.table, m.event.id)
    case WriteLetter(_, _) => true
    case AckLetter(_) => m.delivery.id < |st.stream| && InDlq(st, m.delivery.id)
  }

  predicate CountsInv(st: Store, ds: seq<Delivery>, counts: map<EntryId, nat>) {
    forall d <- ds :: d.id in counts && Observed(st, d, counts[d.id])
  }

  predicate TaskInv(cfg: Config, st: Store, task: Task) {
    && WellFormed(st, task)
    && (forall d <- Held(task) :: Made(st, d))
    && OnePerEntry(Held(task))
    && match task
       case Idle => true
       case Looking(batch, counts, at) => CountsInv(st, batch[..at], counts)
       case Parsing(batch, counts, at, msgs, letter) =>
         && CountsInv(st, batch[at..], counts)
         && (forall m <- msgs :: MessageInv(cfg, st, m))
         && (letter.Writing? ==> ToEvent(cfg.codec, st.stream[batch[at].id]).Invalid?)
         && (letter.Written? ==> InDlq(st, batch[at].id))
       case Handling(msgs, stage) =>
         && (forall m <- msgs :: MessageInv(cfg, st, m))
         && StageInv(cfg, st, msgs[0], stage)
  }

  predicate Inv(cfg: Config, s: Sys) {
    && StoreInv(cfg, s.store)
    && forall t <- s.tasks :: TaskInv(cfg, s.store, s.tasks[t])
  }

  // ----- what only grows -----

  /** Ids below the cursor never come back to the pending list, and counts there only grow. */
  predicate Grows(st: Store, st': Store) {
    && st.stream <= st'.stream && st.first <= st'.first && st.cursor <= st'.cursor
    && st.dlq <= st'.dlq && st.table <= st'.table && st.log <= st'.log
    && forall id <- st'.pel :: id >= st.cursor || (id in st.pel && st.pel[id] <= st'.pel[id])
  }

  lemma ResolvedGrows(cfg: Config, st: Store, st': Store, e: EntryId)
    requires e < |st.stream| && Grows(st, st')
    ensures InDlq(st, e) ==> InDlq(st', e)
    ensures IsStored(cfg, st, e) ==> IsStored(cfg, st', e)
  {
    if InDlq(st, e) {
      var i :| 0 <= i < |st.dlq| && IsLetterOf(st.dlq[i], st.stream[e]);
      assert st'.dlq[i] == st.dlq[i];
    }
    if IsStored(cfg, st, e) {
      IdStays(st.table, st'.table, ToEvent(cfg.codec, st.stream[e]).value.id);
    }
  }

  lemma IdStays(table: seq<Row>, table': seq<Row>, id: string)
    requires table <= table'
    ensures HasId(table, id) ==> HasId(table', id)
  {
    if HasId(table, id) {
      var i :| 0 <= i < |table| && table[i].id == id;
      assert table'[i].id == id;
    }
  }

  lemma MessageGrows(cfg: Config, st: Store, st': Store, m: Message)
    requires Grows(st, st') && MessageInv(cfg, st, m)
    ensures MessageInv(cfg, st', m)
  {}

  /** Whatever the others do, what a task relies on stays true. */
  lemma TaskGrows(cfg: Config, st: Store, st': Store, task: Task)
    requires Grows(st, st') && TaskInv(cfg, st, task)
    ensures TaskInv(cfg, st', task)
  {
    forall d | d in Held(task) ensures Made(st', d) {
      assert Made(st, d);
    }
    match task
    case Idle =>
    case Looking(batch, counts, at) =>
      assert forall d <- batch[..at] :: d in Held(task);
      CountsGrow(st, st', batch[..at], counts);
    case Parsing(batch, counts, at, msgs, letter) =>
      assert forall d <- batch[at..] :: d in Held(task);
      CountsGrow(st, st', batch[at..], counts);
      MessagesGrow(cfg, st, st', msgs);
      if letter.Written? { ResolvedGrows(cfg, st, st', batch[at].id); }
    case Handling(msgs, stage) =>
      MessagesGrow(cfg, st, st', msgs);
      StageGrows(cfg, st, st', msgs[0], stage);
  }

  lemma MessagesGrow(cfg: Config, st: Store, st': Store, msgs: seq<Message>)
    requires Grows(st, st') && forall m <- msgs :: MessageInv(cfg, st, m)
    ensures forall m <- msgs :: MessageInv(cfg, st', m)
  {
    forall m | m in msgs ensures MessageInv(cfg, st', m) { MessageGrows(cfg, st, st', m); }
  }

  lemma CountsGrow(st: Store, st': Store, ds: seq<Delivery>, counts: map<EntryId, nat>)
    requires Grows(st, st') && CountsInv(st, ds, counts)
    requires forall d <- ds :: d.id < st.cursor
    ensures CountsInv(st', ds, counts)
  {
    forall d | d in ds ensures Observed(st', d, counts[d.id]) {
      assert Observed(st, d, counts[d.id]);
    }
  }

  lemma StageGrows(cfg: Config, st: Store, st': Store, m: Message, stage: Stage)
    requires Grows(st, st') && MessageInv(cfg, st, m) && StageInv(cfg, st, m, stage)
    ensures StageInv(cfg, st', m, stage)
  {
    if stage.Ack? { IdStays(st.table, st'.table, m.event.id); }
    if stage.AckLetter? { ResolvedGrows(cfg, st, st', m.delivery.id); }
  }

  // ----- changes to the store -----

  lemma StillResolved(cfg: Config, st: Store, st': Store)
    requires Grows(st, st') && st.cursor <= |st.stream|
    ensures forall e | 0 <= e < st.cursor :: Resolved(cfg, st, e) ==> Resolved(cfg, st', e)
  {
    forall e | 0 <= e < st.cursor && Resolved(cfg, st, e) ensures Resolved(cfg, st', e) {
      ResolvedGrows(cfg, st, st', e);
    }
  }

  lemma StillSourced(cfg: Config, st: Store, st': Store)
    requires st.stream <= st'.stream
    ensures forall row :: HasSource(cfg, st, row) ==> HasSource(cfg, st', row)
    ensures forall letter :: LetterHasSource(st, letter) ==> LetterHasSource(st', letter)
  {
    forall row | HasSource(cfg, st, row) ensures HasSource(cfg, st', row) {
      var e :| 0 <= e < |st.stream| && ToEvent(cfg.codec, st.stream[e]).Valid?
        && IsRowOf(row, ToEvent(cfg.codec, st.stream[e]).value);
      assert st'.stream[e] == st.stream[e];
    }
    forall letter | LetterHasSource(st, letter) ensures LetterHasSource(st', letter) {
      var e :| 0 <= e < |st.stream| && IsLetterOf(letter, st.stream[e]);
      assert st'.stream[e] == st.stream[e];
    }
  }

  /** Changes that leave the log alone and take nothing new into the pending list. */
  lemma StoreKeeps(cfg: Config, st: Store, st': Store)
    requires StoreInv(cfg, st) && Grows(st, st') && st'.log == st.log && st'.cursor == st.cursor
    requires st'.first <= |st'.stream|
    requires forall e | 0 <= e < st.cursor :: e in st.pel ==> e in st'.pel || e < st'.first || Resolved(cfg, st', e)
    requires forall id <- st'.pel :: id in st.pel
    requires DistinctIds(st'.table)
    requires forall row <- st'.table :: row in st.table || HasSource(cfg, st', row)
    requires forall letter <- st'.dlq :: letter in st.dlq || LetterHasSource(st', letter)
    ensures StoreInv(cfg, st')
  {
    StillResolved(cfg, st, st');
    StillSourced(cfg, st, st');
    forall e | 0 <= e < st'.cursor ensures e in st'.pel || e < st'.first || Resolved(cfg, st', e) {}
    forall c | c in st'.log ensures Made(st', c.delivery) { assert Made(st, c.delivery); }
  }

  lemma CompletedKeeps(cfg: Config, st: Store, m: Message, fate: Fate, cause: Cause)
    requires StoreInv(cfg, st) && Made(st, m.delivery)
    requires m.delivery.id in st.pel ==> fate.LeftPending? && m.delivery.nth < cfg.maxDeliveries
    ensures Grows(st, Completed(st, m, fate, cause)) && StoreInv(cfg, Completed(st, m, fate, cause))
  {
    var st' := Completed(st, m, fate, cause);
    StillResolved(cfg, st, st');
    StillSourced(cfg, st, st');
    forall e | 0 <= e < st'.cursor ensures e in st'.pel || e < st'.first || Resolved(cfg, st', e) {}
    forall c | c in st'.log
      ensures Made(st', c.delivery)
      ensures c.pending ==> c.fate.LeftPending? && c.delivery.nth < cfg.maxDeliveries
    {
      assert c in st.log || c == st'.log[|st.log|];
    }
  }

  lemma AcknowledgedKeeps(cfg: Config, st: Store, id: EntryId)
    requires StoreInv(cfg, st) && id < |st.stream| && Resolved(cfg, st, id)
    ensures Grows(st, Acknowledged(st, id)) && StoreInv(cfg, Acknowledged(st, id))
  {
    var st' := Acknowledged(st, id);
    ResolvedGrows(cfg, st, st', id);
    StoreKeeps(cfg, st, st');
  }

  lemma InsertKeeps(cfg: Config, st: Store, e: EntryId, event: TransactionEvent, row: Row)
    requires StoreInv(cfg, st) && e < |st.stream|
    requires ToEvent(cfg.codec, st.stream[e]) == Valid(event) && IsRowOf(row, event)
    ensures var st' := st.(table := InsertIgnore(st.table, row)); Grows(st, st') && StoreInv(cfg, st')
  {
    var st' := st.(table := InsertIgnore(st.table, row));
    assert HasSource(cfg, st', row);
    StoreKeeps(cfg, st, st');
  }

  lemma LetterKeeps(cfg: Config, st: Store, e: EntryId, reason: string)
    requires StoreInv(cfg, st) && e < |st.stream|
    ensures var st' := st.(dlq := st.dlq + [DeadLetter(st.stream[e], reason)]);
      Grows(st, st') && StoreInv(cfg, st') && InDlq(st', e)
  {
    var letter := DeadLetter(st.stream[e], reason);
    var st' := st.(dlq := st.dlq + [letter]);
    assert IsLetterOf(letter, st'.stream[e]);
    assert st'.dlq[|st.dlq|] == letter;
    StoreKeeps(cfg, st, st');
  }

  lemma PublishKeeps(cfg: Config, st: Store, fields: Fields, first: nat)
    requires StoreInv(cfg, st) && CanPublish(cfg, st, first)
    ensures var st' := st.(stream := st.stream + [fields], first := first);
      Grows(st, st') && StoreInv(cfg, st')
  {
    var st' := st.(stream := st.stream + [fields], first := first);
    StoreKeeps(cfg, st, st');
  }

  // ----- moves of a task -----

  lemma NextMessage(cfg: Config, st: Store, msgs: seq<Message>, stage: Stage)
    requires Configured(cfg) && TaskInv(cfg, st, Handling(msgs, stage))
    ensures TaskInv(cfg, st, AfterHandle(msgs))
  {
    if |msgs| > 1 {
      assert Held(AfterHandle(msgs)) == Held(Handling(msgs, stage))[1..];
    }
  }

  lemma SameMessages(cfg: Config, st: Store, msgs: seq<Message>, stage: Stage, stage': Stage)
    requires TaskInv(cfg, st, Handling(msgs, stage)) && StageInv(cfg, st, msgs[0], stage')
    ensures TaskInv(cfg, st, Handling(msgs, stage'))
  {
    assert Held(Handling(msgs, stage')) == Held(Handling(msgs, stage));
  }

  lemma FailureKeeps(cfg: Config, st: Store, msgs: seq<Message>, stage: Stage, cause: Cause)
    requires Configured(cfg) && StoreInv(cfg, st) && TaskInv(cfg, st, Handling(msgs, stage))
    requires IsFailure(msgs[0].event.currency, cause)
    ensures var (st', task') := OnFailure(cfg, st, msgs, cause);
      Grows(st, st') && StoreInv(cfg, st') && TaskInv(cfg, st', task')
  {
    var (st', task') := OnFailure(cfg, st, msgs, cause);
    if LeavesPending(cfg, msgs[0].count, RaisedBy(msgs[0].event.currency, cause)) {
      assert MessageInv(cfg, st, msgs[0]);
      CompletedKeeps(cfg, st, msgs[0], LeftPending, cause);
      NextMessage(cfg, st, msgs, stage);
      TaskGrows(cfg, st, st', task');
    } else {
      SameMessages(cfg, st, msgs, stage, task'.stage);
    }
  }

  lemma GrowsTwice(a: Store, b: Store, c: Store)
    requires Grows(a, b) && Grows(b, c)
    ensures Grows(a, c)
  {}

  lemma RateKeeps(cfg: Config, st: Store, task: Task, answer: RateAnswer)
    requires Configured(cfg) && StoreInv(cfg, st) && TaskInv(cfg, st, task)
    requires task.Handling? && task.stage.Rate?
    ensures var (st', task') := OnRate(cfg, st, task.msgs, task.stage.attempt, answer);
      Grows(st, st') && StoreInv(cfg, st') && TaskInv(cfg, st', task')
  {
    var msgs, k := task.msgs, task.stage.attempt;
    var reply := Replied(msgs[0].event.currency, answer);
    if reply.Ok? && ConvertToUsd(msgs[0].event.amount, reply.value).Some? {
      SameMessages(cfg, st, msgs, task.stage,
                   Insert(reply.value, ConvertToUsd(msgs[0].event.amount, reply.value).value, 1));
    } else if reply.Err? && Retries(reply.failure, k, cfg.rateAttempts) {
      SameMessages(cfg, st, msgs, task.stage, Rate(k + 1));
    } else {
      FailureKeeps(cfg, st, msgs, task.stage,
                   if reply.Ok? then NotConvertible else RateFailed(answer.reply));
    }
  }

  lemma InsertReplyKeeps(cfg: Config, st: Store, task: Task, answer: DbReply)
    requires Configured(cfg) && StoreInv(cfg, st) && TaskInv(cfg, st, task)
    requires task.Handling? && task.stage.Insert?
    ensures var (st', task') := OnInsert(cfg, st, task.msgs, task.stage, answer);
      Grows(st, st') && StoreInv(cfg, st') && TaskInv(cfg, st', task')
  {
    var msgs, stage := task.msgs, task.stage;
    var event := msgs[0].event;
    var row := RowOf(event, stage.rate, stage.cents);
    assert MessageInv(cfg, st, msgs[0]);
    InsertKeeps(cfg, st, msgs[0].delivery.id, event, row);
    var inserted := st.(table := InsertIgnore(st.table, row));
    TaskGrows(cfg, st, inserted, task);
    if answer.Committed? {
      SameMessages(cfg, inserted, msgs, stage, Ack(Found(st.table, row.id)));
    } else {
      var after := if answer.applied then inserted else st;
      if Retries(Reraised(answer.error), stage.attempt, cfg.dbAttempts) {
        SameMessages(cfg, after, msgs, stage, stage.(attempt := stage.attempt + 1));
      } else {
        FailureKeeps(cfg, after, msgs, stage, InsertFailed(answer.error));
        GrowsTwice(st, after, OnFailure(cfg, after, msgs, InsertFailed(answer.error)).0);
      }
    }
  }

  lemma AckReplyKeeps(cfg: Config, st: Store, task: Task, a: Action)
    requires Configured(cfg) && StoreInv(cfg, st) && TaskInv(cfg, st, task)
    requires a.AckReply? && CanAct(cfg, st, task, a)
    ensures var (st', task') := Move(cfg, st, task, a);
      Grows(st, st') && StoreInv(cfg, st') && TaskInv(cfg, st', task')
  {
    var msgs, d := task.msgs, task.msgs[0].delivery;
    assert MessageInv(cfg, st, msgs[0]);
    var after := if a.applied then Acknowledged(st, d.id) else st;
    if a.applied { AcknowledgedKeeps(cfg, st, d.id); }
    TaskGrows(cfg, st, after, task);
    if a.ok {
      FinishedKeeps(cfg, after, msgs, task.stage, Acked, NoFailure);
      GrowsTwice(st, after, Completed(after, msgs[0], Acked, NoFailure));
    } else {
      FailureKeeps(cfg, after, msgs, task.stage, AckFailed(a.text));
      GrowsTwice(st, after, OnFailure(cfg, after, msgs, AckFailed(a.text)).0);
    }
  }

  lemma FinishedKeeps(cfg: Config, st: Store, msgs: seq<Message>, stage: Stage, fate: Fate, cause: Cause)
    requires Configured(cfg) && StoreInv(cfg, st) && TaskInv(cfg, st, Handling(msgs, stage))
    requires msgs[0].delivery.id !in st.pel
    ensures var st' := Completed(st, msgs[0], fate, cause);
      Grows(st, st') && StoreInv(cfg, st') && TaskInv(cfg, st', AfterHandle(msgs))
  {
    assert MessageInv(cfg, st, msgs[0]);
    CompletedKeeps(cfg, st, msgs[0], fate, cause);
    NextMessage(cfg, st, msgs, stage);
    TaskGrows(cfg, st, Completed(st, msgs[0], fate, cause), AfterHandle(msgs));
  }

  lemma Without(ds: seq<Delivery>, k: nat)
    requires k < |ds| && OnePerEntry(ds)
    ensures OnePerEntry(ds[..k] + ds[k + 1..])
    ensures forall d <- ds[..k] + ds[k + 1..] :: d in ds
  {}

  /** The messages after one entry of the batch has been parsed or dead-lettered. */
  predicate Extends(task: Task, msgs: seq<Message>)
    requires task.Parsing? && task.at < |task.batch|
  {
    msgs == task.msgs
    || (|msgs| == |task.msgs| + 1 && task.msgs <= msgs && msgs[|task.msgs|].delivery == task.batch[task.at])
  }

  lemma DeliveriesExtend(task: Task, msgs: seq<Message>)
    requires task.Parsing? && task.at < |task.batch| && Extends(task, msgs)
    ensures msgs == task.msgs || Deliveries(msgs) == Deliveries(task.msgs) + [task.batch[task.at]]
  {}

  lemma HeldAfterParse(task: Task, msgs: seq<Message>)
    requires task.Parsing? && task.at < |task.batch| && Extends(task, msgs) && OnePerEntry(Held(task))
    ensures var task' := AfterParse(task.batch, task.counts, task.at + 1, msgs);
      && OnePerEntry(Held(task')) && (forall d <- Held(task') :: d in Held(task))
      && forall d <- Held(task) :: d in Held(task') || (msgs == task.msgs && d == task.batch[task.at])
  {
    DeliveriesExtend(task, msgs);
    HeldThen(task.batch, task.counts, task.at + 1, msgs);
    assert task.batch[task.at..] == [task.batch[task.at]] + task.batch[task.at + 1..];
    OneLess(Deliveries(task.msgs), task.batch[task.at], task.batch[task.at + 1..]);
  }

  lemma HeldThen(batch: seq<Delivery>, counts: map<EntryId, nat>, at: nat, msgs: seq<Message>)
    requires at <= |batch|
    ensures Held(AfterParse(batch, counts, at, msgs)) == Deliveries(msgs) + batch[at..]
  {
    assert at == |batch| ==> batch[at..] == [];
  }

  /** A delivery in the middle joins those before it, or goes. */
  lemma OneLess(done: seq<Delivery>, d: Delivery, rest: seq<Delivery>)
    requires OnePerEntry(done + ([d] + rest))
    ensures done + [d] + rest == done + ([d] + rest)
    ensures OnePerEntry(done + rest)
    ensures forall x <- done + rest :: x in done + ([d] + rest)
    ensures forall x <- done + ([d] + rest) :: x in done + rest || x == d
  {
    var ds := done + ([d] + rest);
    Without(ds, |done|);
    assert ds[..|done|] == done && ds[|done| + 1..] == rest;
  }

  lemma ParsedOne(cfg: Config, st: Store, task: Task, msgs: seq<Message>)
    requires Configured(cfg) && TaskInv(cfg, st, task) && task.Parsing? && Extends(task, msgs)
    requires forall m <- msgs :: MessageInv(cfg, st, m)
    ensures TaskInv(cfg, st, AfterParse(task.batch, task.counts, task.at + 1, msgs))
  {
    HeldAfterParse(task, msgs);
    CountsLater(st, task.batch, task.at, task.counts);
  }

  lemma CountsLater(st: Store, batch: seq<Delivery>, at: nat, counts: map<EntryId, nat>)
    requires at < |batch| && CountsInv(st, batch[at..], counts)
    ensures CountsInv(st, batch[at + 1..], counts)
  {
    assert batch[at..] == [batch[at]] + batch[at + 1..];
  }

  lemma ParsedMessage(cfg: Config, st: Store, task: Task, event: TransactionEvent)
    requires TaskInv(cfg, st, task) && task.Parsing?
    requires ToEvent(cfg.codec, st.stream[task.batch[task.at].id]) == Valid(event)
    ensures var d := task.batch[task.at];
      MessageInv(cfg, st, Message(d, event, task.counts[d.id], st.stream[d.id]))
  {
    var d := task.batch[task.at];
    assert d == task.batch[task.at..][0] && d in task.batch[task.at..];
    assert Made(st, d) by { assert d in Held(task); }
  }

  lemma ReadableKeeps(cfg: Config, st: Store, task: Task, event: TransactionEvent)
    requires Configured(cfg) && TaskInv(cfg, st, task) && task.Parsing?
    requires ToEvent(cfg.codec, st.stream[task.batch[task.at].id]) == Valid(event)
    ensures var d := task.batch[task.at];
      var m := Message(d, event, task.counts[d.id], st.stream[d.id]);
      TaskInv(cfg, st, AfterParse(task.batch, task.counts, task.at + 1, task.msgs + [m]))
  {
    var d := task.batch[task.at];
    ParsedMessage(cfg, st, task, event);
    ParsedOne(cfg, st, task, task.msgs + [Message(d, event, task.counts[d.id], st.stream[d.id])]);
  }

  lemma ParseKeeps(cfg: Config, st: Store, task: Task)
    requires Configured(cfg) && TaskInv(cfg, st, task) && task.Parsing?
    ensures TaskInv(cfg, st, OnParse(cfg, st, task))
  {
    match ToEvent(cfg.codec, st.stream[task.batch[task.at].id])
    case Valid(event) => ReadableKeeps(cfg, st, task, event);
    case Invalid(error) => LetterOnly(cfg, st, task, Writing("unparseable: " + Text(error)));
  }

  lemma LetterOnly(cfg: Config, st: Store, task: Task, letter: Letter)
    requires TaskInv(cfg, st, task) && task.Parsing?
    requires letter.Writing? ==> ToEvent(cfg.codec, st.stream[task.batch[task.at].id]).Invalid?
    requires letter.Written? ==> InDlq(st, task.batch[task.at].id)
    ensures TaskInv(cfg, st, task.(letter := letter))
  {
    assert Held(task.(letter := letter)) == Held(task);
  }

  lemma LetterWrittenKeeps(cfg: Config, st: Store, task: Task)
    requires StoreInv(cfg, st) && TaskInv(cfg, st, task) && CanAct(cfg, st, task, LetterWritten)
    ensures var (st', task') := Move(cfg, st, task, LetterWritten);
      Grows(st, st') && StoreInv(cfg, st') && TaskInv(cfg, st', task')
  {
    var (st', task') := Move(cfg, st, task, LetterWritten);
    if task.Parsing? {
      LetterKeeps(cfg, st, task.batch[task.at].id, task.letter.reason);
      TaskGrows(cfg, st, st', task);
      LetterOnly(cfg, st', task, Written);
    } else {
      assert MessageInv(cfg, st, task.msgs[0]);
      LetterKeeps(cfg, st, task.msgs[0].delivery.id, task.stage.reason);
      TaskGrows(cfg, st, st', task);
      SameMessages(cfg, st', task.msgs, task.stage, AckLetter(task.stage.cause));
    }
  }

  lemma LetterAckedKeeps(cfg: Config, st: Store, task: Task)
    requires Configured(cfg) && StoreInv(cfg, st) && TaskInv(cfg, st, task)
    requires CanAct(cfg, st, task, LetterAcked)
    ensures var (st', task') := Move(cfg, st, task, LetterAcked);
      Grows(st, st') && StoreInv(cfg, st') && TaskInv(cfg, st', task')
  {
    var id := if task.Parsing? then task.batch[task.at].id else task.msgs[0].delivery.id;
    var after := Acknowledged(st, id);
    AcknowledgedKeeps(cfg, st, id);
    TaskGrows(cfg, st, after, task);
    if task.Parsing? {
      ParsedOne(cfg, after, task, task.msgs);
    } else {
      FinishedKeeps(cfg, after, task.msgs, task.stage, DeadLettered, task.stage.cause);
      GrowsTwice(st, after, Completed(after, task.msgs[0], DeadLettered, task.stage.cause));
    }
  }

  lemma LookupCounts(st: Store, batch: seq<Delivery>, counts: map<EntryId, nat>, at: nat, count: nat)
    requires at < |batch| && OnePerEntry(batch) && CountsInv(st, batch[..at], counts)
    requires Observed(st, batch[at], count)
    ensures CountsInv(st, batch[..at + 1], counts[batch[at].id := count])
  {
    forall d | d in batch[..at + 1]
      ensures d == batch[at] || (d in batch[..at] && d.id != batch[at].id)
    {
      var i :| 0 <= i < at + 1 && batch[i] == d;
      if i < at { assert batch[..at][i] == d; }
    }
  }

  lemma LookupKeeps(cfg: Config, st: Store, task: Task)
    requires StoreInv(cfg, st) && TaskInv(cfg, st, task) && task.Looking?
    ensures var (st', task') := Move(cfg, st, task, Lookup); st' == st && TaskInv(cfg, st, task')
  {
    var batch, at := task.batch, task.at;
    var id := batch[at].id;
    assert Made(st, batch[at]);
    LookupCounts(st, batch, task.counts, at, if id in st.pel then st.pel[id] else 1);
    if at + 1 == |batch| {
      assert batch[..at + 1] == batch == batch[0..];
      assert Held(Move(cfg, st, task, Lookup).1) == batch;
    }
  }

  lemma ReadKeeps(cfg: Config, st: Store, n: nat)
    requires StoreInv(cfg, st) && CanAct(cfg, st, Idle, Read(n))
    ensures var (st', task') := Move(cfg, st, Idle, Read(n));
      Grows(st, st') && StoreInv(cfg, st') && TaskInv(cfg, st', task')
  {
    if n > 0 {
      ReadStoreKeeps(cfg, st, n);
      ReadTaskKeeps(cfg, st, n);
    }
  }

  lemma ReadStoreKeeps(cfg: Config, st: Store, n: nat)
    requires StoreInv(cfg, st) && n > 0 && CanAct(cfg, st, Idle, Read(n))
    ensures var st' := Move(cfg, st, Idle, Read(n)).0; Grows(st, st') && StoreInv(cfg, st')
  {
    var st' := Move(cfg, st, Idle, Read(n)).0;
    ReadPending(cfg, st, n);
    StillResolved(cfg, st, st');
    StillSourced(cfg, st, st');
    forall e | 0 <= e < st'.cursor ensures e in st'.pel || e < st'.first || Resolved(cfg, st', e) {}
    forall c | c in st'.log ensures Made(st', c.delivery) { assert Made(st, c.delivery); }
  }

  lemma ReadTaskKeeps(cfg: Config, st: Store, n: nat)
    requires StoreInv(cfg, st) && n > 0 && CanAct(cfg, st, Idle, Read(n))
    ensures var (st', task') := Move(cfg, st, Idle, Read(n)); TaskInv(cfg, st', task')
  {
    var task' := Move(cfg, st, Idle, Read(n)).1;
    ReadPending(cfg, st, n);
    assert Held(task') == task'.batch;
  }

  /** A read makes exactly the next n entries pending, once each. */
  lemma ReadPending(cfg: Config, st: Store, n: nat)
    requires n > 0 && CanAct(cfg, st, Idle, Read(n)) && (forall id <- st.pel :: id < st.cursor)
    ensures var (st', task') := Move(cfg, st, Idle, Read(n));
      && (forall id :: id in st'.pel <==> id in st.pel || Unread(st) <= id < Unread(st) + n)
      && (forall id <- st'.pel :: st'.pel[id] == if id in st.pel then st.pel[id] else 1)
      && (forall d <- task'.batch :: d.id in task'.counts && task'.counts[d.id] == 1)
  {
    var (st', task') := Move(cfg, st, Idle, Read(n));
    var from := Unread(st);
    forall id | from <= id < from + n ensures id in st'.pel {
      assert task'.batch[id - from].id == id;
    }
  }

  lemma ClaimKeeps(cfg: Config, st: Store, ids: seq<EntryId>, dropped: set<EntryId>)
    requires StoreInv(cfg, st) && CanAct(cfg, st, Idle, Claim(ids, dropped))
    ensures var (st', task') := Move(cfg, st, Idle, Claim(ids, dropped));
      Grows(st, st') && StoreInv(cfg, st') && TaskInv(cfg, st', task')
  {
    var (st', task') := Move(cfg, st, Idle, Claim(ids, dropped));
    assert forall id <- st'.pel :: id in st.pel;
    StoreKeeps(cfg, st, st');
    if ids != [] {
      assert |Held(task')| == |ids|;
      assert forall i | 0 <= i < |ids| :: Held(task')[i].id == ids[i] && ids[i] in ids;
    }
  }

  /** Every action keeps the store's invariant, the acting task's, and what others rely on. */
  lemma MoveKeeps(cfg: Config, st: Store, task: Task, a: Action)
    requires Configured(cfg) && StoreInv(cfg, st) && TaskInv(cfg, st, task) && CanAct(cfg, st, task, a)
    ensures var (st', task') := Move(cfg, st, task, a);
      Grows(st, st') && StoreInv(cfg, st') && TaskInv(cfg, st', task')
  {
    match a
    case Read(n) => ReadKeeps(cfg, st, n);
    case Claim(ids, dropped) => ClaimKeeps(cfg, st, ids, dropped);
    case Lookup => LookupKeeps(cfg, st, task);
    case Parse => ParseKeeps(cfg, st, task);
    case RateReply(answer) => RateKeeps(cfg, st, task, answer);
    case InsertReply(answer) => InsertReplyKeeps(cfg, st, task, answer);
    case AckReply(_, _, _) => AckReplyKeeps(cfg, st, task, a);
    case LetterWritten => LetterWrittenKeeps(cfg, st, task);
    case LetterAcked => LetterAckedKeeps(cfg, st, task);
    case Crash =>
  }

  lemma StepKeeps(cfg: Config, s: Sys, step: Step)
    requires Configured(cfg) && Inv(cfg, s) && Enabled(cfg, s, step)
    ensures Grows(s.store, Next(cfg, s, step).store) && Inv(cfg, Next(cfg, s, step))
  {
    match step
    case Publish(fields, first) =>
      PublishKeeps(cfg, s.store, fields, first);
      OthersKeep(cfg, s, Next(cfg, s, step).store);
    case Act(t, a) =>
      MoveKeeps(cfg, s.store, TaskOf(s, t), a);
      OthersKeep(cfg, s, Move(cfg, s.store, TaskOf(s, t), a).0);
  }

  lemma OthersKeep(cfg: Config, s: Sys, st': Store)
    requires Inv(cfg, s) && Grows(s.store, st')
    ensures forall t <- s.tasks :: TaskInv(cfg, st', s.tasks[t])
  {
    forall t | t in s.tasks ensures TaskInv(cfg, st', s.tasks[t]) {
      TaskGrows(cfg, s.store, st', s.tasks[t]);
    }
  }

  // ----- results about every run -----

  lemma {:induction false} Reachable(cfg: Config, run: seq<Step>)
    requires Configured(cfg) && Legal(cfg, run)
    ensures Inv(cfg, After(cfg, run))
  {
    if run != [] {
      Reachable(cfg, run[..|run| - 1]);
      StepKeeps(cfg, After(cfg, run[..|run| - 1]), run[|run| - 1]);
    }
  }

  lemma ActKeepsStream(cfg: Config, st: Store, task: Task, a: Action)
    requires WellFormed(st, task) && CanAct(cfg, st, task, a)
    ensures Move(cfg, st, task, a).0.stream == st.stream && Move(cfg, st, task, a).0.first == st.first
  {}

  /** Trimming never goes below `maxlen` entries, and without one nothing is trimmed. */
  predicate TrimsLate(cfg: Config, st: Store) {
    st.first > 0 ==> cfg.maxlen.Some? && |st.stream| - st.first >= cfg.maxlen.value
  }

  lemma {:induction false} Untrimmed(cfg: Config, run: seq<Step>)
    requires Legal(cfg, run)
    ensures TrimsLate(cfg, After(cfg, run).store)
  {
    if run != [] {
      var front, step := run[..|run| - 1], run[|run| - 1];
      Untrimmed(cfg, front);
      if step.Act? {
        ActKeepsStream(cfg, After(cfg, front).store, TaskOf(After(cfg, front), step.task), step.action);
      }
    }
  }

  /** No event is lost: after any run of any number of tasks, with crashes anywhere, every entry
      ever published is still undelivered, pending, trimmed away, or resolved: a row with its id
      is committed, or a dead letter carries its raw fields.  Only entries with at least `maxlen`
      newer ones have been trimmed. */
  lemma NoEventLost(cfg: Config, run: seq<Step>, e: EntryId)
    requires Configured(cfg) && Legal(cfg, run) && e < |After(cfg, run).store.stream|
    ensures var st := After(cfg, run).store;
      && (e >= Unread(st) || e in st.pel || e < st.first || Resolved(cfg, st, e))
      && (e < st.first ==> cfg.maxlen.Some? && |st.stream| - e > cfg.maxlen.value)
  {
    Reachable(cfg, run);
    Untrimmed(cfg, run);
  }

  /** Without trimming, whatever has been delivered and is no longer pending is resolved. */
  lemma AckedIsResolved(cfg: Config, run: seq<Step>, e: EntryId)
    requires Configured(cfg) && Legal(cfg, run) && cfg.maxlen.None?
    requires e < |After(cfg, run).store.stream|
    ensures var st := After(cfg, run).store; e >= st.cursor || e in st.pel || Resolved(cfg, st, e)
  {
    Reachable(cfg, run);
    Untrimmed(cfg, run);
  }

  /** Exactly-once effect: at most one row per id, whatever was redelivered or committed without
      being reported, and every row is a published event converted at the rate it records. */
  lemma ExactlyOnceEffect(cfg: Config, run: seq<Step>)
    requires Configured(cfg) && Legal(cfg, run)
    ensures var st := After(cfg, run).store;
      && DistinctIds(st.table)
      && (forall row <- st.table :: HasSource(cfg, st, row))
      && (forall letter <- st.dlq :: LetterHasSource(st, letter))
  {
    Reachable(cfg, run);
  }

  lemma {:induction false} PrefixIsLegal(cfg: Config, run: seq<Step>, more: seq<Step>)
    requires Legal(cfg, run + more)
    ensures Legal(cfg, run)
  {
    if more == [] {
      assert run + more == run;
    } else {
      assert (run + more)[..|run + more| - 1] == run + more[..|more| - 1];
      PrefixIsLegal(cfg, run, more[..|more| - 1]);
    }
  }

  /** From any point of a run on, rows and dead letters are only added, never changed or removed,
      and an entry that has left the pending list stays out of it. */
  lemma {:induction false} HistoryOnlyGrows(cfg: Config, run: seq<Step>, more: seq<Step>)
    requires Configured(cfg) && Legal(cfg, run + more)
    ensures Legal(cfg, run)
    ensures var st, st' := After(cfg, run).store, After(cfg, run + more).store;
      && Grows(st, st')
      && (forall e | 0 <= e < st.cursor && e !in st.pel :: e !in st'.pel)
  {
    PrefixIsLegal(cfg, run, more);
    if more == [] {
      assert run + more == run;
    } else {
      var front := run + more[..|more| - 1];
      assert (run + more)[..|run + more| - 1] == front;
      HistoryOnlyGrows(cfg, run, more[..|more| - 1]);
      Reachable(cfg, front);
      StepKeeps(cfg, After(cfg, front), more[|more| - 1]);
      GrowsTwice(After(cfg, run).store, After(cfg, front).store, After(cfg, run + more).store);
    }
  }

  /** "Stored" and "dead-lettered" do not exclude each other: whenever the ack of a processed
      message raises, whether or not it took effect, the entry ends up as both. */
  lemma FailedAckLeavesBoth(cfg: Config, st: Store, task: Task, applied: bool, text: string)
    requires Configured(cfg) && StoreInv(cfg, st) && TaskInv(cfg, st, task)
    requires task.Handling? && task.stage.Ack?
    ensures var (st1, task1) := Move(cfg, st, task, AckReply(false, applied, text));
      CanAct(cfg, st1, task1, LetterWritten) && WellFormed(st1, task1)
      && var st2, e := Move(cfg, st1, task1, LetterWritten).0, task.msgs[0].delivery.id;
         e < |st2.stream| && InDlq(st2, e) && IsStored(cfg, st2, e)
  {
    var e := task.msgs[0].delivery.id;
    assert MessageInv(cfg, st, task.msgs[0]);
    AckReplyKeeps(cfg, st, task, AckReply(false, applied, text));
    var (st1, task1) := Move(cfg, st, task, AckReply(false, applied, text));
    ResolvedGrows(cfg, st, st1, e);
    LetterWrittenKeeps(cfg, st1, task1);
    var (st2, task2) := Move(cfg, st1, task1, LetterWritten);
    ResolvedGrows(cfg, st1, st2, e);
    assert MessageInv(cfg, st2, task2.msgs[0]);
  }
}
