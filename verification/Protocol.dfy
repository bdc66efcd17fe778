/** The delivery protocol as a transition system: a stream with one consumer group, its
    dead-letter stream, the table, and any number of tasks running consume or reclaim loops.

    Every awaited call is one step.  All nondeterminism is in the step itself: which entries a
    call returns, what a downstream answers, and whether a failed call took effect. */
module Protocol {
  import opened Errors
  import opened Converter
  import opened Events
  import opened Table
  import opened RateClients

  /** Stream ids only matter for their order, so they are positions in the stream's history. */
  type EntryId = nat
  type TaskId = nat

  datatype Config = Config(
    maxDeliveries: nat, batchSize: nat, rateAttempts: nat, dbAttempts: nat,
    maxlen: Option<nat>, codec: Codec)

  /** The bounds the settings are validated against. */
  predicate Configured(cfg: Config) {
    cfg.maxDeliveries >= 1 && cfg.rateAttempts >= 1 && cfg.dbAttempts >= 1
  }

  // ----- shared state -----

  /** One delivery of an entry; `nth` is its times_delivered when it was made.  The code does
      not see `nth` here: a reclaim has to look the count up in a later call. */
  datatype Delivery = Delivery(id: EntryId, nth: nat)

  datatype Fate = Acked | DeadLettered | LeftPending

  /** Why processing a message failed: the reply, the conversion or the call that raised. */
  datatype Cause =
    | NoFailure
    | RateFailed(reply: HttpReply)
    | NotConvertible
    | InsertFailed(error: DbError)
    | AckFailed(text: string)

  /** History: a call of `handle` that ran to its end, the count it went by, what had failed, and
      whether the entry was pending then. */
  datatype Completion = Completion(delivery: Delivery, count: nat, fate: Fate, cause: Cause, pending: bool)

  /** `stream` keeps every entry ever added; those below `first` have been trimmed.  `cursor` is
      one past the last-delivered id, `pel` maps each pending entry to its times_delivered. */
  datatype Store = Store(
    stream: seq<Fields>, first: nat, cursor: nat, pel: map<EntryId, nat>,
    dlq: seq<Fields>, table: seq<Row>, log: seq<Completion>)

  // ----- what a task holds between two awaited calls -----

  /** A StreamMessage; `delivery.nth` is history. */
  datatype Message = Message(delivery: Delivery, event: TransactionEvent, count: nat, raw: Fields)

  /** Progress of `_dead_letter_fields` inside `_parse_entries`. */
  datatype Letter = NoLetter | Writing(reason: string) | Written

  datatype Stored = Processed | Duplicate

  /** Progress of `handle` for one message: the next call it awaits; `cause` is history. */
  datatype Stage =
    | Rate(attempt: nat)
    | Insert(rate: Decimal, cents: int, attempt: nat)
    | Ack(outcome: Stored)
    | WriteLetter(reason: string, cause: Cause)
    | AckLetter(cause: Cause)

  datatype Task =
    | Idle
    | Looking(batch: seq<Delivery>, counts: map<EntryId, nat>, at: nat)
    | Parsing(batch: seq<Delivery>, counts: map<EntryId, nat>, at: nat, msgs: seq<Message>, letter: Letter)
    | Handling(msgs: seq<Message>, stage: Stage)

  datatype Sys = Sys(store: Store, tasks: map<TaskId, Task>)

  function Init(): Sys {
    Sys(Store([], 0, 0, map[], [], [], []), map[])
  }

  function TaskOf(s: Sys, t: TaskId): Task {
    if t in s.tasks then s.tasks[t] else Idle
  }

  // ----- steps -----

  datatype DbReply = Committed | Broke(error: DbError, applied: bool)

  datatype Action =
    | Read(n: nat)                                        // XREADGROUP '>' returns n entries, or none
    | Claim(ids: seq<EntryId>, dropped: set<EntryId>)     // XAUTOCLAIM
    | Lookup                                              // XPENDING for one claimed entry
    | Parse                                               // one entry of the batch is parsed
    | RateReply(lookup: RateAnswer)                       // one rate lookup
    | InsertReply(answer: DbReply)
    | AckReply(ok: bool, applied: bool, text: string)     // XACK after a successful process
    | LetterWritten                                       // XADD to the dead-letter stream
    | LetterAcked                                         // XACK after it
    | Crash                                               // crash, cancellation, or a Redis error

  datatype Step =
    | Publish(fields: Fields, first: nat)                 // XADD, possibly trimming up to `first`
    | Act(task: TaskId, action: Action)

  function Max(a: nat, b: nat): nat {
    if a < b then b else a
  }

  /** Where XREADGROUP continues: trimmed entries are skipped. */
  function Unread(st: Store): nat {
    Max(st.cursor, st.first)
  }

  predicate Distinct<T(==)>(s: seq<T>) {
    forall i, j | 0 <= i < j < |s| :: s[i] != s[j]
  }

  predicate CanPublish(cfg: Config, st: Store, first: nat) {
    && st.first <= first <= |st.stream| + 1
    && (first > st.first ==> cfg.maxlen.Some? && |st.stream| + 1 - first >= cfg.maxlen.value)
  }

  predicate CanAct(cfg: Config, st: Store, task: Task, a: Action) {
    match a
    case Read(n) => task.Idle? && n <= cfg.batchSize && Unread(st) + n <= |st.stream|
    case Claim(ids, dropped) =>
      && task.Idle? && |ids| <= cfg.batchSize && Distinct(ids)
      && (forall id <- ids :: id in st.pel && id >= st.first)
      && (forall id <- dropped :: id in st.pel && id < st.first)
    case Lookup => task.Looking?
    case Parse => task.Parsing? && task.letter.NoLetter?
    case RateReply(_) => task.Handling? && task.stage.Rate?
    case InsertReply(_) => task.Handling? && task.stage.Insert?
    case AckReply(ok, applied, _) => task.Handling? && task.stage.Ack? && (ok ==> applied)
    case LetterWritten =>
      (task.Parsing? && task.letter.Writing?) || (task.Handling? && task.stage.WriteLetter?)
    case LetterAcked =>
      (task.Parsing? && task.letter.Written?) || (task.Handling? && task.stage.AckLetter?)
    case Crash => true
  }

  /** A task goes on with what it has: it is not lost and fetches nothing new. */
  predicate Continues(a: Action) {
    !a.Crash? && !a.Read? && !a.Claim?
  }

  /** The shape of a task that code can reach; it makes the step functions total. */
  predicate WellFormed(st: Store, task: Task) {
    match task
    case Idle => true
    case Looking(batch, counts, at) =>
      && at < |batch| && (forall d <- batch :: d.id < |st.stream|)
      && (forall i | 0 <= i < at :: batch[i].id in counts)
    case Parsing(batch, counts, at, msgs, letter) =>
      && at < |batch| && (forall d <- batch :: d.id < |st.stream| && d.id in counts)
    case Handling(msgs, stage) => msgs != []
  }

  /** Continue with the next entry of the batch, or hand the messages over. */
  function AfterParse(batch: seq<Delivery>, counts: map<EntryId, nat>, at: nat, msgs: seq<Message>): Task {
    if at < |batch| then Parsing(batch, counts, at, msgs, NoLetter)
    else if msgs == [] then Idle
    else Handling(msgs, Rate(1))
  }

  /** Continue with the next message of the batch. */
  function AfterHandle(msgs: seq<Message>): Task {
    if |msgs| <= 1 then Idle else Handling(msgs[1..], Rate(1))
  }

  /** Past the entry with one more message, or to its dead letter. */
  function OnParse(cfg: Config, st: Store, task: Task): Task
    requires task.Parsing? && WellFormed(st, task)
  {
    var d := task.batch[task.at];
    match ToEvent(cfg.codec, st.stream[d.id])
    case Valid(event) =>
      var msgs := task.msgs + [Message(d, event, task.counts[d.id], st.stream[d.id])];
      AfterParse(task.batch, task.counts, task.at + 1, msgs)
    case Invalid(error) => task.(letter := Writing("unparseable: " + Text(error)))
  }

  function Completed(st: Store, m: Message, fate: Fate, cause: Cause): Store {
    st.(log := st.log + [Completion(m.delivery, m.count, fate, cause, m.delivery.id in st.pel)])
  }

  /** The exception quantize raises when the result is too long. */
  const INVALID_OPERATION: Failure := Unexpected("[<class 'decimal.InvalidOperation'>]")

  /** What a failure raises; a rate that was served raises nothing, and is no cause. */
  function RaisedBy(currency: string, cause: Cause): Failure
    requires IsFailure(currency, cause)
  {
    match cause
    case RateFailed(reply) => Decode(currency, reply).failure
    case NotConvertible => INVALID_OPERATION
    case InsertFailed(error) => Reraised(error)
    case AckFailed(text) => Unexpected(text)
  }

  predicate IsFailure(currency: string, cause: Cause) {
    !cause.NoFailure? && (cause.RateFailed? ==> Decode(currency, cause.reply).Err?)
  }

  predicate LeavesPending(cfg: Config, count: nat, f: Failure) {
    f.Transient? && count < cfg.maxDeliveries
  }

  /** The reason the policy writes for a failure it does not leave pending. */
  function ReasonFor(f: Failure): string {
    match f
    case Permanent(text) => text
    case Transient(_) => "max deliveries exceeded"
    case Unexpected(text) => "unexpected error: " + text
  }

  /** The delivery policy: what becomes of a message whose processing raised. */
  function Verdict(cfg: Config, msgs: seq<Message>, cause: Cause): Task
    requires msgs != [] && IsFailure(msgs[0].event.currency, cause)
  {
    var f := RaisedBy(msgs[0].event.currency, cause);
    if LeavesPending(cfg, msgs[0].count, f) then AfterHandle(msgs)
    else Handling(msgs, WriteLetter(ReasonFor(f), cause))
  }

  function OnFailure(cfg: Config, st: Store, msgs: seq<Message>, cause: Cause): (Store, Task)
    requires msgs != [] && IsFailure(msgs[0].event.currency, cause)
  {
    (if LeavesPending(cfg, msgs[0].count, RaisedBy(msgs[0].event.currency, cause))
     then Completed(st, msgs[0], LeftPending, cause) else st,
     Verdict(cfg, msgs, cause))
  }

  /** A transient failure is retried while attempts are left. */
  predicate Retries(f: Failure, attempt: nat, attempts: nat) {
    f.Transient? && attempt < attempts
  }

  function OnRate(cfg: Config, st: Store, msgs: seq<Message>, attempt: nat, answer: RateAnswer): (Store, Task)
    requires msgs != []
  {
    match Replied(msgs[0].event.currency, answer)
    case Ok(rate) =>
      (match ConvertToUsd(msgs[0].event.amount, rate)
       case Some(cents) => (st, Handling(msgs, Insert(rate, cents, 1)))
       case None => OnFailure(cfg, st, msgs, NotConvertible))
    case Err(f) =>
      if Retries(f, attempt, cfg.rateAttempts) then (st, Handling(msgs, Rate(attempt + 1)))
      else OnFailure(cfg, st, msgs, RateFailed(answer.reply))
  }

  function RowOf(event: TransactionEvent, rate: Decimal, cents: int): Row {
    Row(event.id, event.userId, event.amount, event.currency, rate, cents, event.timestamp)
  }

  /** Whether the statement inserted or found the id. */
  function Found(table: seq<Row>, id: string): Stored {
    if HasId(table, id) then Duplicate else Processed
  }

  function OnInsert(cfg: Config, st: Store, msgs: seq<Message>, stage: Stage, reply: DbReply): (Store, Task)
    requires msgs != [] && stage.Insert?
  {
    var row := RowOf(msgs[0].event, stage.rate, stage.cents);
    var inserted := st.(table := InsertIgnore(st.table, row));
    match reply
    case Committed => (inserted, Handling(msgs, Ack(Found(st.table, row.id))))
    case Broke(error, applied) =>
      var after := if applied then inserted else st;
      if Retries(Reraised(error), stage.attempt, cfg.dbAttempts)
      then (after, Handling(msgs, stage.(attempt := stage.attempt + 1)))
      else OnFailure(cfg, after, msgs, InsertFailed(error))
  }

  /** Each id of the batch, counted once. */
  function AllOnes(batch: seq<Delivery>): map<EntryId, nat> {
    var ids := set d <- batch :: d.id;
    map id | id in ids :: 1
  }

  function Acknowledged(st: Store, id: EntryId): Store {
    st.(pel := st.pel - {id})
  }

  function Bumped(pel: map<EntryId, nat>, ids: seq<EntryId>): map<EntryId, nat> {
    map id | id in pel :: if id in ids then pel[id] + 1 else pel[id]
  }

  /** One action of a task: the store and what it holds next. */
  function Move(cfg: Config, st: Store, task: Task, a: Action): (Store, Task)
    requires WellFormed(st, task) && CanAct(cfg, st, task, a)
  {
    match a
    case Read(0) => (st, Idle)
    case Read(n) =>
      var from := Unread(st);
      var batch := seq(n, i requires 0 <= i => Delivery(from + i, 1));
      (st.(cursor := from + n, pel := st.pel + AllOnes(batch)), Parsing(batch, AllOnes(batch), 0, [], NoLetter))
    case Claim(ids, dropped) =>
      var pel := Bumped(st.pel, ids);
      var batch := seq(|ids|, i requires 0 <= i < |ids| => Delivery(ids[i], pel[ids[i]]));
      (st.(pel := pel - dropped), if ids == [] then Idle else Looking(batch, map[], 0))
    case Lookup =>
      var id := task.batch[task.at].id;
      var counts := task.counts[id := if id in st.pel then st.pel[id] else 1];
      (st, if task.at + 1 < |task.batch| then Looking(task.batch, counts, task.at + 1)
           else Parsing(task.batch, counts, 0, [], NoLetter))
    case Parse => (st, OnParse(cfg, st, task))
    case RateReply(answer) => OnRate(cfg, st, task.msgs, task.stage.attempt, answer)
    case InsertReply(reply) => OnInsert(cfg, st, task.msgs, task.stage, reply)
    case AckReply(ok, applied, text) =>
      var d := task.msgs[0].delivery;
      var after := if applied then Acknowledged(st, d.id) else st;
      if ok then (Completed(after, task.msgs[0], Acked, NoFailure), AfterHandle(task.msgs))
      else OnFailure(cfg, after, task.msgs, AckFailed(text))
    case LetterWritten =>
      (match task
       case Parsing(batch, _, at, _, Writing(reason)) =>
         (st.(dlq := st.dlq + [DeadLetter(st.stream[batch[at].id], reason)]), task.(letter := Written))
       case Handling(msgs, WriteLetter(reason, cause)) =>
         (st.(dlq := st.dlq + [DeadLetter(msgs[0].raw, reason)]), Handling(msgs, AckLetter(cause))))
    case LetterAcked =>
      (match task
       case Parsing(batch, counts, at, msgs, _) =>
         (Acknowledged(st, batch[at].id), AfterParse(batch, counts, at + 1, msgs))
       case Handling(msgs, AckLetter(cause)) =>
         (Completed(Acknowledged(st, msgs[0].delivery.id), msgs[0], DeadLettered, cause),
          AfterHandle(msgs)))
    case Crash => (st, Idle)
  }

  predicate Enabled(cfg: Config, s: Sys, step: Step) {
    match step
    case Publish(_, first) => CanPublish(cfg, s.store, first)
    case Act(t, a) => WellFormed(s.store, TaskOf(s, t)) && CanAct(cfg, s.store, TaskOf(s, t), a)
  }

  function Next(cfg: Config, s: Sys, step: Step): Sys
    requires Enabled(cfg, s, step)
  {
    match step
    case Publish(fields, first) =>
      s.(store := s.store.(stream := s.store.stream + [fields], first := first))
    case Act(t, a) =>
      var (store, task) := Move(cfg, s.store, TaskOf(s, t), a);
      Sys(store, s.tasks[t := task])
  }

  // ----- runs -----

  predicate Legal(cfg: Config, run: seq<Step>)
    decreases |run|, 0
  {
    run == [] ||
    (Legal(cfg, run[..|run| - 1]) && Enabled(cfg, After(cfg, run[..|run| - 1]), run[|run| - 1]))
  }

  /** The state a run leads to. */
  function After(cfg: Config, run: seq<Step>): Sys
    requires Legal(cfg, run)
    decreases |run|, 1
  {
    if run == [] then Init() else Next(cfg, After(cfg, run[..|run| - 1]), run[|run| - 1])
  }
}
