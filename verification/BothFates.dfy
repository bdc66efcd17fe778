/** Each of the six deviations is enough: for every event that can be converted there is a run with
    that one deviation and no other, after which its entry is both stored and dead-lettered. */
module BothFates {
  import opened Errors
  import opened Converter
  import opened Events
  import opened Table
  import opened RateClients
  import opened Protocol
  import opened Safety
  import opened Drain
  import opened Exclusion

  /** The run leads to this state, with these deviations. */
  predicate At(cfg: Config, run: seq<Step>, s: Sys, devs: set<Deviation>) {
    Legal(cfg, run) && After(cfg, run) == s && RunDeviations(cfg, run) == devs
  }

  lemma Extend(cfg: Config, run: seq<Step>, s: Sys, devs: set<Deviation>, step: Step)
    requires At(cfg, run, s, devs) && Enabled(cfg, s, step)
    ensures At(cfg, run + [step], Next(cfg, s, step), devs + StepDeviations(s, step))
  {
    assert (run + [step])[..|run|] == run;
  }

  /** One action of task t, which has `task` in hand, gives this store and leaves it with `task'`. */
  predicate Acts(cfg: Config, st: Store, task: Task, a: Action, st': Store, task': Task) {
    && WellFormed(st, task) && CanAct(cfg, st, task, a)
    && Move(cfg, st, task, a) == (st', task')
  }

  lemma Then(cfg: Config, run: seq<Step>, st: Store, tasks: map<TaskId, Task>, devs: set<Deviation>,
             t: TaskId, task: Task, a: Action, st': Store, task': Task) returns (run': seq<Step>)
    requires At(cfg, run, Sys(st, tasks[t := task]), devs) && Acts(cfg, st, task, a, st', task')
    ensures At(cfg, run', Sys(st', tasks[t := task']), devs + StepDeviations(Sys(st, tasks[t := task]), Act(t, a)))
  {
    ActsNext(cfg, st, tasks, t, task, a, st', task');
    Extend(cfg, run, Sys(st, tasks[t := task]), devs, Act(t, a));
    run' := run + [Act(t, a)];
  }

  lemma ActsNext(cfg: Config, st: Store, tasks: map<TaskId, Task>, t: TaskId, task: Task, a: Action,
                 st': Store, task': Task)
    requires Acts(cfg, st, task, a, st', task')
    ensures var s := Sys(st, tasks[t := task]);
      Enabled(cfg, s, Act(t, a)) && Next(cfg, s, Act(t, a)) == Sys(st', tasks[t := task'])
  {
    assert tasks[t := task][t := task'] == tasks[t := task'];
  }

  /** The store with one entry, pending with count n. */
  function One(fields: Fields, n: nat, dlq: seq<Fields>, table: seq<Row>): Store {
    Store([fields], 0, 1, map[0 := n], dlq, table, [])
  }

  // ----- single steps -----

  lemma ReadOfOne(cfg: Config, st: Store, e: EntryId)
    requires cfg.batchSize >= 1 && |st.stream| == e + 1 && st.first == 0 && st.cursor == e && st.pel == map[]
    ensures Acts(cfg, st, Idle, Read(1), st.(cursor := e + 1, pel := map[e := 1]),
                 Parsing([Delivery(e, 1)], map[e := 1], 0, [], NoLetter))
  {
    assert Unread(st) == e;
    var (st', task') := Move(cfg, st, Idle, Read(1));
    assert task'.batch == [Delivery(e, 1)];
    assert AllOnes([Delivery(e, 1)]) == map[e := 1];
    assert map[] + map[e := 1] == map[e := 1];
  }

  lemma ParseOfOne(cfg: Config, st: Store, e: EntryId, n: nat, m: Message)
    requires e < |st.stream| && ToEvent(cfg.codec, st.stream[e]) == Valid(m.event)
    requires m == Message(Delivery(e, n), m.event, n, st.stream[e])
    ensures Acts(cfg, st, Parsing([Delivery(e, n)], map[e := n], 0, [], NoLetter), Parse, st, Handling([m], Rate(1)))
  {
    assert [] + [m] == [m];
  }

  lemma ClaimOfOne(cfg: Config, fields: Fields, n: nat, dlq: seq<Fields>, table: seq<Row>)
    requires cfg.batchSize >= 1
    ensures Acts(cfg, One(fields, n, dlq, table), Idle, Claim([0], {}),
                 One(fields, n + 1, dlq, table), Looking([Delivery(0, n + 1)], map[], 0))
  {
    var (st', task') := Move(cfg, One(fields, n, dlq, table), Idle, Claim([0], {}));
    assert Bumped(map[0 := n], [0]) == map[0 := n + 1];
    assert map[0 := n + 1] - {} == map[0 := n + 1];
    assert task'.batch == [Delivery(0, n + 1)];
  }

  lemma LookupOfOne(cfg: Config, fields: Fields, n: nat, dlq: seq<Fields>, table: seq<Row>)
    ensures Acts(cfg, One(fields, n, dlq, table), Looking([Delivery(0, n)], map[], 0), Lookup,
                 One(fields, n, dlq, table), Parsing([Delivery(0, n)], map[0 := n], 0, [], NoLetter))
  {
    assert map[][0 := n] == map[0 := n];
  }

  // ----- the parts runs are made of; task t takes them, the others rest -----

  /** The only entry is claimed, looked up and parsed. */
  lemma Redelivered(cfg: Config, run: seq<Step>, fields: Fields, n: nat, dlq: seq<Fields>, table: seq<Row>,
                    tasks: map<TaskId, Task>, devs: set<Deviation>, t: TaskId, m: Message) returns (run': seq<Step>)
    requires At(cfg, run, Sys(One(fields, n, dlq, table), tasks[t := Idle]), devs) && cfg.batchSize >= 1
    requires ToEvent(cfg.codec, fields) == Valid(m.event) && m == Message(Delivery(0, n + 1), m.event, n + 1, fields)
    ensures At(cfg, run', Sys(One(fields, n + 1, dlq, table), tasks[t := Handling([m], Rate(1))]),
               devs + StepDeviations(Sys(One(fields, n, dlq, table), tasks[t := Idle]), Act(t, Claim([0], {}))))
  {
    var st, st' := One(fields, n, dlq, table), One(fields, n + 1, dlq, table);
    var devs' := devs + StepDeviations(Sys(st, tasks[t := Idle]), Act(t, Claim([0], {})));
    var looking := Looking([Delivery(0, n + 1)], map[], 0);
    var parsing := Parsing([Delivery(0, n + 1)], map[0 := n + 1], 0, [], NoLetter);
    ClaimOfOne(cfg, fields, n, dlq, table);
    var run1 := Then(cfg, run, st, tasks, devs, t, Idle, Claim([0], {}), st', looking);
    LookupOfOne(cfg, fields, n + 1, dlq, table);
    var run2 := Then(cfg, run1, st', tasks, devs', t, looking, Lookup, st', parsing);
    ParseOfOne(cfg, st', 0, n + 1, m);
    run' := Then(cfg, run2, st', tasks, devs', t, parsing, Parse, st', Handling([m], Rate(1)));
  }

  /** A rate is looked up, and the insert commits. */
  lemma Stored(cfg: Config, run: seq<Step>, st: Store, tasks: map<TaskId, Task>, devs: set<Deviation>,
               t: TaskId, m: Message, rate: Decimal, row: Row) returns (run': seq<Step>)
    requires At(cfg, run, Sys(st, tasks[t := Handling([m], Rate(1))]), devs)
    requires ConvertToUsd(m.event.amount, rate) == Some(row.amountUsd) && row == RowOf(m.event, rate, row.amountUsd)
    ensures At(cfg, run', Sys(st.(table := InsertIgnore(st.table, row)),
                              tasks[t := Handling([m], Ack(Found(st.table, row.id)))]), devs)
  {
    var inserting := Handling([m], Insert(rate, row.amountUsd, 1));
    var run1 := Converted(cfg, run, st, tasks, devs, t, m, rate, row);
    run' := Then(cfg, run1, st, tasks, devs, t, inserting, InsertReply(Committed),
                 st.(table := InsertIgnore(st.table, row)), Handling([m], Ack(Found(st.table, row.id))));
  }

  lemma Converted(cfg: Config, run: seq<Step>, st: Store, tasks: map<TaskId, Task>, devs: set<Deviation>,
                  t: TaskId, m: Message, rate: Decimal, row: Row) returns (run': seq<Step>)
    requires At(cfg, run, Sys(st, tasks[t := Handling([m], Rate(1))]), devs)
    requires ConvertToUsd(m.event.amount, rate) == Some(row.amountUsd)
    ensures At(cfg, run', Sys(st, tasks[t := Handling([m], Insert(rate, row.amountUsd, 1))]), devs)
  {
    run' := Then(cfg, run, st, tasks, devs, t, Handling([m], Rate(1)), RateReply(FromCache(rate)),
                 st, Handling([m], Insert(rate, row.amountUsd, 1)));
  }

  const UNKNOWN_CURRENCY: Cause := RateFailed(Answer(404, None, ""))

  function Reason(event: TransactionEvent): string {
    ReasonFor(RaisedBy(event.currency, UNKNOWN_CURRENCY))
  }

  /** The rate service does not know the currency, and the letter is written. */
  lemma Lettered(cfg: Config, run: seq<Step>, st: Store, tasks: map<TaskId, Task>, devs: set<Deviation>,
                 t: TaskId, m: Message) returns (run': seq<Step>)
    requires At(cfg, run, Sys(st, tasks[t := Handling([m], Rate(1))]), devs)
    ensures At(cfg, run', Sys(st.(dlq := st.dlq + [DeadLetter(m.raw, Reason(m.event))]),
                              tasks[t := Handling([m], AckLetter(UNKNOWN_CURRENCY))]), devs)
  {
    var writing := Handling([m], WriteLetter(Reason(m.event), UNKNOWN_CURRENCY));
    var run1 := Then(cfg, run, st, tasks, devs, t, Handling([m], Rate(1)),
                     RateReply(FromService(UNKNOWN_CURRENCY.reply)), st, writing);
    run' := Posted(cfg, run1, st, tasks, devs, t, m, Reason(m.event), UNKNOWN_CURRENCY);
  }

  lemma Posted(cfg: Config, run: seq<Step>, st: Store, tasks: map<TaskId, Task>, devs: set<Deviation>,
               t: TaskId, m: Message, reason: string, cause: Cause) returns (run': seq<Step>)
    requires At(cfg, run, Sys(st, tasks[t := Handling([m], WriteLetter(reason, cause))]), devs)
    ensures At(cfg, run', Sys(st.(dlq := st.dlq + [DeadLetter(m.raw, reason)]),
                              tasks[t := Handling([m], AckLetter(cause))]), devs)
  {
    run' := Then(cfg, run, st, tasks, devs, t, Handling([m], WriteLetter(reason, cause)), LetterWritten,
                 st.(dlq := st.dlq + [DeadLetter(m.raw, reason)]), Handling([m], AckLetter(cause)));
  }

  /** The next entry is published, read and parsed. */
  lemma Delivered(cfg: Config, run: seq<Step>, st: Store, tasks: map<TaskId, Task>, devs: set<Deviation>,
                  t: TaskId, m: Message) returns (run': seq<Step>)
    requires At(cfg, run, Sys(st, tasks[t := Idle]), devs) && cfg.batchSize >= 1
    requires st.first == 0 && st.pel == map[] && st.cursor == |st.stream|
    requires ToEvent(cfg.codec, m.raw) == Valid(m.event)
    requires m == Message(Delivery(|st.stream|, 1), m.event, 1, m.raw)
    ensures var e := |st.stream|;
      At(cfg, run', Sys(st.(stream := st.stream + [m.raw], cursor := e + 1, pel := map[e := 1]),
                        tasks[t := Handling([m], Rate(1))]), devs)
  {
    var e, s := |st.stream|, Sys(st, tasks[t := Idle]);
    Extend(cfg, run, s, devs, Step.Publish(m.raw, 0));
    var run1, st1 := run + [Step.Publish(m.raw, 0)], st.(stream := st.stream + [m.raw]);
    var st2 := st1.(cursor := e + 1, pel := map[e := 1]);
    var parsing := Parsing([Delivery(e, 1)], map[e := 1], 0, [], NoLetter);
    ReadOfOne(cfg, st1, e);
    var run2 := Then(cfg, run1, st1, tasks, devs, t, Idle, Read(1), st2, parsing);
    ParseOfOne(cfg, st2, e, 1, m);
    run' := Then(cfg, run2, st2, tasks, devs, t, parsing, Parse, st2, Handling([m], Rate(1)));
  }

  /** The first entry of a new stream, in the hands of task 0. */
  lemma Begin(cfg: Config, m: Message) returns (run: seq<Step>)
    requires cfg.batchSize >= 1 && ToEvent(cfg.codec, m.raw) == Valid(m.event)
    requires m == Message(Delivery(0, 1), m.event, 1, m.raw)
    ensures At(cfg, run, Sys(One(m.raw, 1, [], []), map[][0 := Handling([m], Rate(1))]), {})
  {
    var st := Store([], 0, 0, map[], [], [], []);
    Extend(cfg, [], Init(), {}, Step.Publish(m.raw, 0));
    var run1, st1 := [Step.Publish(m.raw, 0)], st.(stream := [m.raw]);
    assert [] + [Step.Publish(m.raw, 0)] == run1 && [] + [m.raw] == [m.raw];
    ReadOfOne(cfg, st1, 0);
    var st2, parsing := One(m.raw, 1, [], []), Parsing([Delivery(0, 1)], map[0 := 1], 0, [], NoLetter);
    Extend(cfg, run1, Sys(st1, map[]), {}, Act(0, Read(1)));
    ParseOfOne(cfg, st2, 0, 1, m);
    run := Then(cfg, run1 + [Act(0, Read(1))], st2, map[], {}, 0, parsing, Parse, st2, Handling([m], Rate(1)));
  }

  // ----- one run for each deviation -----

  /** After the run, entry e has both fates, and nothing but d deviated. */
  predicate Shows(cfg: Config, run: seq<Step>, e: EntryId, d: Deviation) {
    Legal(cfg, run) && e < |After(cfg, run).store.stream|
    && HasBothFates(cfg, After(cfg, run).store, e) && Deviations(cfg, run) == {d}
  }

  lemma Showing(cfg: Config, run: seq<Step>, n: nat, tasks: map<TaskId, Task>, d: Deviation,
                m: Message, row: Row, reason: string)
    requires At(cfg, run, Sys(One(m.raw, n, [DeadLetter(m.raw, reason)], [row]), tasks), {d})
    requires ToEvent(cfg.codec, m.raw) == Valid(m.event) && row.id == m.event.id
    ensures Shows(cfg, run, 0, d)
  {
    var st := One(m.raw, n, [DeadLetter(m.raw, reason)], [row]);
    assert st.table[0].id == row.id;
    assert IsLetterOf(st.dlq[0], st.stream[0]);
  }

  /** An entry, the message it is first delivered in, and the row it is stored as. */
  predicate Convertible(cfg: Config, m: Message, rate: Decimal, row: Row) {
    && Configured(cfg) && cfg.batchSize >= 1
    && ToEvent(cfg.codec, m.raw) == Valid(m.event) && m == Message(Delivery(0, 1), m.event, 1, m.raw)
    && ConvertToUsd(m.event.amount, rate) == Some(row.amountUsd) && row == RowOf(m.event, rate, row.amountUsd)
  }

  /** The first delivery ends with a commit. */
  lemma StoredFirst(cfg: Config, m: Message, rate: Decimal, row: Row) returns (run: seq<Step>)
    requires Convertible(cfg, m, rate, row)
    ensures At(cfg, run, Sys(One(m.raw, 1, [], [row]), map[][0 := Handling([m], Ack(Processed))]), {})
  {
    var run0 := Begin(cfg, m);
    run := Stored(cfg, run0, One(m.raw, 1, [], []), map[], {}, 0, m, rate, row);
  }

  lemma LetteredFirst(cfg: Config, m: Message, rate: Decimal, row: Row) returns (run: seq<Step>)
    requires Convertible(cfg, m, rate, row)
    ensures At(cfg, run, Sys(One(m.raw, 1, [DeadLetter(m.raw, Reason(m.event))], []),
                             map[][0 := Handling([m], AckLetter(UNKNOWN_CURRENCY))]), {})
  {
    var run0 := Begin(cfg, m);
    run := Lettered(cfg, run0, One(m.raw, 1, [], []), map[], {}, 0, m);
  }

  lemma LetteredLast(cfg: Config, run: seq<Step>, n: nat, row: Row, tasks: map<TaskId, Task>, d: Deviation,
                     t: TaskId, m: Message)
    returns (run': seq<Step>)
    requires At(cfg, run, Sys(One(m.raw, n, [], [row]), tasks[t := Handling([m], Rate(1))]), {d})
    requires ToEvent(cfg.codec, m.raw) == Valid(m.event) && row.id == m.event.id
    ensures Shows(cfg, run', 0, d)
  {
    var acking := Handling([m], AckLetter(UNKNOWN_CURRENCY));
    run' := Lettered(cfg, run, One(m.raw, n, [], [row]), tasks, {d}, t, m);
    Showing(cfg, run', n, tasks[t := acking], d, m, row, Reason(m.event));
  }

  lemma PostedLast(cfg: Config, run: seq<Step>, n: nat, row: Row, d: Deviation, m: Message, reason: string,
                   cause: Cause)
    returns (run': seq<Step>)
    requires At(cfg, run, Sys(One(m.raw, n, [], [row]), map[][0 := Handling([m], WriteLetter(reason, cause))]), {d})
    requires ToEvent(cfg.codec, m.raw) == Valid(m.event) && row.id == m.event.id
    ensures Shows(cfg, run', 0, d)
  {
    run' := Posted(cfg, run, One(m.raw, n, [], [row]), map[], {d}, 0, m, reason, cause);
    Showing(cfg, run', n, map[][0 := Handling([m], AckLetter(cause))], d, m, row, reason);
  }

  lemma StoredLast(cfg: Config, run: seq<Step>, n: nat, tasks: map<TaskId, Task>, d: Deviation, t: TaskId,
                   m: Message, rate: Decimal, row: Row) returns (run': seq<Step>)
    requires At(cfg, run, Sys(One(m.raw, n, [DeadLetter(m.raw, Reason(m.event))], []),
                              tasks[t := Handling([m], Rate(1))]), {d})
    requires ConvertToUsd(m.event.amount, rate) == Some(row.amountUsd) && row == RowOf(m.event, rate, row.amountUsd)
    requires ToEvent(cfg.codec, m.raw) == Valid(m.event)
    ensures Shows(cfg, run', 0, d)
  {
    run' := Stored(cfg, run, One(m.raw, n, [DeadLetter(m.raw, Reason(m.event))], []), tasks, {d}, t, m, rate, row);
    Showing(cfg, run', n, tasks[t := Handling([m], Ack(Processed))], d, m, row, Reason(m.event));
  }

  lemma ByFailedAck(cfg: Config, m: Message, rate: Decimal, row: Row) returns (run: seq<Step>)
    requires Convertible(cfg, m, rate, row)
    ensures Shows(cfg, run, 0, FailedAck)
  {
    var st, reason := One(m.raw, 1, [], [row]), ReasonFor(Unexpected(""));
    var run1 := StoredFirst(cfg, m, rate, row);
    AckFails(cfg, st, m);
    var run2 := Then(cfg, run1, st, map[], {}, 0, Handling([m], Ack(Processed)), AckReply(false, false, ""),
                     st, Handling([m], WriteLetter(reason, AckFailed(""))));
    run := PostedLast(cfg, run2, 1, row, FailedAck, m, reason, AckFailed(""));
  }

  lemma AckFails(cfg: Config, st: Store, m: Message)
    ensures Acts(cfg, st, Handling([m], Ack(Processed)), AckReply(false, false, ""),
                 st, Handling([m], WriteLetter(ReasonFor(Unexpected("")), AckFailed(""))))
  {}

  lemma ByUnreportedCommit(cfg: Config, m: Message, rate: Decimal, row: Row) returns (run: seq<Step>)
    requires Convertible(cfg, m, rate, row)
    ensures Shows(cfg, run, 0, UnreportedCommit)
  {
    var st, st' := One(m.raw, 1, [], []), One(m.raw, 1, [], [row]);
    var reason, inserting := ReasonFor(Unexpected("")), Handling([m], Insert(rate, row.amountUsd, 1));
    var run0 := Begin(cfg, m);
    var run1 := Converted(cfg, run0, st, map[], {}, 0, m, rate, row);
    InsertBreaks(cfg, st, m, rate, row);
    var run2 := Then(cfg, run1, st, map[], {}, 0, inserting, InsertReply(Broke(Foreign(""), true)),
                     st', Handling([m], WriteLetter(reason, InsertFailed(Foreign("")))));
    run := PostedLast(cfg, run2, 1, row, UnreportedCommit, m, reason, InsertFailed(Foreign("")));
  }

  lemma InsertBreaks(cfg: Config, st: Store, m: Message, rate: Decimal, row: Row)
    requires st.table == [] && row == RowOf(m.event, rate, row.amountUsd)
    ensures Acts(cfg, st, Handling([m], Insert(rate, row.amountUsd, 1)), InsertReply(Broke(Foreign(""), true)),
                 st.(table := [row]), Handling([m], WriteLetter(ReasonFor(Unexpected("")), InsertFailed(Foreign("")))))
  {
    assert InsertIgnore([], row) == [row];
  }

  lemma ByLossBeforeAck(cfg: Config, m: Message, rate: Decimal, row: Row) returns (run: seq<Step>)
    requires Convertible(cfg, m, rate, row)
    ensures Shows(cfg, run, 0, LostBeforeAck)
  {
    var st, m' := One(m.raw, 1, [], [row]), Message(Delivery(0, 2), m.event, 2, m.raw);
    var run1 := StoredFirst(cfg, m, rate, row);
    var run2 := Then(cfg, run1, st, map[], {}, 0, Handling([m], Ack(Processed)), Crash, st, Idle);
    NobodyHolds(st, map[]);
    var run3 := Redelivered(cfg, run2, m.raw, 1, [], [row], map[], {LostBeforeAck}, 0, m');
    run := LetteredLast(cfg, run3, 2, row, map[], LostBeforeAck, 0, m');
  }

  lemma ByLossBeforeLetterAck(cfg: Config, m: Message, rate: Decimal, row: Row) returns (run: seq<Step>)
    requires Convertible(cfg, m, rate, row)
    ensures Shows(cfg, run, 0, LostBeforeLetterAck)
  {
    var letter, m' := DeadLetter(m.raw, Reason(m.event)), Message(Delivery(0, 2), m.event, 2, m.raw);
    var run2 := LetteredThenLost(cfg, m, rate, row);
    NobodyHolds(One(m.raw, 1, [letter], []), map[]);
    var run3 := Redelivered(cfg, run2, m.raw, 1, [letter], [], map[], {LostBeforeLetterAck}, 0, m');
    run := StoredLast(cfg, run3, 2, map[], LostBeforeLetterAck, 0, m', rate, row);
  }

  lemma LetteredThenLost(cfg: Config, m: Message, rate: Decimal, row: Row) returns (run: seq<Step>)
    requires Convertible(cfg, m, rate, row)
    ensures At(cfg, run, Sys(One(m.raw, 1, [DeadLetter(m.raw, Reason(m.event))], []), map[][0 := Idle]),
               {LostBeforeLetterAck})
  {
    var st := One(m.raw, 1, [DeadLetter(m.raw, Reason(m.event))], []);
    var run1 := LetteredFirst(cfg, m, rate, row);
    run := Then(cfg, run1, st, map[], {}, 0, Handling([m], AckLetter(UNKNOWN_CURRENCY)), Crash, st, Idle);
  }

  lemma NobodyHolds(st: Store, tasks: map<TaskId, Task>)
    requires tasks == map[]
    ensures StepDeviations(Sys(st, tasks[0 := Idle]), Act(0, Claim([0], {}))) == {}
  {}

  lemma ByOverlappingClaim(cfg: Config, m: Message, rate: Decimal, row: Row) returns (run: seq<Step>)
    requires Convertible(cfg, m, rate, row)
    ensures Shows(cfg, run, 0, OverlappingClaim)
  {
    var m' := Message(Delivery(0, 2), m.event, 2, m.raw);
    var busy, done := Handling([m], Rate(1)), Handling([m'], AckLetter(UNKNOWN_CURRENCY));
    var run2 := ClaimedTwice(cfg, m, m');
    var run3 := Lettered(cfg, run2, One(m.raw, 2, [], []), map[][0 := busy], {OverlappingClaim}, 1, m');
    assert map[][0 := busy][1 := done] == map[][1 := done][0 := busy];
    run := StoredLast(cfg, run3, 2, map[][1 := done], OverlappingClaim, 0, m, rate, row);
  }

  lemma ClaimedTwice(cfg: Config, m: Message, m': Message) returns (run: seq<Step>)
    requires Configured(cfg) && cfg.batchSize >= 1 && ToEvent(cfg.codec, m.raw) == Valid(m.event)
    requires m == Message(Delivery(0, 1), m.event, 1, m.raw) && m' == Message(Delivery(0, 2), m.event, 2, m.raw)
    ensures At(cfg, run, Sys(One(m.raw, 2, [], []), map[][0 := Handling([m], Rate(1))][1 := Handling([m'], Rate(1))]),
               {OverlappingClaim})
  {
    var st, busy := One(m.raw, 1, [], []), Handling([m], Rate(1));
    var run0 := Begin(cfg, m);
    var run1 := Appears(cfg, run0, st, map[][0 := busy], {}, 1);
    SomebodyHolds(st, m);
    run := Redelivered(cfg, run1, m.raw, 1, [], [], map[][0 := busy], {}, 1, m');
  }

  /** A task that has done nothing yet crashes, and is as it was. */
  lemma Appears(cfg: Config, run: seq<Step>, st: Store, tasks: map<TaskId, Task>, devs: set<Deviation>, t: TaskId)
    returns (run': seq<Step>)
    requires At(cfg, run, Sys(st, tasks), devs) && t !in tasks
    ensures At(cfg, run', Sys(st, tasks[t := Idle]), devs)
  {
    Extend(cfg, run, Sys(st, tasks), devs, Act(t, Crash));
    run' := run + [Act(t, Crash)];
  }

  lemma SomebodyHolds(st: Store, m: Message)
    requires m.delivery.id == 0
    ensures StepDeviations(Sys(st, map[][0 := Handling([m], Rate(1))][1 := Idle]), Act(1, Claim([0], {})))
         == {OverlappingClaim}
  {
    var s := Sys(st, map[][0 := Handling([m], Rate(1))][1 := Idle]);
    HeadIsHeld(s.tasks[0], 0);
    assert HeldBySome(s, 0) && 0 in [0];
  }

  lemma BySharedId(cfg: Config, m: Message, rate: Decimal, row: Row) returns (run: seq<Step>)
    requires Convertible(cfg, m, rate, row)
    ensures Shows(cfg, run, 1, SharedId)
  {
    var m' := Message(Delivery(1, 1), m.event, 1, m.raw);
    var st' := Done(m, row);
    var run2 := StoredAndAcked(cfg, m, rate, row);
    var run3 := Delivered(cfg, run2, st', map[], {}, 0, m');
    var st'' := st'.(stream := [m.raw] + [m.raw], cursor := 2, pel := map[1 := 1]);
    run := Lettered(cfg, run3, st'', map[], {}, 0, m');
    ShowingTwice(cfg, run, st''.(dlq := [] + [DeadLetter(m.raw, Reason(m.event))]),
                 map[][0 := Handling([m'], AckLetter(UNKNOWN_CURRENCY))], m, row, Reason(m.event));
  }

  /** The only entry is stored and acked. */
  function Done(m: Message, row: Row): Store {
    Store([m.raw], 0, 1, map[], [], [row], [Completion(m.delivery, 1, Acked, NoFailure, false)])
  }

  lemma StoredAndAcked(cfg: Config, m: Message, rate: Decimal, row: Row) returns (run: seq<Step>)
    requires Convertible(cfg, m, rate, row)
    ensures At(cfg, run, Sys(Done(m, row), map[][0 := Idle]), {})
  {
    var run1 := StoredFirst(cfg, m, rate, row);
    AckWorks(cfg, m, row);
    run := Then(cfg, run1, One(m.raw, 1, [], [row]), map[], {}, 0, Handling([m], Ack(Processed)),
                AckReply(true, true, ""), Done(m, row), Idle);
  }

  lemma AckWorks(cfg: Config, m: Message, row: Row)
    requires m.delivery == Delivery(0, 1) && m.count == 1
    ensures Acts(cfg, One(m.raw, 1, [], [row]), Handling([m], Ack(Processed)), AckReply(true, true, ""),
                 Done(m, row), Idle)
  {
    var done := Completion(m.delivery, 1, Acked, NoFailure, false);
    assert map[0 := 1] - {0} == map[];
    assert [] + [done] == [done];
  }

  lemma ShowingTwice(cfg: Config, run: seq<Step>, st: Store, tasks: map<TaskId, Task>, m: Message, row: Row,
                     reason: string)
    requires At(cfg, run, Sys(st, tasks), {})
    requires st.stream == [m.raw, m.raw] && st.dlq == [DeadLetter(m.raw, reason)] && st.table == [row]
    requires ToEvent(cfg.codec, m.raw) == Valid(m.event) && row.id == m.event.id
    ensures Shows(cfg, run, 1, SharedId)
  {
    assert st.table[0].id == row.id;
    assert IsLetterOf(st.dlq[0], st.stream[1]);
    assert st.stream[0] == st.stream[1];
    assert !IdsDiffer(cfg, st.stream);
  }

  /** None of the six can be left out of the condition. */
  lemma EachDeviationSuffices(cfg: Config, fields: Fields, event: TransactionEvent, rate: Decimal, d: Deviation)
    returns (run: seq<Step>, e: EntryId)
    requires Configured(cfg) && cfg.batchSize >= 1 && ToEvent(cfg.codec, fields) == Valid(event)
    requires ConvertToUsd(event.amount, rate).Some?
    ensures Shows(cfg, run, e, d)
  {
    var m, row := Message(Delivery(0, 1), event, 1, fields), RowOf(event, rate, ConvertToUsd(event.amount, rate).value);
    e := if d.SharedId? then 1 else 0;
    match d
    case SharedId => run := BySharedId(cfg, m, rate, row);
    case OverlappingClaim => run := ByOverlappingClaim(cfg, m, rate, row);
    case FailedAck => run := ByFailedAck(cfg, m, rate, row);
    case UnreportedCommit => run := ByUnreportedCommit(cfg, m, rate, row);
    case LostBeforeAck => run := ByLossBeforeAck(cfg, m, rate, row);
    case LostBeforeLetterAck => run := ByLossBeforeLetterAck(cfg, m, rate, row);
  }
}
