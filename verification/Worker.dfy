/** The worker: the delivery policy and the two loops that feed it. */
module Worker {
  import opened Errors
  import opened Events
  import opened Table
  import opened RateClients
  import opened Protocol
  import opened Safety
  import opened Runtime
  import opened Consumer
  import opened Processor

  /** How one call of `handle` went: what `process` got back, how that ended and why, and what the
      ack raised, if it did, with whether it had taken effect. */
  datatype End = End(replies: seq<RateAnswer>, answers: seq<DbReply>, outcome: Outcome<Stored>, cause: Cause,
                     ackError: Option<(bool, string)>)

  predicate HandleEnds(cfg: Config, msg: StreamMessage, end: End) {
    && ProcessEnds(cfg, msg.event, end.replies, end.answers, end.outcome, end.cause)
    && (end.outcome.Err? ==> end.ackError.None?)
  }

  /** Neither acked nor dead-lettered. */
  predicate LeftAlone(cfg: Config, msg: StreamMessage, end: End) {
    end.outcome.Err? && LeavesPending(cfg, msg.deliveryCount, end.outcome.failure)
  }

  /** The steps after `process`. */
  function PolicyActions(cfg: Config, msg: StreamMessage, end: End): seq<Action> {
    if end.ackError.Some? then
      [AckReply(false, end.ackError.value.0, end.ackError.value.1), LetterWritten, LetterAcked]
    else if end.outcome.Ok? then [AckReply(true, true, "")]
    else if LeftAlone(cfg, msg, end) then []
    else [LetterWritten, LetterAcked]
  }

  function HandleActions(cfg: Config, msg: StreamMessage, end: End): seq<Action> {
    RateActions(end.replies) + InsertActions(end.answers) + PolicyActions(cfg, msg, end)
  }

  /** What the policy has brought about: a stored message is off the pending list, and a failed
      one is dead-lettered with its raw fields and the reason its failure calls for, unless it is
      left alone. */
  predicate Settled(cfg: Config, msg: StreamMessage, end: End, st: Store) {
    && (end.outcome.Ok? ==> HasId(st.table, msg.event.id) && Gone(st, msg.msgId))
    && (end.ackError.Some? ==>
          Buried(st, msg.msgId, msg.rawFields, "unexpected error: " + end.ackError.value.1))
    && (end.outcome.Err? && !LeftAlone(cfg, msg, end) ==> GivenUp(msg, end.outcome.failure, st))
  }

  /** Dead-lettered with the message's raw fields: a permanent failure with its own text, a
      transient one because its deliveries are used up, anything else as unexpected. */
  predicate GivenUp(msg: StreamMessage, failure: Failure, st: Store) {
    match failure
    case Permanent(text) => Buried(st, msg.msgId, msg.rawFields, text)
    case Transient(_) => Buried(st, msg.msgId, msg.rawFields, "max deliveries exceeded")
    case Unexpected(text) => Buried(st, msg.msgId, msg.rawFields, "unexpected error: " + text)
  }

  lemma SettledGrows(cfg: Config, msg: StreamMessage, end: End, st: Store, st': Store)
    requires Grows(st, st') && Settled(cfg, msg, end, st)
    ensures Settled(cfg, msg, end, st')
  {
    IdStays(st.table, st'.table, msg.event.id);
    if end.ackError.Some? {
      BuriedGrows(st, st', msg.msgId, msg.rawFields, "unexpected error: " + end.ackError.value.1);
    }
    if end.outcome.Err? && !LeftAlone(cfg, msg, end) {
      GivenUpGrows(msg, end.outcome.failure, st, st');
    }
  }

  lemma GivenUpGrows(msg: StreamMessage, failure: Failure, st: Store, st': Store)
    requires Grows(st, st') && GivenUp(msg, failure, st)
    ensures GivenUp(msg, failure, st')
  {
    match failure
    case Permanent(text) => BuriedGrows(st, st', msg.msgId, msg.rawFields, text);
    case Transient(_) => BuriedGrows(st, st', msg.msgId, msg.rawFields, "max deliveries exceeded");
    case Unexpected(text) => BuriedGrows(st, st', msg.msgId, msg.rawFields, "unexpected error: " + text);
  }

  /** The service answered, below 500 and without a rate: a 404, another status that is not 2xx, or
      a body that cannot be read. */
  predicate IsRefusal(answer: RateAnswer) {
    && answer.FromService? && answer.reply.Answer? && answer.reply.status < 500
    && !(200 <= answer.reply.status < 300 && answer.reply.body.Some?)
  }

  /** The currency is named if the service does not know it; any other refusal is unexpected. */
  function RefusalReason(currency: string, reply: HttpReply): string
    requires reply.Answer?
  {
    if reply.status == 404 then "no rate for currency '" + currency + "'" else "unexpected error: " + reply.text
  }

  /** The last reply of the call was an outage of the rate service, given in one of these turns, or
      of the database. */
  ghost predicate ByOutage(turns: nat -> Turn, from: nat, to: nat, end: End) {
    || (end.answers == [] && end.replies != [] && end.replies[|end.replies| - 1].FromService?
        && IsDown(end.replies[|end.replies| - 1].reply)
        && exists k :: from <= k < to && end.replies[|end.replies| - 1].reply == turns(k).reply)
    || (end.answers != [] && end.answers[|end.answers| - 1].Broke? && IsOutage(end.answers[|end.answers| - 1].error))
  }

  lemma RefusalIsFinal(cfg: Config, msg: StreamMessage, end: End, st: Store, i: nat)
    requires HandleEnds(cfg, msg, end) && Settled(cfg, msg, end, st)
    requires i < |end.replies| && IsRefusal(end.replies[i])
    ensures i == |end.replies| - 1 && end.answers == []
    ensures Buried(st, msg.msgId, msg.rawFields, RefusalReason(msg.event.currency, end.replies[i].reply))
  {
    DecodedAsMeant(msg.event.currency, end.replies[i].reply);
    PermanentFailuresEndIt(cfg, msg.event, end.replies, end.answers, end.outcome, end.cause);
    RaisesItsCause(cfg, msg.event, end.replies, end.answers, end.outcome, end.cause);
  }

  lemma DbFailureIsFinal(cfg: Config, msg: StreamMessage, end: End, st: Store, i: nat)
    requires HandleEnds(cfg, msg, end) && Settled(cfg, msg, end, st)
    requires i < |end.answers| && end.answers[i].Broke? && !IsOutage(end.answers[i].error)
    ensures i == |end.answers| - 1
    ensures Buried(st, msg.msgId, msg.rawFields, "unexpected error: " + end.answers[i].error.text)
  {
    OutagesAreTransient(end.answers[i].error);
    PermanentFailuresEndIt(cfg, msg.event, end.replies, end.answers, end.outcome, end.cause);
    RaisesItsCause(cfg, msg.event, end.replies, end.answers, end.outcome, end.cause);
  }

  lemma LeftAloneByOutage(cfg: Config, turns: nat -> Turn, from: nat, to: nat, fetched: seq<Fetch>,
                          msg: StreamMessage, end: End)
    requires HandleEnds(cfg, msg, end)
    requires AllAnswered(turns, from, to, fetched, msg.event.currency, end.replies)
    ensures LeftAlone(cfg, msg, end) <==> ByOutage(turns, from, to, end) && msg.deliveryCount < cfg.maxDeliveries
    ensures ByOutage(turns, from, to, end) ==> IsTransient(end.outcome)
  {
    var last := end.replies[|end.replies| - 1];
    assert Answered(turns, from, to, fetched, msg.event.currency, last);
    if last.FromService? { DownIsTransient(msg.event.currency, last.reply); }
    if end.answers != [] && end.answers[|end.answers| - 1].Broke? {
      OutagesAreTransient(end.answers[|end.answers| - 1].error);
    }
  }

  /** Error routing, end to end, for a `handle` that ran to its end.  A refusal by the rate service
      or a database failure that is no outage, wherever it comes, is the last reply of its stage
      and has dead-lettered the message, at any delivery count: after a 404 with the currency it
      names, otherwise with the text of what was raised.  After an outage, that is when the service
      answered 5xx or not at all, in a turn this very call took, or the database was out, the
      message is left alone below the cutoff, and dead-lettered as out of deliveries from it on.
      No other message is left alone. */
  lemma ErrorRouting(cfg: Config, turns: nat -> Turn, from: nat, to: nat, fetched: seq<Fetch>,
                     msg: StreamMessage, end: End, st: Store)
    requires HandleEnds(cfg, msg, end) && Settled(cfg, msg, end, st)
    requires AllAnswered(turns, from, to, fetched, msg.event.currency, end.replies)
    ensures forall i | 0 <= i < |end.replies| && IsRefusal(end.replies[i]) ::
      && i == |end.replies| - 1 && end.answers == []
      && Buried(st, msg.msgId, msg.rawFields,
                if end.replies[i].reply.status == 404 then "no rate for currency '" + msg.event.currency + "'"
                else "unexpected error: " + end.replies[i].reply.text)
    ensures forall i | 0 <= i < |end.answers| && end.answers[i].Broke? && !IsOutage(end.answers[i].error) ::
      && i == |end.answers| - 1
      && Buried(st, msg.msgId, msg.rawFields, "unexpected error: " + end.answers[i].error.text)
    ensures LeftAlone(cfg, msg, end) <==> ByOutage(turns, from, to, end) && msg.deliveryCount < cfg.maxDeliveries
    ensures ByOutage(turns, from, to, end) && msg.deliveryCount >= cfg.maxDeliveries ==>
      Buried(st, msg.msgId, msg.rawFields, "max deliveries exceeded")
  {
    forall i | 0 <= i < |end.replies| && IsRefusal(end.replies[i])
      ensures i == |end.replies| - 1 && end.answers == []
      ensures Buried(st, msg.msgId, msg.rawFields, RefusalReason(msg.event.currency, end.replies[i].reply))
    {
      RefusalIsFinal(cfg, msg, end, st, i);
    }
    forall i | 0 <= i < |end.answers| && end.answers[i].Broke? && !IsOutage(end.answers[i].error)
      ensures i == |end.answers| - 1
      ensures Buried(st, msg.msgId, msg.rawFields, "unexpected error: " + end.answers[i].error.text)
    {
      DbFailureIsFinal(cfg, msg, end, st, i);
    }
    LeftAloneByOutage(cfg, turns, from, to, fetched, msg, end);
  }

  /** The `except` branches of `handle`. */
  method HandleError(msg: StreamMessage, failure: Failure, consumer: StreamConsumer,
                     ghost msgs: seq<Message>, ghost cause: Cause)
    returns (alive: bool)
    requires consumer.world.Valid() && msgs != [] && Seen(msgs[0]) == msg
    requires IsFailure(msg.event.currency, cause) && failure == RaisedBy(msg.event.currency, cause)
    requires consumer.world.Mine() == Verdict(consumer.world.cfg, msgs, cause)
    modifies consumer.world
    ensures consumer.world.Valid() && old(consumer.world.run) <= consumer.world.run
    ensures old(consumer.world.turn) <= consumer.world.turn
    ensures alive ==>
      && consumer.world.Mine() == AfterHandle(msgs) && Grows(old(consumer.world.sys).store, consumer.world.sys.store)
      && if failure.Transient? && msg.deliveryCount < consumer.world.cfg.maxDeliveries then
           consumer.world.own == old(consumer.world.own)
         else consumer.world.own == old(consumer.world.own) + [LetterWritten, LetterAcked]
              && GivenUp(msg, failure, consumer.world.sys.store)
    ensures !alive ==> consumer.world.Mine() == Idle
  {
    alive := true;
    match failure
    case Permanent(text) =>
      alive := consumer.DeadLetterMessage(msg, text);
    case Transient(_) =>
      if msg.deliveryCount >= consumer.world.cfg.maxDeliveries {
        alive := consumer.DeadLetterMessage(msg, "max deliveries exceeded");
      }
    case Unexpected(text) =>
      alive := consumer.DeadLetterMessage(msg, "unexpected error: " + text);
  }

  /** Success acks.  If the ack itself raises, that is an unexpected error like any other. */
  method HandleSuccess(msg: StreamMessage, consumer: StreamConsumer, ghost msgs: seq<Message>, ghost stored: Stored)
    returns (alive: bool, ghost ackError: Option<(bool, string)>)
    requires consumer.world.Valid() && msgs != [] && Seen(msgs[0]) == msg
    requires consumer.world.Mine() == Handling(msgs, Ack(stored))
    modifies consumer.world
    ensures consumer.world.Valid() && old(consumer.world.run) <= consumer.world.run
    ensures old(consumer.world.turn) <= consumer.world.turn
    ensures alive ==>
      && consumer.world.Mine() == AfterHandle(msgs) && Grows(old(consumer.world.sys).store, consumer.world.sys.store)
      && consumer.world.own == old(consumer.world.own) + AckActions(ackError)
      && Gone(consumer.world.sys.store, msg.msgId)
      && (ackError.Some? ==> Buried(consumer.world.sys.store, msg.msgId, msg.rawFields,
                                    "unexpected error: " + ackError.value.1))
    ensures !alive ==> consumer.world.Mine() == Idle
  {
    ackError := None;
    var error;
    alive, error := consumer.Ack(msg.msgId);
    ghost var st := consumer.world.sys.store;
    if alive && error.Some? {
      ghost var applied :| consumer.world.own == old(consumer.world.own) + [AckReply(false, applied, error.value)];
      ackError := Some((applied, error.value));
      ThenLetter(old(consumer.world.own), AckReply(false, applied, error.value));
      alive := HandleError(msg, Unexpected(error.value), consumer, msgs, AckFailed(error.value));
    }
    if alive { GrowsTwice(old(consumer.world.sys).store, st, consumer.world.sys.store); }
  }

  lemma ThenLetter(own: seq<Action>, a: Action)
    ensures own + [a] + [LetterWritten, LetterAcked] == own + [a, LetterWritten, LetterAcked]
  {}

  function AckActions(ackError: Option<(bool, string)>): seq<Action> {
    if ackError.None? then [AckReply(true, true, "")]
    else [AckReply(false, ackError.value.0, ackError.value.1), LetterWritten, LetterAcked]
  }

  /** What `handle` does with the outcome of `process`. */
  method Decide(msg: StreamMessage, outcome: Outcome<Stored>, consumer: StreamConsumer,
                ghost msgs: seq<Message>, ghost end: End)
    returns (alive: bool, ghost end': End)
    requires consumer.world.Valid() && msgs != [] && Seen(msgs[0]) == msg
    requires end.outcome == outcome && end.ackError.None?
    requires match outcome
             case Ok(stored) =>
               && consumer.world.Mine() == Handling(msgs, Ack(stored))
               && HasId(consumer.world.sys.store.table, msg.event.id)
             case Err(f) =>
               && IsFailure(msg.event.currency, end.cause) && f == RaisedBy(msg.event.currency, end.cause)
               && consumer.world.Mine() == Verdict(consumer.world.cfg, msgs, end.cause)
    modifies consumer.world
    ensures consumer.world.Valid() && old(consumer.world.run) <= consumer.world.run
    ensures old(consumer.world.turn) <= consumer.world.turn
    ensures end' == end.(ackError := end'.ackError) && (outcome.Err? ==> end' == end)
    ensures alive ==>
      var w := consumer.world;
      && w.Mine() == AfterHandle(msgs) && w.own == old(w.own) + PolicyActions(w.cfg, msg, end')
      && Settled(w.cfg, msg, end', w.sys.store)
    ensures !alive ==> consumer.world.Mine() == Idle
  {
    end' := end;
    match outcome
    case Ok(stored) =>
      ghost var table, ackError := consumer.world.sys.store.table, None;
      alive, ackError := HandleSuccess(msg, consumer, msgs, stored);
      end' := end.(ackError := ackError);
      if alive { IdStays(table, consumer.world.sys.store.table, msg.event.id); }
    case Err(failure) =>
      alive := HandleError(msg, failure, consumer, msgs, end.cause);
  }

  /** `handle`: process one delivery and decide its fate. */
  method Handle(msg: StreamMessage, processor: EventProcessor, consumer: StreamConsumer)
    returns (alive: bool, ghost end: End)
    requires processor.world == consumer.world == processor.repo.world
    requires consumer.world.Valid() && processor.rates.Valid()
    requires consumer.world.Mine().Handling? && consumer.world.Mine().stage == Rate(1)
    requires consumer.world.Mine().msgs != [] && Seen(consumer.world.Mine().msgs[0]) == msg
    modifies consumer.world, processor.rates
    ensures consumer.world.Valid() && processor.rates.Valid() && old(consumer.world.run) <= consumer.world.run
    ensures alive ==>
      var w := consumer.world;
      && w.Mine() == AfterHandle(old(w.Mine()).msgs)
      && HandleEnds(w.cfg, msg, end) && w.own == old(w.own) + HandleActions(w.cfg, msg, end)
      && AllAnswered(w.turns, old(w.turn), w.turn, processor.rates.fetched, msg.event.currency, end.replies)
      && Settled(w.cfg, msg, end, w.sys.store)
    ensures !alive ==> consumer.world.Mine() == Idle
  {
    ghost var msgs := consumer.world.Mine().msgs;
    var result;
    ghost var replies, answers, cause;
    alive, result, replies, answers, cause := processor.Process(msg.event);
    label processed:
    end := End(replies, answers, result, cause, None);
    if !alive { return; }
    RaisesItsCause(consumer.world.cfg, msg.event, replies, answers, result, cause);
    ghost var own, before := consumer.world.own, end;
    alive, end := Decide(msg, result, consumer, msgs, end);
    AnsweredGrows(consumer.world.turns, old(consumer.world.turn), old@processed(consumer.world.turn),
                  consumer.world.turn, processor.rates.fetched, processor.rates.fetched, msg.event.currency, replies);
    if alive { Decided(consumer.world.cfg, msg, before, end, old(consumer.world.own), own, consumer.world.own); }
  }

  lemma Decided(cfg: Config, msg: StreamMessage, end: End, end': End,
                own0: seq<Action>, own: seq<Action>, own': seq<Action>)
    requires ProcessEnds(cfg, msg.event, end.replies, end.answers, end.outcome, end.cause)
    requires end.ackError.None? && end' == end.(ackError := end'.ackError) && (end.outcome.Err? ==> end' == end)
    requires own == own0 + RateActions(end.replies) + InsertActions(end.answers)
    requires own' == own + PolicyActions(cfg, msg, end')
    ensures HandleEnds(cfg, msg, end') && own' == own0 + HandleActions(cfg, msg, end')
  {
    Regroups(own0, RateActions(end.replies), InsertActions(end.answers), PolicyActions(cfg, msg, end'));
  }

  lemma Regroups(a: seq<Action>, b: seq<Action>, c: seq<Action>, d: seq<Action>)
    ensures a + b + c + d == a + (b + c + d)
  {}

  /** The second history only adds actions that continue what was in hand: no crash, no fetch. */
  predicate Worked(own0: seq<Action>, own: seq<Action>) {
    own0 <= own && forall i | |own0| <= i < |own| :: Continues(own[i])
  }

  lemma {:induction false} RateActionsContinue(replies: seq<RateAnswer>)
    ensures forall a <- RateActions(replies) :: Continues(a)
  {
    if replies != [] { RateActionsContinue(replies[..|replies| - 1]); }
  }

  lemma {:induction false} InsertActionsContinue(answers: seq<DbReply>)
    ensures forall a <- InsertActions(answers) :: Continues(a)
  {
    if answers != [] { InsertActionsContinue(answers[..|answers| - 1]); }
  }

  lemma {:induction false} ParseActionsContinue(codec: Codec, entries: seq<Entry>)
    ensures forall a <- ParseActions(codec, entries) :: Continues(a)
  {
    if entries != [] { ParseActionsContinue(codec, entries[..|entries| - 1]); }
  }

  lemma HandleWorks(cfg: Config, own0: seq<Action>, own: seq<Action>, msg: StreamMessage, end: End)
    requires Worked(own0, own)
    ensures Worked(own0, own + HandleActions(cfg, msg, end))
  {
    RateActionsContinue(end.replies);
    InsertActionsContinue(end.answers);
    var done := HandleActions(cfg, msg, end);
    forall i | |own| <= i < |own + done| ensures Continues((own + done)[i]) {
      assert (own + done)[i] == done[i - |own|] && done[i - |own|] in done;
    }
  }

  /** The steps of a whole batch: those of each message, in order. */
  function BatchActions(cfg: Config, messages: seq<StreamMessage>, ends: seq<End>): seq<Action>
    requires |ends| == |messages|
  {
    if messages == [] then []
    else
      var n := |messages| - 1;
      BatchActions(cfg, messages[..n], ends[..n]) + HandleActions(cfg, messages[n], ends[n])
  }

  /** Each message was handled to its end, which is settled. */
  predicate AllHandled(cfg: Config, messages: seq<StreamMessage>, ends: seq<End>, st: Store) {
    && |ends| == |messages|
    && (messages == [] ||
        var n := |messages| - 1;
        && AllHandled(cfg, messages[..n], ends[..n], st)
        && HandleEnds(cfg, messages[n], ends[n]) && Settled(cfg, messages[n], ends[n], st))
  }

  lemma {:induction false} AllHandledGrows(cfg: Config, messages: seq<StreamMessage>, ends: seq<End>,
                                           st: Store, st': Store)
    requires AllHandled(cfg, messages, ends, st) && Grows(st, st')
    ensures AllHandled(cfg, messages, ends, st')
  {
    if messages != [] {
      var n := |messages| - 1;
      AllHandledGrows(cfg, messages[..n], ends[..n], st, st');
      SettledGrows(cfg, messages[n], ends[n], st, st');
    }
  }

  lemma {:induction false} EachHandled(cfg: Config, messages: seq<StreamMessage>, ends: seq<End>, st: Store)
    requires AllHandled(cfg, messages, ends, st)
    ensures forall i | 0 <= i < |messages| ::
      HandleEnds(cfg, messages[i], ends[i]) && Settled(cfg, messages[i], ends[i], st)
  {
    if messages != [] {
      var n := |messages| - 1;
      EachHandled(cfg, messages[..n], ends[..n], st);
      forall i | 0 <= i < n
        ensures HandleEnds(cfg, messages[i], ends[i]) && Settled(cfg, messages[i], ends[i], st)
      {
        assert messages[..n][i] == messages[i] && ends[..n][i] == ends[i];
      }
    }
  }

  lemma OneMoreHandled(cfg: Config, messages: seq<StreamMessage>, k: nat, ends: seq<End>, end: End,
                       st: Store, st': Store)
    requires k < |messages| && AllHandled(cfg, messages[..k], ends, st) && Grows(st, st')
    requires HandleEnds(cfg, messages[k], end) && Settled(cfg, messages[k], end, st')
    ensures AllHandled(cfg, messages[..k + 1], ends + [end], st')
    ensures BatchActions(cfg, messages[..k + 1], ends + [end])
         == BatchActions(cfg, messages[..k], ends) + HandleActions(cfg, messages[k], end)
  {
    assert messages[..k + 1][..k] == messages[..k] && (ends + [end])[..k] == ends;
    AllHandledGrows(cfg, messages[..k], ends, st, st');
  }

  /** One round of the `for` of both loops. */
  method HandleNext(messages: seq<StreamMessage>, k: nat, processor: EventProcessor, consumer: StreamConsumer,
                    ghost own: seq<Action>, ghost ends: seq<End>)
    returns (alive: bool, ghost ends': seq<End>)
    requires processor.world == consumer.world == processor.repo.world
    requires consumer.world.Valid() && processor.rates.Valid()
    requires k < |messages| && Ready(consumer.world.Mine(), messages[k..])
    requires AllHandled(consumer.world.cfg, messages[..k], ends, consumer.world.sys.store)
    requires consumer.world.own == own + BatchActions(consumer.world.cfg, messages[..k], ends)
    requires Worked(own, consumer.world.own)
    modifies consumer.world, processor.rates
    ensures consumer.world.Valid() && processor.rates.Valid() && old(consumer.world.run) <= consumer.world.run
    ensures alive ==>
      && Ready(consumer.world.Mine(), messages[k + 1..])
      && AllHandled(consumer.world.cfg, messages[..k + 1], ends', consumer.world.sys.store)
      && consumer.world.own == own + BatchActions(consumer.world.cfg, messages[..k + 1], ends')
      && Worked(own, consumer.world.own)
    ensures !alive ==> consumer.world.Mine() == Idle
  {
    ghost var run, st, own1 := consumer.world.run, consumer.world.sys.store, consumer.world.own;
    NextIsReady(consumer.world.Mine().msgs, messages, k);
    ghost var end;
    alive, end := Handle(messages[k], processor, consumer);
    ends' := ends + [end];
    if !alive { return; }
    consumer.world.GrownSince(run, st);
    NextHandled(consumer.world.cfg, messages, k, ends, end, own, own1, consumer.world.own,
                st, consumer.world.sys.store);
  }

  lemma NextHandled(cfg: Config, messages: seq<StreamMessage>, k: nat, ends: seq<End>, end: End,
                    own0: seq<Action>, own: seq<Action>, own': seq<Action>, st: Store, st': Store)
    requires k < |messages| && AllHandled(cfg, messages[..k], ends, st) && Grows(st, st')
    requires HandleEnds(cfg, messages[k], end) && Settled(cfg, messages[k], end, st')
    requires own == own0 + BatchActions(cfg, messages[..k], ends) && Worked(own0, own)
    requires own' == own + HandleActions(cfg, messages[k], end)
    ensures AllHandled(cfg, messages[..k + 1], ends + [end], st') && Worked(own0, own')
    ensures own' == own0 + BatchActions(cfg, messages[..k + 1], ends + [end])
  {
    HandleWorks(cfg, own0, own, messages[k], end);
    OneMoreHandled(cfg, messages, k, ends, end, st, st');
    Associates(own0, BatchActions(cfg, messages[..k], ends), HandleActions(cfg, messages[k], end));
  }

  lemma Associates(a: seq<Action>, b: seq<Action>, c: seq<Action>)
    ensures (a + b) + c == a + (b + c)
  {}

  /** The `for` of both loops: every message of the batch is handled, in order, and none is kept. */
  method HandleBatch(messages: seq<StreamMessage>, processor: EventProcessor, consumer: StreamConsumer)
    returns (alive: bool, ghost ends: seq<End>)
    requires processor.world == consumer.world == processor.repo.world
    requires consumer.world.Valid() && processor.rates.Valid() && Ready(consumer.world.Mine(), messages)
    modifies consumer.world, processor.rates
    ensures consumer.world.Valid() && processor.rates.Valid() && old(consumer.world.run) <= consumer.world.run
    ensures alive ==>
      && AllHandled(consumer.world.cfg, messages, ends, consumer.world.sys.store)
      && (forall i | 0 <= i < |messages| ::
            HandleEnds(consumer.world.cfg, messages[i], ends[i])
            && Settled(consumer.world.cfg, messages[i], ends[i], consumer.world.sys.store))
      && consumer.world.own == old(consumer.world.own) + BatchActions(consumer.world.cfg, messages, ends)
      && Worked(old(consumer.world.own), consumer.world.own)
    ensures consumer.world.Mine() == Idle
  {
    alive, ends := true, [];
    var k := 0;
    while k < |messages|
      invariant 0 <= k <= |messages| && alive
      invariant consumer.world.Valid() && processor.rates.Valid() && old(consumer.world.run) <= consumer.world.run
      invariant Ready(consumer.world.Mine(), messages[k..])
      invariant AllHandled(consumer.world.cfg, messages[..k], ends, consumer.world.sys.store)
      invariant consumer.world.own == old(consumer.world.own) + BatchActions(consumer.world.cfg, messages[..k], ends)
      invariant Worked(old(consumer.world.own), consumer.world.own)
    {
      alive, ends := HandleNext(messages, k, processor, consumer, old(consumer.world.own), ends);
      if !alive { return; }
      k := k + 1;
    }
    assert messages[..k] == messages;
    EachHandled(consumer.world.cfg, messages, ends, consumer.world.sys.store);
  }

  lemma NextIsReady(msgs: seq<Message>, messages: seq<StreamMessage>, k: nat)
    requires k < |messages| && SeenAll(msgs) == messages[k..]
    ensures msgs != [] && Seen(msgs[0]) == messages[k]
    ensures Ready(AfterHandle(msgs), messages[k + 1..])
  {
    assert |SeenAll(msgs)| == |msgs|;
    assert SeenAll(msgs)[0] == messages[k..][0];
    assert messages[k + 1..] == messages[k..][1..];
    if |msgs| > 1 {
      assert SeenAll(msgs[1..]) == SeenAll(msgs)[1..];
    }
  }

  predicate IsFetch(a: Action) {
    a.Read? || a.Claim?
  }

  /** How many batches were asked for. */
  function Fetches(own: seq<Action>): nat {
    if own == [] then 0 else Fetches(own[..|own| - 1]) + if IsFetch(own[|own| - 1]) then 1 else 0
  }

  lemma {:induction false} WorkFetchesNothing(own0: seq<Action>, own: seq<Action>)
    requires Worked(own0, own)
    ensures Fetches(own) == Fetches(own0)
  {
    if |own0| == |own| {
      assert own == own0;
    } else {
      WorkFetchesNothing(own0, own[..|own| - 1]);
    }
  }

  /** The history between two points of a loop that is still running: no crash, that many
      batches, and all of them fetched in the loop's own way. */
  predicate Looped(own0: seq<Action>, own: seq<Action>, rounds: nat, reclaiming: bool) {
    && own0 <= own && Fetches(own) == Fetches(own0) + rounds
    && forall i | |own0| <= i < |own| :: !own[i].Crash? && (if reclaiming then !own[i].Read? else !own[i].Claim?)
  }

  lemma OneMoreRound(own0: seq<Action>, own: seq<Action>, fetch: Action, own': seq<Action>,
                     rounds: nat, reclaiming: bool)
    requires Looped(own0, own, rounds, reclaiming) && Worked(own + [fetch], own')
    requires if reclaiming then fetch.Claim? else fetch.Read?
    ensures Looped(own0, own', rounds + 1, reclaiming)
  {
    WorkFetchesNothing(own + [fetch], own');
    assert (own + [fetch])[..|own|] == own;
    forall i | |own0| <= i < |own'|
      ensures !own'[i].Crash? && (if reclaiming then !own'[i].Read? else !own'[i].Claim?)
    {
      assert i < |own| ==> own'[i] == (own + [fetch])[i] == own[i];
      assert i == |own| ==> own'[i] == (own + [fetch])[i] == fetch;
    }
  }

  lemma WorkedTwice(a: seq<Action>, b: seq<Action>, c: seq<Action>)
    requires Worked(a, b) && Worked(b, c)
    ensures Worked(a, c)
  {}

  lemma ReadWorks(own: seq<Action>, codec: Codec, entries: seq<Entry>)
    ensures Worked(own + [Read(|entries|)], own + [Read(|entries|)] + ParseActions(codec, entries))
  {
    var own0, more := own + [Read(|entries|)], ParseActions(codec, entries);
    ParseActionsContinue(codec, entries);
    forall i | |own0| <= i < |own0 + more| ensures Continues((own0 + more)[i]) {
      assert (own0 + more)[i] == more[i - |own0|] && more[i - |own0|] in more;
    }
  }

  lemma ClaimWorks(own: seq<Action>, codec: Codec, claimed: seq<Entry>, fetch: Action)
    ensures Worked(own + [fetch], own + [fetch] + Lookups(|claimed|) + ParseActions(codec, claimed))
  {
    var own0, more := own + [fetch], ParseActions(codec, claimed);
    var own1 := own0 + Lookups(|claimed|);
    ParseActionsContinue(codec, claimed);
    forall i | |own1| <= i < |own1 + more| ensures Continues((own1 + more)[i]) {
      assert (own1 + more)[i] == more[i - |own1|] && more[i - |own1|] in more;
    }
  }

  /** One round of `consume_loop`: the next unread entries of the store `before`, each handled to
      its end or dead-lettered. */
  method ConsumeRound(processor: EventProcessor, consumer: StreamConsumer)
    returns (alive: bool, ghost entries: seq<Entry>, ghost before: Store, ghost ends: seq<End>)
    requires processor.world == consumer.world == processor.repo.world
    requires consumer.world.Valid() && processor.rates.Valid() && consumer.world.Mine() == Idle
    modifies consumer.world, processor.rates
    ensures consumer.world.Valid() && processor.rates.Valid() && old(consumer.world.run) <= consumer.world.run
    ensures alive ==>
      && NextUnread(entries, before)
      && AllHandled(consumer.world.cfg, ParseAll(consumer.world.cfg.codec, entries, Ones(entries)), ends,
                    consumer.world.sys.store)
      && AllBuried(consumer.world.cfg.codec, entries, consumer.world.sys.store)
      && Worked(old(consumer.world.own) + [Read(|entries|)], consumer.world.own)
    ensures consumer.world.Mine() == Idle
  {
    var messages;
    alive, messages, entries, before := consumer.Read();
    ends := [];
    if !alive { return; }
    ghost var read, run, st := consumer.world.own, consumer.world.run, consumer.world.sys.store;
    alive, ends := HandleBatch(messages, processor, consumer);
    if !alive { return; }
    consumer.world.GrownSince(run, st);
    BuriedStay(consumer.world.cfg, entries, st, consumer.world.sys.store);
    ReadWorks(old(consumer.world.own), consumer.world.cfg.codec, entries);
    WorkedTwice(old(consumer.world.own) + [Read(|entries|)], read, consumer.world.own);
  }

  /** `rounds` rounds of `consume_loop`, which ends only when its task is lost. */
  method ConsumeLoop(rounds: nat, processor: EventProcessor, consumer: StreamConsumer) returns (alive: bool)
    requires processor.world == consumer.world == processor.repo.world
    requires consumer.world.Valid() && processor.rates.Valid() && consumer.world.Mine() == Idle
    modifies consumer.world, processor.rates
    ensures consumer.world.Valid() && processor.rates.Valid() && old(consumer.world.run) <= consumer.world.run
    ensures alive ==> Looped(old(consumer.world.own), consumer.world.own, rounds, false)
    ensures consumer.world.Mine() == Idle
  {
    alive := true;
    for round := 0 to rounds
      invariant alive && consumer.world.Valid() && processor.rates.Valid()
      invariant old(consumer.world.run) <= consumer.world.run && consumer.world.Mine() == Idle
      invariant Looped(old(consumer.world.own), consumer.world.own, round, false)
    {
      ghost var own := consumer.world.own;
      ghost var entries, before, ends;
      alive, entries, before, ends := ConsumeRound(processor, consumer);
      if !alive { return; }
      OneMoreRound(old(consumer.world.own), own, Read(|entries|), consumer.world.own, round, false);
    }
  }

  /** One round of `reclaim_loop`: some pending entries of the store `before`, with counts that are
      not too small, each handled to its end or dead-lettered. */
  method ReclaimRound(processor: EventProcessor, consumer: StreamConsumer)
    returns (alive: bool, ghost claimed: seq<Entry>, ghost dropped: set<EntryId>, ghost batch: seq<Delivery>,
             ghost counts: map<EntryId, nat>, ghost before: Store, ghost ends: seq<End>)
    requires processor.world == consumer.world == processor.repo.world
    requires consumer.world.Valid() && processor.rates.Valid() && consumer.world.Mine() == Idle
    modifies consumer.world, processor.rates
    ensures consumer.world.Valid() && processor.rates.Valid() && old(consumer.world.run) <= consumer.world.run
    ensures forall e <- claimed :: alive ==> e.id in counts
    ensures alive ==>
      && WerePending(claimed, batch, before) && CountsHold(claimed, batch, counts, consumer.world.sys.store)
      && AllBuried(consumer.world.cfg.codec, claimed, consumer.world.sys.store)
      && AllHandled(consumer.world.cfg, ParseAll(consumer.world.cfg.codec, claimed, counts), ends,
                    consumer.world.sys.store)
      && Worked(old(consumer.world.own) + [Claim(Runtime.IdsOf(claimed), dropped)], consumer.world.own)
    ensures consumer.world.Mine() == Idle
  {
    claimed, dropped, batch, counts, ends := [], {}, [], map[], [];
    before := consumer.world.sys.store;
    alive := consumer.world.Sleep();
    if !alive { return; }
    var messages;
    alive, messages, claimed, batch, counts, dropped, before := consumer.ClaimStale();
    if !alive { return; }
    ghost var read, fetch := consumer.world.own, Claim(Runtime.IdsOf(claimed), dropped);
    ghost var run, st := consumer.world.run, consumer.world.sys.store;
    alive, ends := HandleBatch(messages, processor, consumer);
    if !alive { return; }
    consumer.world.GrownSince(run, st);
    BuriedStay(consumer.world.cfg, claimed, st, consumer.world.sys.store);
    CountsStillHold(claimed, batch, counts, st, consumer.world.sys.store);
    ClaimWorks(old(consumer.world.own), consumer.world.cfg.codec, claimed, fetch);
    WorkedTwice(old(consumer.world.own) + [fetch], read, consumer.world.own);
  }

  /** `rounds` rounds of `reclaim_loop`. */
  method ReclaimLoop(rounds: nat, processor: EventProcessor, consumer: StreamConsumer) returns (alive: bool)
    requires processor.world == consumer.world == processor.repo.world
    requires consumer.world.Valid() && processor.rates.Valid() && consumer.world.Mine() == Idle
    modifies consumer.world, processor.rates
    ensures consumer.world.Valid() && processor.rates.Valid() && old(consumer.world.run) <= consumer.world.run
    ensures alive ==> Looped(old(consumer.world.own), consumer.world.own, rounds, true)
    ensures consumer.world.Mine() == Idle
  {
    alive := true;
    for round := 0 to rounds
      invariant alive && consumer.world.Valid() && processor.rates.Valid()
      invariant old(consumer.world.run) <= consumer.world.run && consumer.world.Mine() == Idle
      invariant Looped(old(consumer.world.own), consumer.world.own, round, true)
    {
      ghost var own := consumer.world.own;
      ghost var claimed, dropped, batch, counts, before, ends;
      alive, claimed, dropped, batch, counts, before, ends := ReclaimRound(processor, consumer);
      if !alive { return; }
      OneMoreRound(old(consumer.world.own), own, Claim(Runtime.IdsOf(claimed), dropped), consumer.world.own,
                   round, true);
    }
  }
}
