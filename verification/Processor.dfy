/** The per-event step: look up a rate, convert, store idempotently, each call under retry. */
module Processor {
  import opened Errors
  import opened Converter
  import opened Events
  import opened Table
  import opened Retry
  import opened Protocol
  import opened Safety
  import opened RateClients
  import opened Runtime
  import opened Repository

  function RateActions(replies: seq<RateAnswer>): seq<Action> {
    if replies == [] then []
    else RateActions(replies[..|replies| - 1]) + [RateReply(replies[|replies| - 1])]
  }

  function InsertActions(answers: seq<DbReply>): seq<Action> {
    if answers == [] then []
    else InsertActions(answers[..|answers| - 1]) + [InsertReply(answers[|answers| - 1])]
  }

  /** What the rate retry sees of its lookups. */
  function Replies(currency: string, replies: seq<RateAnswer>): seq<Outcome<Decimal>> {
    seq(|replies|, i requires 0 <= i < |replies| => Replied(currency, replies[i]))
  }

  /** An insert's answer as the retry loop sees it. */
  function Reported(answer: DbReply): Outcome<()> {
    match answer
    case Committed => Ok(())
    case Broke(error, _) => Err(Reraised(error))
  }

  function Reports(answers: seq<DbReply>): seq<Outcome<()>> {
    seq(|answers|, i requires 0 <= i < |answers| => Reported(answers[i]))
  }

  /** Where a lookup's answer came from: a rate fetched for this currency before, or the reply the
      service gave in one of the turns from `from` to `to`. */
  ghost predicate Answered(turns: nat -> Turn, from: nat, to: nat, fetched: seq<Fetch>, currency: string,
                           answer: RateAnswer)
  {
    match answer
    case FromCache(rate) => exists i :: 0 <= i < |fetched| && fetched[i].currency == currency && fetched[i].rate == rate
    case FromService(reply) => exists k :: from <= k < to && reply == turns(k).reply
  }

  ghost predicate AllAnswered(turns: nat -> Turn, from: nat, to: nat, fetched: seq<Fetch>, currency: string,
                              replies: seq<RateAnswer>)
  {
    forall i | 0 <= i < |replies| :: Answered(turns, from, to, fetched, currency, replies[i])
  }

  lemma AnsweredGrows(turns: nat -> Turn, from: nat, to: nat, to': nat, fetched: seq<Fetch>, fetched': seq<Fetch>,
                      currency: string, replies: seq<RateAnswer>)
    requires to <= to' && fetched <= fetched' && AllAnswered(turns, from, to, fetched, currency, replies)
    ensures AllAnswered(turns, from, to', fetched', currency, replies)
  {
    forall j | 0 <= j < |replies| ensures Answered(turns, from, to', fetched', currency, replies[j]) {
      if replies[j].FromCache? {
        var i :| 0 <= i < |fetched| && fetched[i].currency == currency && fetched[i].rate == replies[j].rate;
        assert fetched'[i] == fetched[i];
      } else {
        var k :| from <= k < to && replies[j].reply == turns(k).reply;
        assert from <= k < to';
      }
    }
  }

  /** How `process` ends, given everything it got back: the insert is only attempted at a rate that
      was looked up and converted, the last reply decides, and a failure is that reply's. */
  predicate ProcessEnds(cfg: Config, event: TransactionEvent, replies: seq<RateAnswer>, answers: seq<DbReply>,
                        outcome: Outcome<Stored>, cause: Cause)
  {
    && IsRetry(Replies(event.currency, replies), cfg.rateAttempts)
    && var last := replies[|replies| - 1];
       match Replied(event.currency, last)
       case Err(f) => answers == [] && cause == RateFailed(last.reply) && outcome == Err(f)
       case Ok(rate) =>
         if ConvertToUsd(event.amount, rate).None? then
           answers == [] && cause == NotConvertible && outcome == Err(INVALID_OPERATION)
         else
           && IsRetry(Reports(answers), cfg.dbAttempts)
           && match answers[|answers| - 1]
              case Committed => outcome.Ok? && cause == NoFailure
              case Broke(error, _) => cause == InsertFailed(error) && outcome == Err(Reraised(error))
  }

  /** What the call raises is what its cause raises. */
  lemma RaisesItsCause(cfg: Config, event: TransactionEvent, replies: seq<RateAnswer>, answers: seq<DbReply>,
                       outcome: Outcome<Stored>, cause: Cause)
    requires ProcessEnds(cfg, event, replies, answers, outcome, cause)
    ensures outcome.Err? ==> IsFailure(event.currency, cause) && outcome.failure == RaisedBy(event.currency, cause)
    ensures outcome.Ok? <==> cause.NoFailure?
  {}

  /** What `process` promises its caller: a bounded number of downstream calls, no insert without
      a rate, a commit behind every normal return, and a TransientError only after one stage
      failed transiently on every attempt it had. */
  lemma ProcessContract(cfg: Config, event: TransactionEvent, replies: seq<RateAnswer>, answers: seq<DbReply>,
                        outcome: Outcome<Stored>, cause: Cause)
    requires ProcessEnds(cfg, event, replies, answers, outcome, cause)
    ensures |replies| + |answers| <= cfg.rateAttempts + cfg.dbAttempts
    ensures answers != [] ==> exists i :: 0 <= i < |replies| && Replied(event.currency, replies[i]).Ok?
    ensures outcome.Ok? ==> exists i :: 0 <= i < |answers| && answers[i].Committed?
    ensures IsTransient(outcome) ==>
      || (|replies| == cfg.rateAttempts && answers == []
          && forall i | 0 <= i < |replies| :: IsTransient(Replied(event.currency, replies[i])))
      || (|answers| == cfg.dbAttempts && forall i | 0 <= i < |answers| :: IsTransient(Reported(answers[i])))
  {
    EachReply(event.currency, replies, answers);
    var last := replies[|replies| - 1];
    assert answers != [] ==> Replied(event.currency, last).Ok?;
    assert outcome.Ok? ==> answers[|answers| - 1].Committed?;
  }

  lemma EachReply(currency: string, replies: seq<RateAnswer>, answers: seq<DbReply>)
    ensures forall i | 0 <= i < |replies| :: Replies(currency, replies)[i] == Replied(currency, replies[i])
    ensures forall i | 0 <= i < |answers| :: Reports(answers)[i] == Reported(answers[i])
  {}

  /** A failure that is not transient is never retried: it is the last reply of its stage, and the
      cause of the outcome. */
  lemma PermanentFailuresEndIt(cfg: Config, event: TransactionEvent, replies: seq<RateAnswer>, answers: seq<DbReply>,
                               outcome: Outcome<Stored>, cause: Cause)
    requires ProcessEnds(cfg, event, replies, answers, outcome, cause)
    ensures forall i | 0 <= i < |replies| && Replied(event.currency, replies[i]).Err?
                       && !IsTransient(Replied(event.currency, replies[i])) ::
      i == |replies| - 1 && answers == [] && replies[i].FromService? && cause == RateFailed(replies[i].reply)
    ensures forall i | 0 <= i < |answers| && answers[i].Broke? && !Reraised(answers[i].error).Transient? ::
      i == |answers| - 1 && cause == InsertFailed(answers[i].error)
  {
    RefusalsEndIt(cfg, event, replies, answers, outcome, cause);
    if answers != [] { LastReports(answers, cfg.dbAttempts); }
  }

  lemma RefusalsEndIt(cfg: Config, event: TransactionEvent, replies: seq<RateAnswer>, answers: seq<DbReply>,
                      outcome: Outcome<Stored>, cause: Cause)
    requires ProcessEnds(cfg, event, replies, answers, outcome, cause)
    ensures forall i | 0 <= i < |replies| && Replied(event.currency, replies[i]).Err?
                       && !IsTransient(Replied(event.currency, replies[i])) ::
      i == |replies| - 1 && answers == [] && replies[i].FromService? && cause == RateFailed(replies[i].reply)
  {
    LastReplies(event.currency, replies, cfg.rateAttempts);
  }

  lemma LastReplies(currency: string, replies: seq<RateAnswer>, attempts: nat)
    requires IsRetry(Replies(currency, replies), attempts)
    ensures forall i | 0 <= i < |replies| && !IsTransient(Replied(currency, replies[i])) :: i == |replies| - 1
  {
    forall i | 0 <= i < |replies| && !IsTransient(Replied(currency, replies[i])) ensures i == |replies| - 1 {
      OnlyTheLast(Replies(currency, replies), attempts, i);
    }
  }

  lemma LastReports(answers: seq<DbReply>, attempts: nat)
    requires IsRetry(Reports(answers), attempts)
    ensures forall i | 0 <= i < |answers| && !IsTransient(Reported(answers[i])) :: i == |answers| - 1
  {
    forall i | 0 <= i < |answers| && !IsTransient(Reported(answers[i])) ensures i == |answers| - 1 {
      OnlyTheLast(Reports(answers), attempts, i);
    }
  }

  /** A row of the table is this event, field by field, converted at the rate the lookup gave. */
  predicate HoldsEvent(table: seq<Row>, event: TransactionEvent, answer: RateAnswer) {
    exists row :: row in table && IsRowOf(row, event) && Gives(answer, row.rate)
  }

  lemma RowHoldsEvent(table: seq<Row>, event: TransactionEvent, answer: RateAnswer, rate: Decimal, cents: int)
    requires Replied(event.currency, answer) == Ok(rate) && ConvertToUsd(event.amount, rate) == Some(cents)
    requires RowOf(event, rate, cents) in table
    ensures HoldsEvent(table, event, answer)
  {
    RepliedIsGiven(event.currency, answer, rate);
    assert IsRowOf(RowOf(event, rate, cents), event);
  }

  lemma StoredAs(table: seq<Row>, row: Row)
    ensures HasId(table + [row], row.id) && row in table + [row]
  {
    assert (table + [row])[|table|] == row;
  }

  lemma OneMoreRate(currency: string, replies: seq<RateAnswer>, answer: RateAnswer)
    ensures RateActions(replies + [answer]) == RateActions(replies) + [RateReply(answer)]
    ensures Replies(currency, replies + [answer]) == Replies(currency, replies) + [Replied(currency, answer)]
  {
    assert (replies + [answer])[..|replies|] == replies;
  }

  lemma NextReply(currency: string, replies: seq<RateAnswer>, answer: RateAnswer, own: seq<Action>, attempts: nat)
    requires AllTransient(Replies(currency, replies)) && |replies| < attempts
    ensures own + RateActions(replies) + [RateReply(answer)] == own + RateActions(replies + [answer])
    ensures var replies' := replies + [answer];
      if IsTransient(Replied(currency, answer)) && |replies'| < attempts then AllTransient(Replies(currency, replies'))
      else IsRetry(Replies(currency, replies'), attempts)
  {
    OneMoreRate(currency, replies, answer);
    OneMoreCall(Replies(currency, replies), Replied(currency, answer), attempts);
  }

  lemma OneMoreInsert(answers: seq<DbReply>, answer: DbReply)
    ensures InsertActions(answers + [answer]) == InsertActions(answers) + [InsertReply(answer)]
    ensures Reports(answers + [answer]) == Reports(answers) + [Reported(answer)]
  {
    assert (answers + [answer])[..|answers|] == answers;
  }

  lemma FetchedBefore(fetched: seq<Fetch>, ttl: real, now: real, currency: string, rate: Decimal)
    requires StoredRecently(fetched, ttl, now, currency, rate)
    ensures exists i :: 0 <= i < |fetched| && fetched[i].currency == currency && fetched[i].rate == rate
  {
    var i :| IsLatest(fetched, currency, i) && fetched[i].rate == rate && now - fetched[i].at < ttl;
  }

  lemma OneMoreAnswer(turns: nat -> Turn, from: nat, mid: nat, to: nat, fetched: seq<Fetch>, fetched': seq<Fetch>,
                      currency: string, replies: seq<RateAnswer>, answer: RateAnswer)
    requires from <= mid <= to && fetched <= fetched' && AllAnswered(turns, from, mid, fetched, currency, replies)
    requires Answered(turns, mid, to, fetched', currency, answer)
    ensures AllAnswered(turns, from, to, fetched', currency, replies + [answer])
  {
    AnsweredGrows(turns, from, mid, to, fetched, fetched', currency, replies);
    assert Answered(turns, from, to, fetched', currency, answer) by {
      if answer.FromService? {
        var k :| mid <= k < to && answer.reply == turns(k).reply;
        assert from <= k < to;
      }
    }
  }

  /** What the last answer of a retried insert leaves: the id stored and the ack to come, or the
      policy's verdict on the failure. */
  predicate InsertEnds(cfg: Config, msgs: seq<Message>, row: Row, inserted: Outcome<bool>, last: DbReply,
                       st: Store, task: Task)
    requires msgs != []
  {
    match last
    case Committed =>
      && inserted.Ok? && HasId(st.table, row.id) && (inserted.value ==> row in st.table)
      && task == Handling(msgs, Ack(if inserted.value then Processed else Duplicate))
    case Broke(error, _) =>
      inserted == Err(Reraised(error)) && task == Verdict(cfg, msgs, InsertFailed(error))
  }

  class EventProcessor {
    const world: World
    const rates: RateClient
    const repo: TransactionRepository

    constructor (world: World, rates: RateClient, repo: TransactionRepository)
      requires repo.world == world
      ensures this.world == world && this.rates == rates && this.repo == repo
    {
      this.world, this.rates, this.repo := world, rates, repo;
    }

    /** One call of the function the rate retry is given.  Before it, time has passed and the
        other loop may have stored rates. */
    method LookUp(currency: string) returns (alive: bool, rate: Outcome<Decimal>, ghost answer: RateAnswer)
      requires world.Valid() && rates.Valid()
      requires world.Mine().Handling? && world.Mine().stage.Rate? && world.Mine().msgs != []
      modifies world, rates
      ensures world.Valid() && rates.Valid() && old(world.run) <= world.run && old(world.turn) <= world.turn
      ensures old(rates.fetched) <= rates.fetched && rate == Replied(currency, answer)
      ensures Answered(world.turns, old(world.turn), world.turn, rates.fetched, currency, answer)
      ensures alive ==>
        && world.own == old(world.own) + [RateReply(answer)]
        && RateLeadsTo(world.cfg, old(world.Mine()).msgs, old(world.Mine()).stage.attempt, answer, world.Mine())
      ensures !alive ==> world.Mine() == Idle
    {
      var turn, asked := world.turns(world.turn), false;
      rates.Meanwhile(turn.idle);
      label looking:
      rate, asked := rates.GetRate(currency, turn.wait, turn.reply);
      var got := if asked then FromService(turn.reply) else FromCache(rate.value);
      answer := got;
      if !asked {
        FetchedBefore(old@looking(rates.fetched), rates.ttl, old@looking(rates.now), currency, rate.value);
      }
      alive := world.RateReturns(got);
    }

    /** One round of the rate retry: the lookup, and the sleep if there will be another. */
    method LookUpThenSleep(currency: string, attempt: nat, ghost from: nat, ghost own: seq<Action>,
                           ghost replies: seq<RateAnswer>)
      returns (alive: bool, rate: Outcome<Decimal>, ghost replies': seq<RateAnswer>)
      requires world.Valid() && rates.Valid()
      requires world.Mine().Handling? && world.Mine().stage == Rate(attempt) && world.Mine().msgs != []
      requires |replies| == attempt - 1 && attempt <= world.cfg.rateAttempts && AllTransient(Replies(currency, replies))
      requires from <= world.turn && AllAnswered(world.turns, from, world.turn, rates.fetched, currency, replies)
      requires world.own == own + RateActions(replies)
      modifies world, rates
      ensures world.Valid() && rates.Valid() && old(world.run) <= world.run && old(world.turn) <= world.turn
      ensures |replies'| == |replies| + 1 && rate == Replied(currency, replies'[|replies|])
      ensures if IsTransient(rate) && attempt < world.cfg.rateAttempts then AllTransient(Replies(currency, replies'))
              else IsRetry(Replies(currency, replies'), world.cfg.rateAttempts)
      ensures alive ==>
        && AllAnswered(world.turns, from, world.turn, rates.fetched, currency, replies')
        && world.own == own + RateActions(replies')
        && RateLeadsTo(world.cfg, old(world.Mine()).msgs, attempt, replies'[|replies|], world.Mine())
      ensures !alive ==> world.Mine() == Idle
    {
      ghost var fetched, turn, answer := rates.fetched, world.turn, FromService(NoAnswer(""));
      alive, rate, answer := LookUp(currency);
      replies' := replies + [answer];
      OneMoreAnswer(world.turns, from, turn, world.turn, fetched, rates.fetched, currency, replies, answer);
      NextReply(currency, replies, answer, own, world.cfg.rateAttempts);
      if alive && IsTransient(rate) && attempt < world.cfg.rateAttempts {
        ghost var to := world.turn;
        alive := world.Sleep();
        AnsweredGrows(world.turns, from, to, world.turn, rates.fetched, rates.fetched, currency, replies');
      }
    }

    /** The first `retry_async`: look the rate up, at most `rate_attempts` times. */
    method RetryRate(event: TransactionEvent)
      returns (alive: bool, rate: Outcome<Decimal>, ghost replies: seq<RateAnswer>)
      requires world.Valid() && rates.Valid()
      requires world.Mine().Handling? && world.Mine().stage == Rate(1) && world.Mine().msgs != []
      requires world.Mine().msgs[0].event == event
      modifies world, rates
      ensures world.Valid() && rates.Valid() && old(world.run) <= world.run && old(world.turn) <= world.turn
      ensures alive ==>
        && IsRetry(Replies(event.currency, replies), world.cfg.rateAttempts)
        && rate == Replied(event.currency, replies[|replies| - 1])
        && AllAnswered(world.turns, old(world.turn), world.turn, rates.fetched, event.currency, replies)
        && world.own == old(world.own) + RateActions(replies)
        && RateLeadsTo(world.cfg, old(world.Mine()).msgs, |replies|, replies[|replies| - 1], world.Mine())
      ensures !alive ==> world.Mine() == Idle
    {
      ghost var msgs := world.Mine().msgs;
      replies := [];
      var attempt := 1;
      while true
        invariant 1 <= attempt <= world.cfg.rateAttempts && |replies| == attempt - 1
        invariant world.Valid() && rates.Valid() && old(world.run) <= world.run && old(world.turn) <= world.turn
        invariant AllTransient(Replies(event.currency, replies))
        invariant AllAnswered(world.turns, old(world.turn), world.turn, rates.fetched, event.currency, replies)
        invariant world.own == old(world.own) + RateActions(replies)
        invariant world.Mine() == Handling(msgs, Rate(attempt))
        decreases world.cfg.rateAttempts - attempt
      {
        alive, rate, replies := LookUpThenSleep(event.currency, attempt, old(world.turn), old(world.own), replies);
        if !alive { return; }
        if !IsTransient(rate) || attempt >= world.cfg.rateAttempts {
          return;
        }
        attempt := attempt + 1;
      }
    }

    /** One round of the insert retry: the insert, and the sleep if there will be another. */
    method InsertThenSleep(row: Row, attempt: nat, ghost own: seq<Action>, ghost answers: seq<DbReply>)
      returns (alive: bool, inserted: Outcome<bool>, ghost answers': seq<DbReply>)
      requires world.Valid() && repo.world == world
      requires world.Mine().Handling? && world.Mine().stage.Insert? && world.Mine().msgs != []
      requires world.Mine().stage.attempt == attempt
      requires row == RowOf(world.Mine().msgs[0].event, world.Mine().stage.rate, world.Mine().stage.cents)
      requires |answers| == attempt - 1 && attempt <= world.cfg.dbAttempts && AllTransient(Reports(answers))
      requires world.own == own + InsertActions(answers)
      modifies world
      ensures world.Valid() && old(world.run) <= world.run && old(world.turn) <= world.turn
      ensures |answers'| == |answers| + 1
      ensures alive ==>
        && (inserted.Ok? <==> answers'[|answers|].Committed?)
        && (inserted.Err? ==> inserted.failure == Reraised(answers'[|answers|].error))
        && world.own == own + InsertActions(answers')
        && (if IsTransient(inserted) && attempt < world.cfg.dbAttempts then
              && AllTransient(Reports(answers'))
              && world.Mine() == Handling(old(world.Mine()).msgs, old(world.Mine()).stage.(attempt := attempt + 1))
            else
              && IsRetry(Reports(answers'), world.cfg.dbAttempts)
              && InsertEnds(world.cfg, old(world.Mine()).msgs, row, inserted, answers'[|answers|],
                            world.sys.store, world.Mine()))
      ensures !alive ==> world.Mine() == Idle
    {
      ghost var answer, before;
      alive, inserted, answer, before := repo.InsertIgnoreDuplicate(row);
      answers' := answers + [answer];
      if !alive { return; }
      StoredAs(before, row);
      OneMoreInsert(answers, answer);
      OneMoreCall(Reports(answers), Reported(answer), world.cfg.dbAttempts);
      if IsTransient(inserted) && attempt < world.cfg.dbAttempts {
        alive := world.Sleep();
      }
    }

    /** The second `retry_async`: insert the row, at most `db_attempts` times. */
    method RetryInsert(row: Row) returns (alive: bool, inserted: Outcome<bool>, ghost answers: seq<DbReply>)
      requires world.Valid() && repo.world == world
      requires world.Mine().Handling? && world.Mine().stage.Insert? && world.Mine().msgs != []
      requires world.Mine().stage.attempt == 1
      requires row == RowOf(world.Mine().msgs[0].event, world.Mine().stage.rate, world.Mine().stage.cents)
      modifies world
      ensures world.Valid() && old(world.run) <= world.run && old(world.turn) <= world.turn
      ensures alive ==>
        && IsRetry(Reports(answers), world.cfg.dbAttempts)
        && world.own == old(world.own) + InsertActions(answers)
        && InsertEnds(world.cfg, old(world.Mine()).msgs, row, inserted, answers[|answers| - 1],
                      world.sys.store, world.Mine())
      ensures !alive ==> world.Mine() == Idle
    {
      ghost var msgs, stage := world.Mine().msgs, world.Mine().stage;
      answers := [];
      var attempt := 1;
      while true
        invariant 1 <= attempt <= world.cfg.dbAttempts && |answers| == attempt - 1
        invariant world.Valid() && old(world.run) <= world.run && old(world.turn) <= world.turn
        invariant AllTransient(Reports(answers))
        invariant world.own == old(world.own) + InsertActions(answers)
        invariant world.Mine() == Handling(msgs, stage.(attempt := attempt))
        decreases world.cfg.dbAttempts - attempt
      {
        alive, inserted, answers := InsertThenSleep(row, attempt, old(world.own), answers);
        if !alive { return; }
        if !IsTransient(inserted) || attempt >= world.cfg.dbAttempts {
          return;
        }
        attempt := attempt + 1;
      }
    }

    /** `process`. */
    method Process(event: TransactionEvent)
      returns (alive: bool, outcome: Outcome<Stored>,
               ghost replies: seq<RateAnswer>, ghost answers: seq<DbReply>, ghost cause: Cause)
      requires world.Valid() && rates.Valid() && repo.world == world
      requires world.Mine().Handling? && world.Mine().stage == Rate(1) && world.Mine().msgs != []
      requires world.Mine().msgs[0].event == event
      modifies world, rates
      ensures world.Valid() && rates.Valid() && old(world.run) <= world.run && old(world.turn) <= world.turn
      ensures alive ==>
        && ProcessEnds(world.cfg, event, replies, answers, outcome, cause)
        && AllAnswered(world.turns, old(world.turn), world.turn, rates.fetched, event.currency, replies)
        && world.own == old(world.own) + RateActions(replies) + InsertActions(answers)
        && (match outcome
            case Ok(stored) => world.Mine() == Handling(old(world.Mine()).msgs, Ack(stored))
            case Err(_) =>
              && IsFailure(event.currency, cause)
              && world.Mine() == Verdict(world.cfg, old(world.Mine()).msgs, cause))
        && (outcome.Ok? ==> HasId(world.sys.store.table, event.id))
        && (outcome == Ok(Processed) ==> HoldsEvent(world.sys.store.table, event, replies[|replies| - 1]))
      ensures !alive ==> world.Mine() == Idle
    {
      answers, cause := [], NoFailure;
      var rate;
      alive, rate, replies := RetryRate(event);
      if !alive { outcome := Err(INVALID_OPERATION); return; }
      match rate
      case Err(f) =>
        outcome := Err(f);
        cause := RateFailed(replies[|replies| - 1].reply);
      case Ok(value) =>
        var usd := ConvertToUsd(event.amount, value);
        if usd.None? {
          outcome := Err(INVALID_OPERATION);
          cause := NotConvertible;
          return;
        }
        ghost var to := world.turn;
        var inserted;
        alive, inserted, answers := RetryInsert(RowOf(event, value, usd.value));
        AnsweredGrows(world.turns, old(world.turn), to, world.turn,
                      rates.fetched, rates.fetched, event.currency, replies);
        match inserted
        case Ok(new_) =>
          outcome := Ok(if new_ then Processed else Duplicate);
          if alive && new_ {
            RowHoldsEvent(world.sys.store.table, event, replies[|replies| - 1], value, usd.value);
          }
        case Err(f) =>
          outcome := Err(f);
          if alive { cause := InsertFailed(answers[|answers| - 1].error); }
    }
  }
}
