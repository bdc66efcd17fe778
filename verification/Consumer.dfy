/** Consumer-group reads, reclaims, acks and dead-lettering. */
module Consumer {
  import opened Errors
  import opened Events
  import opened Protocol
  import opened Safety
  import opened Runtime

  /** One delivery as the code sees it. */
  datatype StreamMessage = StreamMessage(
    msgId: EntryId, event: TransactionEvent, deliveryCount: nat, rawFields: Fields)

  function Seen(m: Message): StreamMessage {
    StreamMessage(m.delivery.id, m.event, m.count, m.raw)
  }

  function SeenAll(msgs: seq<Message>): seq<StreamMessage> {
    seq(|msgs|, i requires 0 <= i < |msgs| => Seen(msgs[i]))
  }

  /** A task has these messages in hand and is about to handle the first. */
  predicate Ready(task: Task, messages: seq<StreamMessage>) {
    if messages == [] then task.Idle?
    else task.Handling? && task.stage == Rate(1) && SeenAll(task.msgs) == messages
  }

  /** What one entry of a batch adds to the messages, and the steps that takes: an unreadable
      entry is written to the dead-letter stream and acked. */
  function ParseOne(codec: Codec, entry: Entry, count: nat): seq<StreamMessage> {
    match ToEvent(codec, entry.fields)
    case Valid(event) => [StreamMessage(entry.id, event, count, entry.fields)]
    case Invalid(_) => []
  }

  function ActionsFor(codec: Codec, entry: Entry): seq<Action> {
    if ToEvent(codec, entry.fields).Valid? then [Parse] else [Parse, LetterWritten, LetterAcked]
  }

  /** What a batch is parsed into: one message for each readable entry, in order, with its raw
      fields and its count. */
  function ParseAll(codec: Codec, entries: seq<Entry>, counts: map<EntryId, nat>): seq<StreamMessage>
    requires forall e <- entries :: e.id in counts
  {
    if entries == [] then []
    else
      var last := entries[|entries| - 1];
      ParseAll(codec, entries[..|entries| - 1], counts) + ParseOne(codec, last, counts[last.id])
  }

  function ParseActions(codec: Codec, entries: seq<Entry>): seq<Action> {
    if entries == [] then []
    else ParseActions(codec, entries[..|entries| - 1]) + ActionsFor(codec, entries[|entries| - 1])
  }

  ghost predicate ComesFrom(codec: Codec, m: StreamMessage, e: Entry, counts: map<EntryId, nat>) {
    && m.msgId == e.id && m.rawFields == e.fields && ReadsAs(codec, e.fields, m.event)
    && e.id in counts && m.deliveryCount == counts[e.id]
  }

  /** The message of a readable entry is in the result. */
  ghost predicate Kept(codec: Codec, messages: seq<StreamMessage>, e: Entry, counts: map<EntryId, nat>) {
    exists m :: m in messages && ComesFrom(codec, m, e, counts)
  }

  /** The entry gives one message if it can be read, with its event, and none otherwise. */
  ghost predicate IsParsed(codec: Codec, entry: Entry, count: nat, parsed: seq<StreamMessage>) {
    && |parsed| <= 1
    && forall event ::
      ReadsAs(codec, entry.fields, event) <==> parsed == [StreamMessage(entry.id, event, count, entry.fields)]
  }

  lemma ParsedOneIs(codec: Codec, entry: Entry, count: nat)
    ensures IsParsed(codec, entry, count, ParseOne(codec, entry, count))
  {
    ReadableIs(codec, entry.fields);
  }

  lemma ParsedOneComesFrom(codec: Codec, e: Entry, counts: map<EntryId, nat>)
    requires e.id in counts
    ensures var own := ParseOne(codec, e, counts[e.id]);
      if ToEvent(codec, e.fields).Valid? then |own| == 1 && ComesFrom(codec, own[0], e, counts) else own == []
  {
    ReadableIs(codec, e.fields);
  }

  lemma {:induction false} ReadableAreKept(codec: Codec, entries: seq<Entry>, counts: map<EntryId, nat>)
    requires forall e <- entries :: e.id in counts
    ensures forall e <- entries ::
      ToEvent(codec, e.fields).Valid? ==> Kept(codec, ParseAll(codec, entries, counts), e, counts)
  {
    if entries != [] {
      var front, last := entries[..|entries| - 1], entries[|entries| - 1];
      var before, own := ParseAll(codec, front, counts), ParseOne(codec, last, counts[last.id]);
      ReadableAreKept(codec, front, counts);
      ParsedOneComesFrom(codec, last, counts);
      forall e | e in entries && ToEvent(codec, e.fields).Valid? ensures Kept(codec, before + own, e, counts) {
        if e in front {
          var m :| m in before && ComesFrom(codec, m, e, counts);
          assert m in before + own;
        } else {
          assert e == last && ComesFrom(codec, own[0], e, counts) && own[0] in before + own;
        }
      }
    }
  }

  lemma {:induction false} MessagesComeFrom(codec: Codec, entries: seq<Entry>, counts: map<EntryId, nat>)
    requires forall e <- entries :: e.id in counts
    ensures forall m <- ParseAll(codec, entries, counts) :: exists e :: e in entries && ComesFrom(codec, m, e, counts)
    ensures |ParseAll(codec, entries, counts)| + Unreadable(codec, entries) == |entries|
  {
    if entries != [] {
      var front, last := entries[..|entries| - 1], entries[|entries| - 1];
      MessagesComeFrom(codec, front, counts);
      ParsedOneComesFrom(codec, last, counts);
      forall m | m in ParseAll(codec, entries, counts)
        ensures exists e :: e in entries && ComesFrom(codec, m, e, counts)
      {
        if m in ParseAll(codec, front, counts) {
          var e :| e in front && ComesFrom(codec, m, e, counts);
          assert e in entries;
        } else {
          assert last in entries && ComesFrom(codec, m, last, counts);
        }
      }
    }
  }

  /** Entry a comes before entry b in the batch. */
  predicate InOrder(entries: seq<Entry>, a: EntryId, b: EntryId) {
    exists p, q | 0 <= p < q < |entries| :: entries[p].id == a && entries[q].id == b
  }

  lemma {:induction false} MessagesKeepOrder(codec: Codec, entries: seq<Entry>, counts: map<EntryId, nat>)
    requires forall e <- entries :: e.id in counts
    ensures var messages := ParseAll(codec, entries, counts);
      forall i, j | 0 <= i < j < |messages| :: InOrder(entries, messages[i].msgId, messages[j].msgId)
  {
    if entries != [] {
      var n := |entries| - 1;
      var messages, before := ParseAll(codec, entries, counts), ParseAll(codec, entries[..n], counts);
      MessagesKeepOrder(codec, entries[..n], counts);
      MessagesComeFrom(codec, entries[..n], counts);
      forall i, j | 0 <= i < j < |messages|
        ensures InOrder(entries, messages[i].msgId, messages[j].msgId)
      {
        assert messages[i] == before[i] && before[i] in before;
        if j < |before| {
          assert messages[j] == before[j];
          assert InOrder(entries[..n], messages[i].msgId, messages[j].msgId);
          var p, q :| 0 <= p < q < n
            && entries[..n][p].id == messages[i].msgId && entries[..n][q].id == messages[j].msgId;
          assert entries[p].id == messages[i].msgId && entries[q].id == messages[j].msgId;
        } else {
          var e :| e in entries[..n] && ComesFrom(codec, messages[i], e, counts);
          var p :| 0 <= p < n && entries[p] == e;
          assert entries[p].id == messages[i].msgId && entries[n].id == messages[j].msgId;
        }
      }
    }
  }

  /** A message keeps every entry that has an integer version and a payload which is the JSON of an
      event, with this event, its raw fields and its count, in the order of the entries; there is no
      other message, and each entry that is not kept fails to be read in one of the listed ways. */
  lemma BatchIsPartitioned(codec: Codec, entries: seq<Entry>, counts: map<EntryId, nat>)
    requires forall e <- entries :: e.id in counts
    requires forall i, j | 0 <= i < j < |entries| :: entries[i].id != entries[j].id
    ensures var messages := ParseAll(codec, entries, counts);
      && (forall e <- entries :: Kept(codec, messages, e, counts) <==>
                                 exists event :: ReadsAs(codec, e.fields, event))
      && (forall e <- entries :: !Kept(codec, messages, e, counts) <==>
                                 exists error, text :: FailsWith(codec, e.fields, error, text))
      && (forall e <- entries, m <- messages | m.msgId == e.id :: ComesFrom(codec, m, e, counts))
      && (forall i, j | 0 <= i < j < |messages| :: InOrder(entries, messages[i].msgId, messages[j].msgId))
      && |messages| + Unreadable(codec, entries) == |entries|
  {
    ReadableAreKept(codec, entries, counts);
    MessagesComeFrom(codec, entries, counts);
    MessagesKeepOrder(codec, entries, counts);
    forall e <- entries, m <- ParseAll(codec, entries, counts) | m.msgId == e.id
      ensures ComesFrom(codec, m, e, counts)
    {
      var e' :| e' in entries && ComesFrom(codec, m, e', counts);
      assert e' == e;
    }
    forall e | e in entries
      ensures (exists event :: ReadsAs(codec, e.fields, event)) <==> ToEvent(codec, e.fields).Valid?
      ensures (exists error, text :: FailsWith(codec, e.fields, error, text)) <==> ToEvent(codec, e.fields).Invalid?
    {
      ReadOrFails(codec, e.fields);
    }
    forall e | e in entries && Kept(codec, ParseAll(codec, entries, counts), e, counts)
      ensures exists event :: ReadsAs(codec, e.fields, event)
    {
      var m :| m in ParseAll(codec, entries, counts) && ComesFrom(codec, m, e, counts);
      assert ReadsAs(codec, e.fields, m.event);
    }
  }

  lemma ReadOrFails(codec: Codec, fields: Fields)
    ensures (exists event :: ReadsAs(codec, fields, event)) <==> ToEvent(codec, fields).Valid?
    ensures (exists error, text :: FailsWith(codec, fields, error, text)) <==> ToEvent(codec, fields).Invalid?
  {
    ReadableIs(codec, fields);
    match ToEvent(codec, fields)
    case Valid(event) => assert ReadsAs(codec, fields, event);
    case Invalid(error) => assert FailsWith(codec, fields, error, Text(error));
  }

  function Unreadable(codec: Codec, entries: seq<Entry>): nat {
    if entries == [] then 0
    else Unreadable(codec, entries[..|entries| - 1])
         + if ToEvent(codec, entries[|entries| - 1].fields).Valid? then 0 else 1
  }

  lemma ListsGrows(entries: seq<Entry>, batch: seq<Delivery>, st: Store, st': Store)
    requires Lists(entries, batch, st) && Grows(st, st')
    ensures Lists(entries, batch, st')
  {}

  class StreamConsumer {
    const world: World

    constructor (world: World)
      ensures this.world == world
    {
      this.world := world;
    }

    /** `_dead_letter_fields`: write the raw fields with the reason, then ack. */
    method DeadLetterFields(msgId: EntryId, fields: Fields, reason: string) returns (alive: bool)
      requires world.Valid() && CanAct(world.cfg, world.sys.store, world.Mine(), LetterWritten)
      requires IsWriting(world.sys.store, world.Mine(), fields, reason)
      requires HasLetterId(world.Mine(), msgId)
      modifies world
      ensures world.Valid() && old(world.run) <= world.run && old(world.turn) <= world.turn
      ensures alive ==>
        && world.own == old(world.own) + [LetterWritten, LetterAcked]
        && Buried(world.sys.store, msgId, fields, reason) && Grows(old(world.sys).store, world.sys.store)
        && world.Mine() == AfterLetterAck(old(world.Mine()))
      ensures !alive ==> world.Mine() == Idle
    {
      alive := world.XAdd(DeadLetter(fields, reason), msgId, fields, reason);
      if !alive { return; }
      alive := world.XAck(msgId, fields, reason);
    }

    /** `dead_letter`. */
    method DeadLetterMessage(msg: StreamMessage, reason: string) returns (alive: bool)
      requires world.Valid() && world.Mine().Handling? && world.Mine().msgs != []
      requires Seen(world.Mine().msgs[0]) == msg
      requires world.Mine().stage.WriteLetter? && world.Mine().stage.reason == reason
      modifies world
      ensures world.Valid() && old(world.run) <= world.run && old(world.turn) <= world.turn
      ensures alive ==>
        && world.own == old(world.own) + [LetterWritten, LetterAcked]
        && Buried(world.sys.store, msg.msgId, msg.rawFields, reason)
        && world.Mine() == AfterHandle(old(world.Mine()).msgs) && Grows(old(world.sys).store, world.sys.store)
      ensures !alive ==> world.Mine() == Idle
    {
      alive := DeadLetterFields(msg.msgId, msg.rawFields, reason);
    }

    /** Parse one entry into its message, or dead-letter it with what was wrong. */
    method ParseEntry(entry: Entry, count: nat, ghost msgs: seq<Message>)
      returns (alive: bool, parsed: seq<StreamMessage>, ghost msgs': seq<Message>)
      requires world.Valid()
      requires world.Mine().Parsing? && world.Mine().letter.NoLetter? && world.Mine().msgs == msgs
      requires world.Mine().at < |world.Mine().batch| && entry.id == world.Mine().batch[world.Mine().at].id
      requires entry.id < |world.sys.store.stream| && entry.fields == world.sys.store.stream[entry.id]
      requires entry.id in world.Mine().counts && count == world.Mine().counts[entry.id]
      modifies world
      ensures world.Valid() && old(world.run) <= world.run
      ensures parsed == ParseOne(world.cfg.codec, entry, count) && SeenAll(msgs') == SeenAll(msgs) + parsed
      ensures IsParsed(world.cfg.codec, entry, count, parsed)
      ensures alive ==>
        && Grows(old(world.sys).store, world.sys.store)
        && world.own == old(world.own) + ActionsFor(world.cfg.codec, entry)
        && world.Mine() == AfterParse(old(world.Mine()).batch, old(world.Mine()).counts,
                                      old(world.Mine()).at + 1, msgs')
        && IsBuried(world.cfg.codec, entry, world.sys.store)
      ensures !alive ==> world.Mine() == Idle
    {
      alive, parsed, msgs' := true, [], msgs;
      ParsedOneIs(world.cfg.codec, entry, count);
      world.KnownShape();
      world.ParseNext();
      match ToEvent(world.cfg.codec, entry.fields)
      case Invalid(error) =>
        alive := DeadLetterFields(entry.id, entry.fields, "unparseable: " + Text(error));
        if alive { UnreadableIsBuried(world.cfg.codec, entry, error, world.sys.store); }
      case Valid(event) =>
        parsed := [StreamMessage(entry.id, event, count, entry.fields)];
        msgs' := msgs + [Message(old(world.Mine()).batch[old(world.Mine()).at], event, count, entry.fields)];
        ReadableNeedsNoLetter(world.cfg.codec, entry, world.sys.store);
    }

    /** One round of the loop of `_parse_entries`: what held of the first k entries holds of k + 1. */
    method ParseNext(entries: seq<Entry>, k: nat, deliveryCounts: map<EntryId, nat>, messages: seq<StreamMessage>,
                     ghost batch: seq<Delivery>, ghost msgs: seq<Message>, ghost own: seq<Action>)
      returns (alive: bool, messages': seq<StreamMessage>, ghost msgs': seq<Message>)
      requires world.Valid() && k < |entries| && Lists(entries, batch, world.sys.store)
      requires forall e <- entries :: e.id in deliveryCounts
      requires world.Mine() == AfterParse(batch, deliveryCounts, k, msgs)
      requires messages == SeenAll(msgs) == ParseAll(world.cfg.codec, entries[..k], deliveryCounts)
      requires world.own == own + ParseActions(world.cfg.codec, entries[..k])
      requires AllBuried(world.cfg.codec, entries[..k], world.sys.store)
      modifies world
      ensures world.Valid() && old(world.run) <= world.run
      ensures alive ==>
        && Lists(entries, batch, world.sys.store)
        && world.Mine() == AfterParse(batch, deliveryCounts, k + 1, msgs')
        && messages' == SeenAll(msgs') == ParseAll(world.cfg.codec, entries[..k + 1], deliveryCounts)
        && world.own == own + ParseActions(world.cfg.codec, entries[..k + 1])
        && AllBuried(world.cfg.codec, entries[..k + 1], world.sys.store)
      ensures !alive ==> world.Mine() == Idle
    {
      ghost var st, own1 := world.sys.store, world.own;
      var parsed;
      alive, parsed, msgs' := ParseEntry(entries[k], deliveryCounts[entries[k].id], msgs);
      messages' := messages + parsed;
      if !alive { return; }
      ListsGrows(entries, batch, st, world.sys.store);
      OneMore(world.cfg, entries, k, deliveryCounts, messages, own, own1, st, world.sys.store);
    }

    /** `_parse_entries`. */
    method ParseEntries(entries: seq<Entry>, deliveryCounts: map<EntryId, nat>)
      returns (alive: bool, messages: seq<StreamMessage>)
      requires world.Valid() && entries != []
      requires world.Mine().Parsing? && Lists(entries, world.Mine().batch, world.sys.store)
      requires world.Mine() == Parsing(world.Mine().batch, deliveryCounts, 0, [], NoLetter)
      requires forall e <- entries :: e.id in deliveryCounts
      modifies world
      ensures world.Valid() && old(world.run) <= world.run
      ensures alive ==> Grows(old(world.sys).store, world.sys.store)
      ensures alive ==>
        && Ready(world.Mine(), messages)
        && messages == ParseAll(world.cfg.codec, entries, deliveryCounts)
        && world.own == old(world.own) + ParseActions(world.cfg.codec, entries)
        && AllBuried(world.cfg.codec, entries, world.sys.store)
      ensures !alive ==> world.Mine() == Idle
    {
      messages, alive := [], true;
      ghost var batch := world.Mine().batch;
      ghost var msgs: seq<Message> := [];
      var k := 0;
      while k < |entries|
        invariant 0 <= k <= |entries| && alive
        invariant world.Valid() && old(world.run) <= world.run
        invariant Lists(entries, batch, world.sys.store)
        invariant world.Mine() == AfterParse(batch, deliveryCounts, k, msgs)
        invariant messages == SeenAll(msgs) == ParseAll(world.cfg.codec, entries[..k], deliveryCounts)
        invariant world.own == old(world.own) + ParseActions(world.cfg.codec, entries[..k])
        invariant AllBuried(world.cfg.codec, entries[..k], world.sys.store)
      {
        alive, messages, msgs := ParseNext(entries, k, deliveryCounts, messages, batch, msgs, old(world.own));
        if !alive { return; }
        k := k + 1;
      }
      world.GrownSince(old(world.run), old(world.sys).store);
      assert entries[..k] == entries;
    }

    /** `read`: the next unread entries of the store `before`.  None of them was ever delivered,
        so each count is 1. */
    method Read() returns (alive: bool, messages: seq<StreamMessage>, ghost entries: seq<Entry>, ghost before: Store)
      requires world.Valid() && world.Mine().Idle?
      modifies world
      ensures world.Valid() && old(world.run) <= world.run && |entries| <= world.cfg.batchSize
      ensures alive ==>
        Grows(old(world.sys).store, before) && NextUnread(entries, before) && Grows(before, world.sys.store)
      ensures alive ==>
        && Ready(world.Mine(), messages)
        && messages == ParseAll(world.cfg.codec, entries, Ones(entries))
        && (forall m <- messages :: m.deliveryCount == 1)
        && AllBuried(world.cfg.codec, entries, world.sys.store)
        && world.own == old(world.own) + [Action.Read(|entries|)] + ParseActions(world.cfg.codec, entries)
      ensures !alive ==> world.Mine() == Idle
    {
      messages := [];
      var response;
      alive, response, before := world.XReadGroup(world.cfg.batchSize);
      entries := response;
      if !alive || response == [] { return; }
      ghost var st := world.sys.store;
      alive, messages := ParseEntries(response, Ones(response));
      MessagesComeFrom(world.cfg.codec, response, Ones(response));
      if alive { GrowsTwice(before, st, world.sys.store); }
    }

    /** `_delivery_count`: 1 if the entry has left the pending list meanwhile. */
    method DeliveryCount(msgId: EntryId, ghost claimed: seq<Entry>, ghost batch: seq<Delivery>,
                         ghost counts: map<EntryId, nat>, ghost at: nat)
      returns (alive: bool, count: nat)
      requires world.Valid() && world.Mine() == Looking(batch, counts, at)
      requires at < |batch| && msgId == batch[at].id && Lists(claimed, batch, world.sys.store)
      requires CountsFit(claimed, at, counts, world.sys.store)
      modifies world
      ensures world.Valid() && old(world.run) <= world.run
      ensures alive ==>
        && world.own == old(world.own) + [Lookup] && Lists(claimed, batch, world.sys.store)
        && Grows(old(world.sys).store, world.sys.store)
        && count == (if msgId in world.sys.store.pel then world.sys.store.pel[msgId] else 1)
        && CountsFit(claimed, at + 1, counts[msgId := count], world.sys.store)
        && world.Mine() == AfterLookup(batch, counts[msgId := count], at + 1)
      ensures !alive ==> world.Mine() == Idle
    {
      var delivered;
      ghost var st := world.sys.store;
      assert AllMade(batch, st) by {
        world.KnownInv();
        BatchIsMade(world.cfg, st, batch, counts, at);
      }
      alive, delivered := world.XPending(msgId);
      count := if delivered.Some? then delivered.value else 1;
      if alive {
        ListsGrows(claimed, batch, st, world.sys.store);
        OneMoreCount(claimed, batch, at, counts, count, st, world.sys.store);
      }
    }

    /** The lookup loop of `claim_stale`: a count for each entry, which is at least the number of
        this delivery and at most what the pending list has now, if the entry is still there. */
    method LookUpCounts(claimed: seq<Entry>, ghost batch: seq<Delivery>)
      returns (alive: bool, deliveryCounts: map<EntryId, nat>)
      requires world.Valid() && claimed != [] && Lists(claimed, batch, world.sys.store)
      requires world.Mine() == Looking(batch, map[], 0)
      modifies world
      ensures world.Valid() && old(world.run) <= world.run
      ensures alive ==>
        && world.Mine() == Parsing(batch, deliveryCounts, 0, [], NoLetter)
        && Lists(claimed, batch, world.sys.store) && Grows(old(world.sys).store, world.sys.store)
        && AllMade(batch, world.sys.store) && CountsHold(claimed, batch, deliveryCounts, world.sys.store)
        && world.own == old(world.own) + Lookups(|claimed|)
      ensures !alive ==> world.Mine() == Idle
    {
      deliveryCounts, alive := map[], true;
      var k := 0;
      while k < |claimed|
        invariant 0 <= k <= |claimed| && alive
        invariant world.Valid() && old(world.run) <= world.run && Lists(claimed, batch, world.sys.store)
        invariant world.Mine() == AfterLookup(batch, deliveryCounts, k)
        invariant CountsFit(claimed, k, deliveryCounts, world.sys.store)
        invariant OnlyLookups(old(world.own), world.own, k)
      {
        var count;
        alive, count := DeliveryCount(claimed[k].id, claimed, batch, deliveryCounts, k);
        if !alive { return; }
        deliveryCounts := deliveryCounts[claimed[k].id := count];
        k := k + 1;
      }
      LookupsInAll(old(world.own), world.own, k);
      world.GrownSince(old(world.run), old(world.sys).store);
      world.KnownInv();
      CountsAreHeld(world.cfg, world.sys.store, claimed, batch, deliveryCounts);
    }

    /** `claim_stale`: entries pending in the store `before`, each with its looked-up count. */
    method ClaimStale() returns (alive: bool, messages: seq<StreamMessage>,
                                 ghost claimed: seq<Entry>, ghost batch: seq<Delivery>, ghost counts: map<EntryId, nat>,
                                 ghost dropped: set<EntryId>, ghost before: Store)
      requires world.Valid() && world.Mine().Idle?
      modifies world
      ensures world.Valid() && old(world.run) <= world.run && |claimed| <= world.cfg.batchSize
      ensures alive ==> Grows(old(world.sys).store, before) && WerePending(claimed, batch, before)
      ensures alive ==> CountsHold(claimed, batch, counts, world.sys.store)
      ensures forall e <- claimed :: alive ==> e.id in counts
      ensures alive ==>
        && Ready(world.Mine(), messages)
        && messages == ParseAll(world.cfg.codec, claimed, counts)
        && AllBuried(world.cfg.codec, claimed, world.sys.store)
        && world.own == old(world.own) + [Claim(IdsOf(claimed), dropped)] + Lookups(|claimed|)
                        + ParseActions(world.cfg.codec, claimed)
      ensures !alive ==> world.Mine() == Idle
    {
      messages, counts, batch := [], map[], [];
      var reply, deliveryCounts;
      alive, reply, dropped, before := world.XAutoClaim(world.cfg.batchSize);
      claimed := reply;
      if !alive || reply == [] { return; }
      batch := world.Mine().batch;
      alive, deliveryCounts := LookUpCounts(reply, batch);
      counts := deliveryCounts;
      if !alive { return; }
      ghost var st := world.sys.store;
      alive, messages := ParseEntries(reply, deliveryCounts);
      if alive { CountsStillHold(claimed, batch, counts, st, world.sys.store); }
    }

    /** `ack`, as `handle` calls it; the error, if it raises one. */
    method Ack(msgId: EntryId) returns (alive: bool, error: Option<string>)
      requires world.Valid() && world.Mine().Handling? && world.Mine().stage.Ack? && world.Mine().msgs != []
      requires msgId == world.Mine().msgs[0].delivery.id
      modifies world
      ensures world.Valid() && old(world.run) <= world.run && old(world.turn) <= world.turn
      ensures alive ==> Grows(old(world.sys).store, world.sys.store)
      ensures alive && error.None? ==>
        && world.own == old(world.own) + [AckReply(true, true, "")]
        && Gone(world.sys.store, msgId) && world.Mine() == AfterHandle(old(world.Mine()).msgs)
      ensures alive && error.Some? ==>
        && (exists applied :: world.own == old(world.own) + [AckReply(false, applied, error.value)])
        && world.Mine() == Verdict(world.cfg, old(world.Mine()).msgs, AckFailed(error.value))
      ensures !alive ==> world.Mine() == Idle
    {
      alive, error := world.XAckProcessed(msgId);
    }
  }

  /** In every reachable state, the counts a task goes by are never too small: each is at least
      the number of its delivery, or the entry has left the pending list for good. */
  lemma CountsAreSafe(cfg: Config, run: seq<Step>, t: TaskId, messages: seq<StreamMessage>)
    requires Configured(cfg) && Legal(cfg, run) && messages != []
    requires Ready(TaskOf(After(cfg, run), t), messages)
    ensures var st, msgs := After(cfg, run).store, TaskOf(After(cfg, run), t).msgs;
      && |messages| == |msgs|
      && forall i | 0 <= i < |messages| ::
           messages[i].msgId == msgs[i].delivery.id && Observed(st, msgs[i].delivery, messages[i].deliveryCount)
  {
    Reachable(cfg, run);
    var msgs := TaskOf(After(cfg, run), t).msgs;
    assert |SeenAll(msgs)| == |msgs|;
    forall i | 0 <= i < |messages|
      ensures messages[i].msgId == msgs[i].delivery.id
      ensures Observed(After(cfg, run).store, msgs[i].delivery, messages[i].deliveryCount)
    {
      assert messages[i] == Seen(msgs[i]) && MessageInv(cfg, After(cfg, run).store, msgs[i]);
    }
  }

  /** Each of the first k entries has a count, no larger than the pending list has now. */
  predicate CountsFit(entries: seq<Entry>, k: nat, counts: map<EntryId, nat>, st: Store) {
    forall i | 0 <= i < k && i < |entries| ::
      entries[i].id in counts && (entries[i].id in st.pel ==> counts[entries[i].id] <= st.pel[entries[i].id])
  }

  /** The same for all of them, and none is smaller than the number of its delivery. */
  predicate CountsHold(entries: seq<Entry>, batch: seq<Delivery>, counts: map<EntryId, nat>, st: Store) {
    && |entries| == |batch|
    && forall i | 0 <= i < |entries| ::
      && batch[i].id == entries[i].id && entries[i].id in counts && entries[i].id < st.cursor
      && (entries[i].id in st.pel ==> batch[i].nth <= counts[entries[i].id] <= st.pel[entries[i].id])
  }

  predicate AllMade(batch: seq<Delivery>, st: Store) {
    forall i | 0 <= i < |batch| :: batch[i].id < st.cursor
  }

  lemma BatchIsMade(cfg: Config, st: Store, batch: seq<Delivery>, counts: map<EntryId, nat>, at: nat)
    requires TaskInv(cfg, st, Looking(batch, counts, at))
    ensures AllMade(batch, st)
  {
    forall i | 0 <= i < |batch| ensures batch[i].id < st.cursor {
      assert batch[i] in Held(Looking(batch, counts, at));
      assert Made(st, batch[i]);
    }
  }

  lemma OneMoreCount(claimed: seq<Entry>, batch: seq<Delivery>, at: nat, counts: map<EntryId, nat>, count: nat,
                     st: Store, st': Store)
    requires at < |claimed| == |batch| && (forall i | 0 <= i < |claimed| :: claimed[i].id == batch[i].id)
    requires CountsFit(claimed, at, counts, st) && AllMade(batch, st) && Grows(st, st')
    requires count == if batch[at].id in st'.pel then st'.pel[batch[at].id] else 1
    ensures CountsFit(claimed, at + 1, counts[batch[at].id := count], st')
  {
    forall i | 0 <= i < at + 1
      ensures var counts' := counts[batch[at].id := count];
        && claimed[i].id in counts'
        && (claimed[i].id in st'.pel ==> counts'[claimed[i].id] <= st'.pel[claimed[i].id])
    {
      assert batch[i].id < st.cursor;
    }
  }

  lemma CountsAreHeld(cfg: Config, st: Store, claimed: seq<Entry>, batch: seq<Delivery>, counts: map<EntryId, nat>)
    requires TaskInv(cfg, st, Parsing(batch, counts, 0, [], NoLetter)) && Lists(claimed, batch, st)
    requires CountsFit(claimed, |claimed|, counts, st)
    ensures CountsHold(claimed, batch, counts, st) && AllMade(batch, st)
  {
    var task := Parsing(batch, counts, 0, [], NoLetter);
    assert Held(task) == batch && batch[0..] == batch;
    forall i | 0 <= i < |batch|
      ensures batch[i].id < st.cursor && Observed(st, batch[i], counts[batch[i].id])
    {
      assert batch[i] in Held(task) && Made(st, batch[i]);
    }
  }

  lemma CountsStillHold(claimed: seq<Entry>, batch: seq<Delivery>, counts: map<EntryId, nat>, st: Store, st': Store)
    requires CountsHold(claimed, batch, counts, st) && Grows(st, st')
    ensures CountsHold(claimed, batch, counts, st')
  {}

  /** One lookup for each claimed entry. */
  function Lookups(n: nat): seq<Action> {
    seq(n, _ => Lookup)
  }

  predicate OnlyLookups(own0: seq<Action>, own: seq<Action>, n: nat) {
    |own| == |own0| + n && own0 <= own && forall i | |own0| <= i < |own| :: own[i] == Lookup
  }

  lemma LookupsInAll(own0: seq<Action>, own: seq<Action>, n: nat)
    requires OnlyLookups(own0, own, n)
    ensures own == own0 + Lookups(n)
  {}

  /** The lookup loop of a reclaim after k counts. */
  function AfterLookup(batch: seq<Delivery>, counts: map<EntryId, nat>, k: nat): Task {
    if k < |batch| then Looking(batch, counts, k) else Parsing(batch, counts, 0, [], NoLetter)
  }

  /** What the loop knows after k entries carries over to k + 1. */
  lemma OneMore(cfg: Config, entries: seq<Entry>, k: nat, counts: map<EntryId, nat>,
                messages: seq<StreamMessage>, own0: seq<Action>, own: seq<Action>, st: Store, st': Store)
    requires k < |entries| && forall e <- entries :: e.id in counts
    requires messages == ParseAll(cfg.codec, entries[..k], counts)
    requires own == own0 + ParseActions(cfg.codec, entries[..k])
    requires AllBuried(cfg.codec, entries[..k], st) && Grows(st, st')
    requires IsBuried(cfg.codec, entries[k], st')
    ensures messages + ParseOne(cfg.codec, entries[k], counts[entries[k].id])
         == ParseAll(cfg.codec, entries[..k + 1], counts)
    ensures own + ActionsFor(cfg.codec, entries[k]) == own0 + ParseActions(cfg.codec, entries[..k + 1])
    ensures AllBuried(cfg.codec, entries[..k + 1], st')
  {
    assert entries[..k + 1][..k] == entries[..k];
    OneMoreAction(cfg.codec, entries, k, own0);
    OneMoreBuried(cfg, entries, k, st, st');
  }

  lemma OneMoreAction(codec: Codec, entries: seq<Entry>, k: nat, own: seq<Action>)
    requires k < |entries|
    ensures own + ParseActions(codec, entries[..k]) + ActionsFor(codec, entries[k])
         == own + ParseActions(codec, entries[..k + 1])
  {
    assert entries[..k + 1][..k] == entries[..k];
    var before, next := ParseActions(codec, entries[..k]), ActionsFor(codec, entries[k]);
    assert own + before + next == own + (before + next);
  }

  lemma OneMoreBuried(cfg: Config, entries: seq<Entry>, k: nat, st: Store, st': Store)
    requires k < |entries| && Grows(st, st')
    requires AllBuried(cfg.codec, entries[..k], st) && IsBuried(cfg.codec, entries[k], st')
    ensures AllBuried(cfg.codec, entries[..k + 1], st')
  {
    BuriedStay(cfg, entries[..k], st, st');
    assert forall e <- entries[..k + 1] :: e in entries[..k] || e == entries[k];
  }

  /** An entry that cannot be read is dead-lettered, with what was wrong with it. */
  ghost predicate IsBuried(codec: Codec, e: Entry, st: Store) {
    forall error, text | FailsWith(codec, e.fields, error, text) ::
      Buried(st, e.id, e.fields, "unparseable: " + text)
  }

  ghost predicate AllBuried(codec: Codec, entries: seq<Entry>, st: Store) {
    forall e <- entries :: IsBuried(codec, e, st)
  }

  lemma UnreadableIsBuried(codec: Codec, e: Entry, error: ParseError, st: Store)
    requires ToEvent(codec, e.fields) == Invalid(error)
    requires Buried(st, e.id, e.fields, "unparseable: " + Text(error))
    ensures IsBuried(codec, e, st)
  {
    ReadableIs(codec, e.fields);
  }

  lemma ReadableNeedsNoLetter(codec: Codec, e: Entry, st: Store)
    requires ToEvent(codec, e.fields).Valid?
    ensures IsBuried(codec, e, st)
  {
    ReadableIs(codec, e.fields);
  }

  lemma BuriedStay(cfg: Config, entries: seq<Entry>, st: Store, st': Store)
    requires Grows(st, st') && AllBuried(cfg.codec, entries, st)
    ensures AllBuried(cfg.codec, entries, st')
  {
    forall e, error, text | e in entries && FailsWith(cfg.codec, e.fields, error, text)
      ensures Buried(st', e.id, e.fields, "unparseable: " + text)
    {
      assert IsBuried(cfg.codec, e, st);
      BuriedGrows(st, st', e.id, e.fields, "unparseable: " + text);
    }
  }
}
