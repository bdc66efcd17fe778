# Verified model of txn-event-processor

The service takes transaction events over HTTP, appends them to a Redis stream, and has any number
of workers convert each amount to USD and store it in Postgres.  Delivery is at least once; the
insert is idempotent; failures are retried inside one delivery, then across deliveries, then
dead-lettered.  This project models that behaviour in Dafny and proves what it promises.

## How the model is built

**The protocol is a transition system** (`Protocol.dfy`).  The shared store holds the stream with
its trim point, one consumer group (where reading continues, and the pending-entries list with
`times_delivered`), the dead-letter stream, the table, and a history of completed calls of
`handle`.  Any number of loops, the consume and the reclaim loop of every worker, act on it.
Every awaited call is one step: XREADGROUP, XAUTOCLAIM, XPENDING, a rate lookup, an insert, XADD,
XACK.  Whatever is not decided by the code is an argument of the step: which entries a call
returns, what a downstream answers, whether a failed insert or a failed ack took effect, how far
XADD trims.  A crash or cancellation is a step as well, possible between any two others; a Redis
error that `handle` does not catch ends its loop the same way.  The history keeps, for each completed
call of `handle`, the count it went by, its fate and what had failed.  `Move` is one action of one loop,
`Legal` says that a sequence of steps can happen, and `After` is the state it leads to.

**The results about runs** quantify over every legal sequence of steps: `Safety.dfy` (nothing is
lost, exactly-once effect), `Budget.dfy` (the retry budget), `Redelivery.dfy` (delivery counts are
honest, nothing is given up early), `Routing.dfy` (what failed decides what becomes of a message,
and the reason written), `Provenance.dfy` (where stored rates come from), `Drain.dfy` and
`Progress.dfy` (draining ends, every batch ends), `Termination.dfy` (so all work does),
`Quiescence.dfy` (the per-user summary of a drained queue), `Exclusion.dfy` and `BothFates.dfy`
(when an entry can be both stored and dead-lettered).

**The code itself is imperative** and proved against the transition system.  `Runtime.dfy` gives
one loop its view of the world: each awaited call first lets the other loops take any steps they
like, then may lose this loop, then answers.  On top of it `Consumer.dfy`, `Repository.dfy`,
`Processor.dfy`, `Worker.dfy` and `Producer.dfy` follow the source method by method, with the same
loops and branches.  Their contracts say that what they do is a legal continuation of the run, list
the exact sequence of their own actions, and say what holds at the end.  So every theorem about
runs is a theorem about these methods.  `RateClients.dfy` is the cache with its clock and the
lookups of the sibling loop, which also run between two lookups of this one; `Retry.dfy` is the
retry loop on its own, over any stream of outcomes.

**Values and decisions are functions**: `Errors.dfy` (SQLSTATE classification), `Events.dfy`
(envelope, integer text, dead letters), `Converter.dfy` (decimal arithmetic: `decimal.Decimal`
under a 28-digit context, ROUND_HALF_EVEN at both stages, i.e. roundTiesToEven of section 4.3.1 of
IEEE 754-2008), `Table.dfy` (insert, filter, order, page, sum).

## Where the code and its documentation differ

The docstring of `convert_to_usd` (app/services/converter.py:19-24) says the 28-digit context never
affects the result at the column widths used.  It can, in two ways:

- The amount 10000000000000.0001 and the rate 1149.99999999 fit Numeric(18, 4) and Numeric(18, 8),
  and convert to the wrong cent (`ColumnWidthsDoNotSuffice`).  The result does not fit Numeric(18, 4),
  so the insert rejects it and the event is dead-lettered.  `StoredIsCorrect` shows that this is
  always so: with at most 4 and 8 decimals, every result that fits its column is correct.
- `TransactionEventIn` (app/schemas/events.py:21) bounds neither the length nor the scale of an
  amount.  1.0149999999999999999999999999 at rate 1 is stored as 1.02 instead of 1.01
  (`LongAmountsAreStoredWrong`).

`CorrectUnlessMisroundedTie` says exactly when the result is the correct rounding, and
`ShortProductsAreCorrect` that a product of at most 28 digits always suffices.

## Stored and dead-lettered

Nothing in the source claims that an entry has only one of these fates, and it can have both.
`OneFate` gives a condition under which it cannot, over whole runs: event ids differ, no claim takes
an entry from a loop still busy with it, no ack of a processed message raises, no insert takes effect
and raises, and no loop is lost between a commit and its ack or between a letter and its ack.
`EachDeviationSuffices` shows that each of the six is needed: for every event that can be converted,
and for each of them, there is a run in which nothing else happens and the entry ends as both.

## Model

| member | source | states |
|---|---|---|
| Errors.Reraised | app/db/repository.py:34-44 | what leaves the repository is never a PermanentError and keeps the text of what was raised in it |
| Errors.RetryableSqlStates | app/db/errors.py:39-55 | a driver failure is TransientError iff its SQLSTATE begins with 08, 40, 53 or 57; the code on the exception counts unless it is missing or empty, then the one on the exception it wraps does; without either it is not retryable |
| Errors.OutagesAreTransient | app/db/errors.py:39-55 | exactly the socket errors and the failures with a retryable SQLSTATE leave the repository as TransientError |
| Converter.TrueCentsIsProduct | app/services/converter.py:25 | the reference value is a hundred times the real product of amount and rate |
| Converter.NearestIsUnique | app/services/converter.py:12-13 | at most one integer is the half-even rounding of a real |
| Converter.DoubleRounding | app/services/converter.py:19-25 | rounding in two steps differs from rounding once iff the first step creates a tie that the second breaks the wrong way |
| Converter.CorrectUnlessMisroundedTie | app/services/converter.py:16-25 | for every input that converts, the result is the half-even rounding of the true product iff the inputs are not a misrounded tie |
| Converter.ShortProductsAreCorrect | app/services/converter.py:21-24 | with a product of at most 28 digits the result is the half-even rounding of the true product |
| Converter.ColumnWidthsDoNotSuffice | app/services/converter.py:21-24 | two operands that fit their columns and convert to the wrong cent, with a result that does not fit its own |
| Converter.LongAmountsAreStoredWrong | app/schemas/events.py:21 | an amount with 28 decimals that converts to the wrong cent, with a result that fits its column |
| Converter.StoredIsCorrect | app/db/models.py:37-40 | with at most 4 and 8 decimals, every result that fits Numeric(18, 4) is the half-even rounding of the true product |
| Converter.ColumnOperandsConvert | app/db/models.py:37-39 | operands that fit their columns never raise InvalidOperation |
| Converter.FailsIfTooLong | app/services/converter.py:25 | InvalidOperation is raised iff the true product is at least 10^28 cents once rounded half to even, for every input |
| Converter.ExactIfShort | app/services/converter.py:16-25 | with at most 4 and 8 decimals and a product below 10^16 the conversion succeeds and is the half-even rounding of the true product |
| Converter.WithinOneCent | app/services/converter.py:16-25 | every result lies strictly within one cent of the true product |
| Converter.ConversionIsOdd | app/services/converter.py:25 | negating the amount negates the result, and fails iff it fails |
| Converter.ConversionIsMonotone | app/services/converter.py:25 | at one non-negative rate a larger amount never converts to less, for every two amounts that convert |
| Converter.TotalError | app/db/repository.py:85-88 | a total over n rows is off by at most n cents, and by at most n/2 if each product is below 10^16 with at most 4 and 8 decimals |
| Retry.ComputeDelay | app/core/retry.py:22-32 | the delay lies between 0 and the ceiling of its attempt |
| Retry.JitterIsFull | app/core/retry.py:22-32 | the delays that can come out are exactly those from 0 to min(cap, base * 2^(attempt - 1)), each by the draw that is its share of the longest |
| Retry.RetryAsync | app/core/retry.py:35-62 | the calls made form a retry of the outcomes; the value of the last outcome is returned, or its failure raised; notices and sleeps are numbered 1, 2, ..., one fewer than calls |
| Retry.CallsAreDetermined | app/core/retry.py:53-62 | the number of calls is min(attempts, 1 + index of the first non-transient outcome) |
| Retry.RetryTells | app/core/retry.py:44-48 | a transient end means every attempt was made and failed transiently; a success ends it at once |
| Retry.CeilingsNeverDecrease | app/core/retry.py:31 | a later attempt never has a lower ceiling |
| Retry.CapTakesOver | app/core/retry.py:31 | base * 2^j is at most the cap iff j is before the attempt where the cap takes over |
| Retry.CeilingSumClosedForm | app/core/retry.py:22-32 | the exact sum of the first n ceilings, split at that attempt |
| Retry.BackoffBudget | app/core/retry.py:53-62 | all sleeps of one call stay within base * 2^n - base and within n times the cap |
| Events.PrintParse | app/schemas/events.py:69-80 | int(str(n)) is n for every integer |
| Events.PrintsCanonically | app/schemas/events.py:69 | str(n) is a minus sign iff n < 0, then digits without a leading zero |
| Events.ParseIntIs | app/schemas/events.py:80 | int() accepts exactly white space, at most one sign, digits with single underscores between them, white space, and gives the number these digits stand for |
| Events.ReadableIs | app/schemas/events.py:71-90 | an entry is read, as the event its payload loads to, iff it has a version that is an integer and a payload that loads; otherwise it fails with the KeyError, ValueError or JSON error of the first thing that is wrong, and exactly that text |
| Events.EnvelopeRoundTrip | app/schemas/events.py:67-80 | from_fields undoes to_fields for every version and payload |
| Events.PublishedIsReadBack | app/schemas/events.py:67-90 | a published event is read back unchanged if its JSON encoding is faithful |
| Events.DeadLetter | app/queue/consumer.py:175 | the letter has this reason, every other key exactly as in the raw fields, and no further key |
| Events.LetterIsRead | app/queue/consumer.py:159-176 | whatever its reason, a letter is read as the entry it was made from |
| Events.ReplayRestores | app/queue/consumer.py:159-176 | dropping `reason` from a dead letter gives the entry back iff it had no such field; envelope and event come back always |
| Table.InsertIgnore | app/db/repository.py:61-76 | the id is present afterwards, ids stay distinct, existing rows stay as they are |
| Table.ListingIsExact | app/db/repository.py:115-127 | a listing has exactly the matching rows, once each, by descending timestamp, and of rows with one timestamp the larger id first |
| Table.RangeIs | app/db/repository.py:109-119 | the conditions hold of exactly the rows of this user with start <= timestamp < end, where a missing bound is none |
| Table.DescendingIsUnique | app/db/repository.py:122-127 | there is one strictly descending list of a set of rows |
| Table.PagingCoversOnce | app/db/repository.py:121-131 | the pages at 0, limit, 2*limit, ... give every matching row once, in order, and as many as the total |
| Table.RangesTile | app/db/repository.py:109-119 | listing [mid, end) and then [start, mid) is listing [start, end), open ends included, and totals add up |
| Safety.ReadPending | app/queue/consumer.py:74-90 | a read makes exactly the next n entries pending, and counts each of them once |
| Safety.MoveKeeps | app/worker.py:67-97 | every action keeps the store's invariant and the acting loop's, and store history only grows |
| Safety.StepKeeps | app/queue/consumer.py:1-6 | every step keeps the invariant of the store and of every loop |
| Safety.Reachable | app/queue/consumer.py:1-6 | every reachable state has the invariant |
| Safety.NoEventLost | app/queue/consumer.py:155-176 | after any run each published entry is undelivered, pending, trimmed, or resolved by a committed row or a dead letter with its fields; a trimmed one has at least maxlen newer ones |
| Safety.Untrimmed | app/queue/producer.py:31-36 | trimming always leaves maxlen entries, and without maxlen nothing is trimmed |
| Safety.AckedIsResolved | app/worker.py:67-97 | without trimming, whatever was delivered and is not pending is resolved |
| Safety.ExactlyOnceEffect | app/db/repository.py:46-76 | one row per id at most; every row has the id, user, amount, currency and timestamp of a published event, field by field, and amount_usd is that amount converted at the rate the row records; every dead letter is a published entry with a reason and nothing else changed |
| Provenance.RatesWereLookedUp | app/services/processor.py:57-75 | every reachable row is an event, field by field, converted at a rate that a lookup earlier in the run gave for a message with this very event: a cached rate, or the body of a 2xx reply |
| Safety.HistoryOnlyGrows | app/db/repository.py:62-67 | from any point of a run on rows never change or go, and an entry off the pending list stays off |
| Safety.FailedAckLeavesBoth | app/worker.py:67-71 | any ack that raises leaves the entry stored and dead-lettered, whether or not it took effect |
| Exclusion.OneFate | app/worker.py:67-97 | in a run with none of the six deviations no entry is both stored and dead-lettered |
| BothFates.EachDeviationSuffices | app/worker.py:67-97 | for every convertible event and each deviation there is a run with that deviation alone after which the entry is both |
| Budget.MoveHolds | app/queue/consumer.py:92-122 | a loop only ever gains deliveries made for it just now, and completing one lets go of it |
| Budget.ReachableUnshared | app/queue/consumer.py:97-100 | no delivery is held by two loops, or handled twice |
| Budget.RetryBudget | app/worker.py:76-90 | in every interleaving at most max_deliveries - 1 completed calls of handle leave one entry pending |
| Redelivery.CountIsHonest | app/queue/consumer.py:124-129 | in every reachable state times_delivered of a pending entry is the number of reads and claims in the run that returned it |
| Redelivery.NoEarlyGivingUp | app/worker.py:76-90 | in every interleaving a message dead-lettered because of an outage was handed out at least max_deliveries times, and no message was judged by a count larger than the number of its deliveries |
| Routing.FatesFollowCauses | app/worker.py:72-97 | in every reachable history a call left its message pending iff an outage failed it below the cutoff, acked it iff nothing failed, and otherwise dead-lettered it: after a 404 naming the currency, after an outage as "max deliveries exceeded", after anything else as "unexpected error: " and what was raised |
| Routing.ReasonIsWritten | app/worker.py:72-97 | the reason of each failed reply, conversion, insert and ack, in words |
| Drain.StaysApart | app/queue/consumer.py:97-100 | while claims take nothing a loop still holds, no entry is ever held twice |
| Drain.ActBacklog | app/worker.py:76-90 | while no entry is held twice each completed call takes one from the backlog and nothing adds to it |
| Drain.DrainTerminates | app/worker.py:100-120 | from any point where no entry is held twice, while claims stay free, N published entries need at most N * max_deliveries completed calls until nothing is pending or unread |
| Progress.EveryStepAdvances | app/worker.py:38-97 | a step of its own that is no crash leaves a busy loop with less to do |
| Progress.BatchEnds | app/worker.py:106-120 | whatever the others do, a loop is idle after at most as many steps as its batch sets aside |
| Progress.EffortOfBatch | app/worker.py:106-120 | that number is at most rate_attempts + db_attempts + 7 for each entry |
| Termination.Terminates | app/worker.py:100-120 | while no entry is held twice, claims stay free, no loop is lost and nothing is published, all steps but empty fetches number at most N * max_deliveries * (rate_attempts + db_attempts + 8); when that potential is used up nothing is pending or unread and every loop is idle |
| Termination.NeverStuck | app/worker.py:100-120 | until nothing is pending, nothing readable is unread and every loop is idle, some loop can do work or drop a trimmed entry |
| Quiescence.SumOfRows | app/db/repository.py:85-88 | over rows with distinct ids, count and sum are those of the set of ids |
| Quiescence.SummaryOfPublished | app/db/repository.py:78-96 | once drained, user_summary counts the distinct ids published for the user and sums the amounts stored under exactly those, each a published amount converted at the rate its row records |
| RateClients.CachedIsLatest | app/services/rate_client.py:78-80 | a currency is cached iff it was looked up, with its latest rate and expiry |
| RateClients.FreshIsRecent | app/services/rate_client.py:68-76 | an entry is fresh iff its rate was stored less than the time to live ago |
| RateClients.DownIsTransient | app/services/rate_client.py:51-62 | exactly no answer and 5xx are transient |
| RateClients.DecodedAsMeant | app/services/rate_client.py:51-66 | 404 is PermanentError naming the currency, 5xx and no answer are TransientError with their texts, 2xx with a readable body is exactly that rate, and every other reply is unexpected |
| RateClients.RateClient.Cached | app/services/rate_client.py:68-76 | a rate if and only if one was stored recently |
| RateClients.RateClient.Store | app/services/rate_client.py:78-80 | adds this lookup to the history the cache is a function of |
| RateClients.RateClient.GetRate | app/services/rate_client.py:37-66 | a returned rate is recent, or exactly the body of the 2xx reply of this call, which is then stored; 404, 5xx, no answer and every other reply fail as listed and store nothing; the service is asked iff nothing is fresh |
| Runtime.World.XReadGroup | app/queue/consumer.py:77-86 | the next unread entries of the store it finds, with the fields the stream has for them and a count of 1 each, or none |
| Runtime.World.XAutoClaim | app/queue/consumer.py:103-111 | distinct entries pending in the store it finds, with their fields, each delivered once more |
| Runtime.World.XPending | app/queue/consumer.py:126-129 | the times_delivered the pending list has for the entry, or nothing |
| Runtime.World.XAdd | app/queue/consumer.py:175 | a letter with this reason and otherwise exactly the fields of this entry is in the dead-letter stream |
| Runtime.World.XAck | app/queue/consumer.py:176 | the entry has left the pending list, and its letter with this reason is in the dead-letter stream |
| Runtime.World.XAckProcessed | app/queue/consumer.py:155-157 | success removes the entry; an error leads to the unexpected-error branch |
| Runtime.World.ExecuteInsert | app/db/repository.py:68-72 | a commit applies the insert to the table it finds; a failure may have applied it or not |
| Consumer.BatchIsPartitioned | app/queue/consumer.py:131-153 | an entry is a message, in order, with its event, its fields and its count, iff it has an integer version and a payload that loads; iff it is none, it fails in one of the listed ways; there are no other messages |
| Consumer.MessagesKeepOrder | app/queue/consumer.py:131-153 | messages come in the order of their entries |
| Consumer.CountsAreSafe | app/queue/consumer.py:113-129 | in every reachable state each count a loop goes by is at least the number of its delivery, or the entry has left the pending list |
| Consumer.StreamConsumer.Read | app/queue/consumer.py:68-90 | returns what the next unread entries parse into with every count 1, and has dead-lettered and acked the rest |
| Consumer.StreamConsumer.ClaimStale | app/queue/consumer.py:92-122 | the same for entries that were pending, each with a looked-up count between the number of its delivery and what the pending list has; no key is missing |
| Consumer.StreamConsumer.LookUpCounts | app/queue/consumer.py:118-120 | one lookup for each entry; each count is at least the number of its delivery and at most what the pending list has, if the entry is still there |
| Consumer.StreamConsumer.DeliveryCount | app/queue/consumer.py:124-129 | the pending entry's count, or 1 if it has gone |
| Consumer.StreamConsumer.ParseEntries | app/queue/consumer.py:131-153 | the messages are those of the readable entries; the unreadable ones are off the pending list, with their fields and what was wrong in the dead-letter stream |
| Consumer.StreamConsumer.ParseEntry | app/queue/consumer.py:138-152 | an entry with an integer version and a payload that loads becomes the one message with this event; any other is acked, with its fields and "unparseable: " and what was wrong in the dead-letter stream |
| Consumer.StreamConsumer.Ack | app/queue/consumer.py:155-157 | acks the first message, or raises |
| Consumer.StreamConsumer.DeadLetterMessage | app/queue/consumer.py:159-169 | a letter with this reason and otherwise exactly the raw fields is in the dead-letter stream, and the entry is off the pending list |
| Consumer.StreamConsumer.DeadLetterFields | app/queue/consumer.py:171-176 | the letter is written before the ack; a letter with this reason and otherwise exactly these fields, which are the entry's own, is in the dead-letter stream, and the entry is off the pending list |
| Repository.TransactionRepository.InsertIgnoreDuplicate | app/db/repository.py:46-76 | true iff the id was not in the table the statement found, which then gains exactly this row; false leaves that table as it is; errors come out classified |
| Repository.TransactionRepository.UserSummary | app/db/repository.py:78-96 | total and count of the user's rows, (0, 0) for none; a failed statement comes out classified |
| Repository.TransactionRepository.ListUserTransactions | app/db/repository.py:98-140 | one page of the listing, and the total at the later of the two statements; whichever fails first comes out classified |
| Processor.ProcessContract | app/services/processor.py:45-85 | bounded calls, no insert without a rate, a commit behind each normal return, a TransientError only after a stage failed transiently on every attempt |
| Processor.PermanentFailuresEndIt | app/core/retry.py:53-62 | a failure that is not transient is the last reply of its stage and the cause of the outcome |
| Processor.RaisesItsCause | app/services/processor.py:45-85 | what process raises is what its cause raises, and it returns iff there is none |
| Processor.EventProcessor.LookUp | app/services/processor.py:58-64 | one rate lookup: a rate fetched for this currency before, or the reply the service gave in this very call |
| Processor.EventProcessor.RetryRate | app/services/processor.py:58-64 | the answers form a retry of at most rate_attempts lookups of the event's currency, each given in a turn of this call or fetched before |
| Processor.EventProcessor.RetryInsert | app/services/processor.py:77-83 | the answers form a retry of at most db_attempts inserts; a normal return means a committed row |
| Processor.EventProcessor.Process | app/services/processor.py:45-85 | ends as ProcessEnds says, with exactly the actions of both retries, with a committed row on every normal return; when it returns PROCESSED, a row of the table is this event, field by field, converted at the rate the last lookup gave |
| Worker.ErrorRouting | app/worker.py:72-97 | of every completed handle: a refusal by the rate service or a database failure that is no outage is the last reply of its stage and has dead-lettered the message, at any count, after a 404 as "no rate for currency 'C'", otherwise as "unexpected error: " and its text; after an outage, of the service in a turn of this call or of the database, the message is left alone below the cutoff and dead-lettered as "max deliveries exceeded" from it on; no other message is left alone |
| Worker.HandleError | app/worker.py:72-97 | a permanent failure writes the raw fields with its own text, a transient one at the cutoff with "max deliveries exceeded", any other with "unexpected error: " and its text, and acks; a transient one below the cutoff does nothing at all |
| Worker.HandleSuccess | app/worker.py:69-71 | acks, or dead-letters a failing ack as "unexpected error: " and its text |
| Worker.Handle | app/worker.py:38-97 | the exact actions for each outcome and what they bring about, with the answers given in turns of this very call |
| Worker.HandleBatch | app/worker.py:107-108 | the actions are those of each message in order, each message is handled to its end and settled, and nothing else is fetched |
| Worker.ConsumeRound | app/worker.py:107-108 | of the next unread entries, the readable ones are each handled to their end and the unreadable ones are dead-lettered |
| Worker.ConsumeLoop | app/worker.py:100-108 | each round reads one batch and finishes it |
| Worker.ReclaimRound | app/worker.py:118-120 | of the claimed pending entries, the readable ones are each handled to their end, with counts at least the number of the delivery, and the unreadable ones are dead-lettered |
| Worker.ReclaimLoop | app/worker.py:111-120 | each round claims one batch and finishes it |
| Producer.EventProducer.Publish | app/queue/producer.py:21-36 | appends exactly schema_version "1" and the JSON of the event, trims at most down to maxlen, and the event is read back from the id returned |

## Left out

- Worker.ConsumeLoop: the endless loop is modelled as any number of rounds.
- Worker.ReclaimLoop: the endless loop is modelled as any number of rounds.
- Progress.BatchEnds: bounds the steps of a loop that keeps running; that its calls return, and that a loop is scheduled again, is not modelled.
- Termination.Terminates: an unread entry that has been trimmed away keeps its share of the potential, since no read moves past it; NeverStuck counts such entries as gone.
- Drain.DrainTerminates: assumes that no claim takes an entry a live loop still holds, which min_idle_ms only makes likely; without it the number of calls for one entry grows with the number of loops that hold it.
- Exclusion.OneFate: the converse does not hold for a single run, since a deviation need not lead to both fates; that none of the six can be dropped is EachDeviationSuffices.
- Runtime.World.XAutoClaim: idle times and owners of pending entries are not kept; a claim may take any pending entries, at most batch_size, so min_idle_ms only ever allows less.
- Runtime.World.ExecuteInsert: SQL, sessions and pools; a failed call either took effect or did not.
- Repository.TransactionRepository.ListUserTransactions: the two statements may see different tables, as they do in the source.
- RateClients.RateClient.GetRate: the clock is read once for a cache lookup and once for a store.
- Retry.RetryAsync: delays are reals, so float rounding and overflow of 2 ** (attempt - 1) are not modelled; jitter is any value in its interval; `retry_on` is always TransientError, as in every call the service makes.
- Events.PrintParse: the digit limit of int() and str(), and whitespace and digits outside ASCII.
- Events.PublishedIsReadBack: JSON and pydantic validation stay abstract, as an encoder and a partial decoder; so do time zones and the upper-casing of currencies.
- Quoting inside the texts of exceptions: a key, a currency or a version that itself contains quotes or escapes is shown as it is.
- Converter.CorrectUnlessMisroundedTie: NaN, infinities, signed zeros and the exponent limits of `decimal` are not modelled.
- Converter.TotalError: rounding of amount or rate by Postgres when they have more decimals than their columns; rows are those passed to the insert, without processed_at.
- ensure_group: the group exists and starts at the beginning of the stream; losing the group, the stream or Redis data is not modelled.
- A negative limit or offset, and validation of query parameters.
- Metrics, logging, the lag gauge, health checks, FastAPI routes and wiring, start-up retries, signals and TaskGroup shutdown; a shutdown is a crash step.
