/** The rate client: an in-process cache with a time to live, over a service that may change its
    answers and fail.  Two loops of one worker share it; its one await is the HTTP call. */
module RateClients {
  import opened Errors
  import opened Converter
  import opened Events

  /** A reply of the rate service; `body` is the parsed rate, None if it cannot be read, and
      `text` what the HTTP or the decimal library says when it raises. */
  datatype HttpReply = NoAnswer(text: string) | Answer(status: nat, body: Option<Decimal>, text: string)

  /** A successful lookup that was stored at time `at`. */
  datatype Fetch = Fetch(currency: string, rate: Decimal, at: real)

  /** Time passes, and the other loop stores rates, each some time after the one before. */
  datatype Pause = Pause(stores: seq<(real, string, Decimal)>, rest: real)

  predicate Flows(p: Pause) {
    p.rest >= 0.0 && forall s <- p.stores :: s.0 >= 0.0
  }

  /** The time after these stores, and what they add to the history. */
  function Elapsed(now: real, stores: seq<(real, string, Decimal)>): real {
    if stores == [] then now else Elapsed(now, stores[..|stores| - 1]) + stores[|stores| - 1].0
  }

  function Stores(now: real, stores: seq<(real, string, Decimal)>): seq<Fetch> {
    if stores == [] then []
    else
      var last := stores[|stores| - 1];
      Stores(now, stores[..|stores| - 1]) + [Fetch(last.1, last.2, Elapsed(now, stores))]
  }

  /** How a reply is turned into a rate or an exception. */
  function Decode(currency: string, reply: HttpReply): Outcome<Decimal> {
    match reply
    case NoAnswer(text) => Err(Transient("rate-service unreachable: " + text))
    case Answer(status, body, text) =>
      if status == 404 then Err(Permanent("no rate for currency '" + currency + "'"))
      else if status >= 500 then Err(Transient("rate-service returned " + PrintNat(status)))
      else if !(200 <= status < 300) then Err(Unexpected(text))
      else if body.None? then Err(Unexpected(text))
      else Ok(body.value)
  }

  /** What one lookup gave: a cached rate, or the service's reply. */
  datatype RateAnswer = FromCache(rate: Decimal) | FromService(reply: HttpReply)

  function Replied(currency: string, answer: RateAnswer): Outcome<Decimal> {
    match answer
    case FromCache(rate) => Ok(rate)
    case FromService(reply) => Decode(currency, reply)
  }

  /** The service is down: it does not answer, or answers 5xx. */
  predicate IsDown(reply: HttpReply) {
    reply.NoAnswer? || reply.status >= 500
  }

  lemma DownIsTransient(currency: string, reply: HttpReply)
    ensures IsDown(reply) <==> IsTransient(Decode(currency, reply))
  {}

  /** A 2xx reply whose body is this rate. */
  predicate Serves(reply: HttpReply, rate: Decimal) {
    reply.Answer? && 200 <= reply.status < 300 && reply.body == Some(rate)
  }

  /** The answer gives this rate: it was cached, or the service has just served it. */
  predicate Gives(answer: RateAnswer, rate: Decimal) {
    match answer
    case FromCache(cached) => cached == rate
    case FromService(reply) => Serves(reply, rate)
  }

  /** What a reply means for `get_rate`, status by status. */
  predicate Means(currency: string, reply: HttpReply, rate: Outcome<Decimal>) {
    match reply
    case NoAnswer(text) => rate == Err(Transient("rate-service unreachable: " + text))
    case Answer(status, body, text) =>
      && (status == 404 ==> rate == Err(Permanent("no rate for currency '" + currency + "'")))
      && (status >= 500 ==> rate == Err(Transient("rate-service returned " + PrintNat(status))))
      && (200 <= status < 300 && body.Some? ==> rate == Ok(body.value))
      && (status != 404 && status < 500 && !(200 <= status < 300 && body.Some?) ==> rate == Err(Unexpected(text)))
  }

  lemma DecodedAsMeant(currency: string, reply: HttpReply)
    ensures forall rate :: Means(currency, reply, rate) <==> rate == Decode(currency, reply)
  {}

  /** A lookup succeeds exactly with a rate that was cached or served. */
  lemma RepliedIsGiven(currency: string, answer: RateAnswer, rate: Decimal)
    ensures Replied(currency, answer) == Ok(rate) <==> Gives(answer, rate)
  {}

  type Cache = map<string, (Decimal, real)>

  /** What the cache holds after these lookups: the last one of each currency, until it expires. */
  function CacheOf(fetched: seq<Fetch>, ttl: real): Cache {
    if fetched == [] then map[]
    else
      var last := fetched[|fetched| - 1];
      CacheOf(fetched[..|fetched| - 1], ttl)[last.currency := (last.rate, last.at + ttl)]
  }

  /** Index i is the last lookup of its currency. */
  predicate IsLatest(fetched: seq<Fetch>, currency: string, i: int) {
    && 0 <= i < |fetched| && fetched[i].currency == currency
    && forall j | i < j < |fetched| :: fetched[j].currency != currency
  }

  /** A currency is cached exactly when it was looked up, with its latest rate. */
  lemma {:induction false} CachedIsLatest(fetched: seq<Fetch>, ttl: real, currency: string)
    ensures currency in CacheOf(fetched, ttl) <==> exists i :: IsLatest(fetched, currency, i)
    ensures forall i | IsLatest(fetched, currency, i) ::
      currency in CacheOf(fetched, ttl) && CacheOf(fetched, ttl)[currency] == (fetched[i].rate, fetched[i].at + ttl)
  {
    if fetched != [] {
      var n := |fetched| - 1;
      CachedIsLatest(fetched[..n], ttl, currency);
      if fetched[n].currency == currency {
        assert IsLatest(fetched, currency, n);
      } else {
        forall i ensures IsLatest(fetched, currency, i) <==> IsLatest(fetched[..n], currency, i) {}
      }
    }
  }

  /** The rate was looked up for this currency less than the time to live ago. */
  ghost predicate StoredRecently(fetched: seq<Fetch>, ttl: real, now: real, currency: string, rate: Decimal) {
    exists i :: IsLatest(fetched, currency, i) && fetched[i].rate == rate && now - fetched[i].at < ttl
  }

  lemma FreshIsRecent(fetched: seq<Fetch>, ttl: real, now: real, currency: string)
    ensures var cache := CacheOf(fetched, ttl);
      forall rate :: StoredRecently(fetched, ttl, now, currency, rate) <==>
        currency in cache && cache[currency].0 == rate && now < cache[currency].1
  {
    CachedIsLatest(fetched, ttl, currency);
  }

  class RateClient {
    const ttl: real
    var cache: Cache
    /** time.monotonic(). */
    var now: real
    ghost var fetched: seq<Fetch>

    ghost predicate Valid()
      reads this
    {
      && cache == CacheOf(fetched, ttl)
      && (forall i | 0 <= i < |fetched| :: fetched[i].at <= now)
      && (forall i, j | 0 <= i < j < |fetched| :: fetched[i].at <= fetched[j].at)
    }

    constructor (ttl: real)
      ensures Valid() && fetched == [] && this.ttl == ttl
    {
      this.ttl := ttl;
      cache, now, fetched := map[], 0.0, [];
    }

    method Cached(currency: string) returns (rate: Option<Decimal>)
      requires Valid()
      ensures rate.Some? ==> StoredRecently(fetched, ttl, now, currency, rate.value)
      ensures rate.None? ==> forall r :: !StoredRecently(fetched, ttl, now, currency, r)
    {
      FreshIsRecent(fetched, ttl, now, currency);
      if currency !in cache {
        return None;
      }
      var entry := cache[currency];
      if now >= entry.1 {
        return None;
      }
      return Some(entry.0);
    }

    method Store(currency: string, rate: Decimal)
      requires Valid()
      modifies this
      ensures Valid() && now == old(now)
      ensures fetched == old(fetched) + [Fetch(currency, rate, now)]
    {
      cache := cache[currency := (rate, now + ttl)];
      fetched := fetched + [Fetch(currency, rate, now)];
      assert fetched[..|fetched| - 1] == old(fetched);
    }

    method Wait(duration: real)
      requires Valid() && duration >= 0.0
      modifies this
      ensures Valid() && fetched == old(fetched) && now == old(now) + duration
    {
      now := now + duration;
    }

    /** The other loop runs while this one does not. */
    method Meanwhile(pause: Pause)
      requires Valid() && Flows(pause)
      modifies this
      ensures Valid() && now == Elapsed(old(now), pause.stores) + pause.rest
      ensures fetched == old(fetched) + Stores(old(now), pause.stores)
    {
      var k := 0;
      while k < |pause.stores|
        invariant 0 <= k <= |pause.stores| && Valid()
        invariant now == Elapsed(old(now), pause.stores[..k])
        invariant fetched == old(fetched) + Stores(old(now), pause.stores[..k])
      {
        assert pause.stores[..k + 1][..k] == pause.stores[..k];
        Wait(pause.stores[k].0);
        Store(pause.stores[k].1, pause.stores[k].2);
        k := k + 1;
      }
      assert pause.stores[..k] == pause.stores;
      Wait(pause.rest);
    }

    /** `get_rate`.  A rate it returns was either stored for this currency less than the time to
        live ago, or fetched by this very call; the service is asked whenever nothing fresh is
        cached; and only a success of its own adds to what has been stored meanwhile. */
    method GetRate(currency: string, pause: Pause, reply: HttpReply) returns (rate: Outcome<Decimal>, asked: bool)
      requires Valid() && Flows(pause)
      modifies this
      ensures Valid() && old(fetched) <= fetched
      ensures asked <==> forall r :: !StoredRecently(old(fetched), ttl, old(now), currency, r)
      ensures !asked ==> rate.Ok? && StoredRecently(old(fetched), ttl, old(now), currency, rate.value)
      ensures !asked ==> fetched == old(fetched) && now == old(now)
      ensures asked ==> Means(currency, reply, rate) && rate == Decode(currency, reply)
      ensures asked ==> now == Elapsed(old(now), pause.stores) + pause.rest
      ensures asked ==> fetched == old(fetched) + Stores(old(now), pause.stores)
                                   + if rate.Ok? then [Fetch(currency, rate.value, now)] else []
    {
      var cached := Cached(currency);
      if cached.Some? {
        return Ok(cached.value), false;
      }
      Meanwhile(pause);
      rate, asked := Decode(currency, reply), true;
      if rate.Ok? {
        Store(currency, rate.value);
      }
    }
  }
}
