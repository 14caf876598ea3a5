/** `TokenBucket` (governor.py) and `DomainRateLimiter` (crawler.py): two token buckets
    that look alike and keep different bounds.

    A sleep ends `late` seconds after the moment asked for, never before it. */
module Buckets {
  import opened Basics
  import opened Metering

  type Positive = r: real | r > 0.0 witness 1.0
  type NonNegative = r: real | r >= 0.0

  function Times(span: real, rate: real): real {
    span * rate
  }

  function Over(deficit: real, rate: Positive): real {
    deficit / rate
  }

  lemma TimesEarned(rate: Positive, t: real, u: real)
    requires t <= u
    ensures Times(u - t, rate) == Earned(rate, u) - Earned(rate, t) >= 0.0
  {
    EarnedGrows(rate, t, u);
    assert Times(u - t, rate) == Earned(rate, u - t);
  }

  /** Waiting out a deficit earns it. */
  lemma DeficitEarned(deficit: real, rate: Positive, now: real, late: NonNegative)
    requires deficit >= 0.0
    ensures Over(deficit, rate) >= 0.0
    ensures Earned(rate, now + Over(deficit, rate) + late) - Earned(rate, now) >= deficit
  {
    var wait := deficit / rate;
    assert wait * rate == deficit;
    EarnedGrows(rate, now, now + wait);
    EarnedGrows(rate, now + wait, now + wait + late);
    assert Earned(rate, wait) == wait * rate;
  }

  // ----- TokenBucket -----

  /** Tokens and the instant they were last brought up to date. */
  datatype Tank = Tank(tokens: real, last: real)
  {
    function Have(capacity: real, rate: real, now: real): real {
      Lesser(capacity, tokens + Times(now - last, rate))
    }
  }

  /** One request of a token bucket: the sleep is credited once, because the refill
      instant moves past it. */
  function Take(t: Tank, capacity: real, rate: Positive, n: real, now: real, late: real): (Tank, real) {
    var have := t.Have(capacity, rate, now);
    if have >= n then (Tank(have - n, now), 0.0)
    else
      var wait := Over(n - have, rate);
      (Tank(0.0, now + wait + late), wait)
  }

  lemma TakePays(t: Tank, capacity: NonNegative, rate: Positive, n: NonNegative, now: real, late: NonNegative)
    requires 0.0 <= t.tokens <= capacity && t.last <= now
    ensures var t' := Take(t, capacity, rate, n, now, late).0;
      0.0 <= t'.tokens <= capacity && t'.tokens + n <= Greater(capacity, n)
      && t'.tokens + n <= t.tokens + Earned(rate, t'.last) - Earned(rate, t.last)
      && Earned(rate, t.last) <= Earned(rate, t'.last)
  {
    TimesEarned(rate, t.last, now);
    var have := t.Have(capacity, rate, now);
    assert have <= t.tokens + Earned(rate, now) - Earned(rate, t.last);
    assert have >= 0.0;
    if have < n {
      DeficitEarned(n - have, rate, now, late);
    }
  }

  lemma OverTimes(deficit: real, rate: Positive)
    ensures Over(deficit, rate) * rate == deficit
  {
  }

  /** What is held and has been earned since, up to the capacity, is granted at once, and the
      rest kept; for more, the wait earns just what is missing. */
  ghost predicate GrantsOrWaits(t: Tank, capacity: real, rate: real, n: real, now: real, tokens: real, wait: real) {
    var earned := t.tokens + (now - t.last) * rate;
    var held := if earned < capacity then earned else capacity;
    if n <= held then wait == 0.0 && tokens == held - n else wait * rate == n - held && tokens == 0.0
  }

  lemma TakesOrWaits(t: Tank, capacity: real, rate: Positive, n: real, now: real, late: real)
    ensures var (t', wait) := Take(t, capacity, rate, n, now, late);
      && GrantsOrWaits(t, capacity, rate, n, now, t'.tokens, wait)
      && t'.last == if wait == 0.0 then now else now + wait + late
  {
    OverTimes(n - t.Have(capacity, rate, now), rate);
    if n > t.Have(capacity, rate, now) {
      OverPositive(rate, n - t.Have(capacity, rate, now));
    }
  }

  method Draw(t: Tank, capacity: real, rate: Positive, n: real, now: real, late: real) returns (t': Tank, wait: real)
    ensures (t', wait) == Take(t, capacity, rate, n, now, late)
  {
    var elapsed := now - t.last;
    var tokens := Lesser(capacity, t.tokens + Times(elapsed, rate));
    if tokens >= n {
      return Tank(tokens - n, now), 0.0;
    }
    var deficit := n - tokens;
    wait := Over(deficit, rate);
    t' := Tank(0.0, now + wait + late);
  }

  /** A bucket and the grants it made, none for more than `largest`. */
  ghost predicate Throttled(t: Tank, log: seq<Grant>, capacity: real, rate: real, largest: real) {
    && 0.0 <= t.tokens <= capacity
    && (log != [] ==> log[|log| - 1].at == t.last)
    && Paced(InTokens(log, rate), t.tokens, Greater(capacity, largest))
  }

  lemma TakeKeepsThrottled(t: Tank, log: seq<Grant>, capacity: NonNegative, rate: Positive, largest: real,
                           n: NonNegative, now: real, late: NonNegative)
    requires Throttled(t, log, capacity, rate, largest) && t.last <= now && n <= largest
    ensures var t' := Take(t, capacity, rate, n, now, late).0;
      Throttled(t', log + [Grant(t'.last, n)], capacity, rate, largest)
  {
    TakePays(t, capacity, rate, n, now, late);
    var t' := Take(t, capacity, rate, n, now, late).0;
    GrantKeepsPacedInTokens(log, t.tokens, t.last, Grant(t'.last, n), t'.tokens, Greater(capacity, largest), rate);
  }

  /** `log` is every grant of the bucket, at the instant it returned. */
  class TokenBucket {
    const rate: Positive
    const capacity: NonNegative
    var tank: Tank
    ghost const largest: real
    ghost var log: seq<Grant>

    ghost predicate Valid()
      reads this
    {
      Throttled(tank, log, capacity, rate, largest)
    }

    constructor (rate: Positive, capacity: NonNegative, now: real, ghost largest: real)
      ensures Valid() && this.rate == rate && this.capacity == capacity && this.largest == largest
      ensures tank == Tank(capacity, now) && log == []
    {
      this.rate, this.capacity, this.largest := rate, capacity, largest;
      tank, log := Tank(capacity, now), [];
    }

    /** The lock is held across the sleep, so requests take their turns whole. */
    method Acquire(n: nat, now: real, late: NonNegative) returns (wait: real)
      requires Valid() && tank.last <= now && n as real <= largest
      modifies this
      ensures Valid()
      ensures (tank, wait) == Take(old(tank), capacity, rate, n as real, now, late)
      ensures GrantsOrWaits(old(tank), capacity, rate, n as real, now, tank.tokens, wait)
      ensures tank.last == if wait == 0.0 then now else now + wait + late
      ensures log == old(log) + [Grant(tank.last, n as real)]
    {
      TakeKeepsThrottled(tank, log, capacity, rate, largest, n as real, now, late);
      TakesOrWaits(tank, capacity, rate, n as real, now, late);
      tank, wait := Draw(tank, capacity, rate, n as real, now, late);
      log := log + [Grant(tank.last, n as real)];
    }

    /** In any interval of length T the bucket grants at most its capacity, or one
        larger request, and what the rate earns in T. */
    lemma Bounded(from: real, upTo: real)
      requires Valid() && from <= upTo
      ensures Granted(log, from, upTo) <= Greater(capacity, largest) + Earned(rate, upTo - from)
    {
      PacedBounded(log, tank.tokens, Greater(capacity, largest), rate, from, upTo);
    }
  }

  // ----- DomainRateLimiter -----

  /** One request to a domain's bucket: the new bucket and the sleep.  The refill
      instant stays at `now`, so the sleep is credited again by the next request. */
  function TakeOne(t: Tank, burst: real, rps: Positive, now: real): (Tank, real) {
    var have := t.Have(burst, rps, now);
    if have < 1.0 then (Tank(0.0, now), Over(1.0 - have, rps)) else (Tank(have - 1.0, now), 0.0)
  }

  method DrawOne(t: Tank, burst: real, rps: Positive, now: real) returns (t': Tank, wait: real)
    ensures (t', wait) == TakeOne(t, burst, rps, now)
  {
    var elapsed := now - t.last;
    t' := Tank(Lesser(burst, t.tokens + Times(elapsed, rps)), now);
    wait := 0.0;
    if t'.tokens < 1.0 {
      wait := Over(1.0 - t'.tokens, rps);
      t' := t'.(tokens := 0.0);
    } else {
      t' := t'.(tokens := t'.tokens - 1.0);
    }
  }

  /** As in a token bucket, but the instant of the refill stays at that of the request. */
  lemma TakesOneOrWaits(t: Tank, burst: real, rps: Positive, now: real)
    ensures var (t', wait) := TakeOne(t, burst, rps, now);
      t'.last == now && GrantsOrWaits(t, burst, rps, 1.0, now, t'.tokens, wait)
  {
    OverTimes(1.0 - t.Have(burst, rps, now), rps);
  }

  /** Credit from one instant to a later one of the same bucket. */
  lemma HaveGrows(t: Tank, burst: NonNegative, rps: Positive, at: real, now: real)
    requires 0.0 <= t.tokens <= burst && t.last <= at <= now
    ensures 0.0 <= t.Have(burst, rps, at) <= burst
    ensures t.Have(burst, rps, now) <= t.Have(burst, rps, at) + Earned(rps, now) - Earned(rps, at)
  {
    TimesEarned(rps, t.last, at);
    TimesEarned(rps, t.last, now);
    EarnedGrows(rps, at, now);
  }

  /** The step at the single rate, the sleep counted apart. */
  lemma TakeOneSteps(t: Tank, burst: NonNegative, rps: Positive, at: real, now: real, late: NonNegative)
    requires 0.0 <= t.tokens <= burst && t.last <= at <= now
    ensures var (t', wait) := TakeOne(t, burst, rps, now);
      && 0.0 <= t'.tokens <= burst && t'.last == now && wait >= 0.0
      && t'.tokens + 1.0 <= t.Have(burst, rps, at) + Earned(rps, now + wait + late) - Earned(rps, at)
      && (wait == 0.0 ==> t'.tokens + 1.0 <= burst) && (wait > 0.0 ==> t'.tokens == 0.0)
  {
    var have := t.Have(burst, rps, now);
    HaveGrows(t, burst, rps, at, now);
    HaveGrows(t, burst, rps, now, now);
    if have < 1.0 {
      DeficitEarned(1.0 - have, rps, now, late);
      OverPositive(rps, 1.0 - have);
    } else {
      EarnedGrows(rps, now, now + late);
    }
  }

  lemma OverPositive(rate: Positive, x: real)
    requires x > 0.0
    ensures Over(x, rate) > 0.0
  {
  }

  lemma EarnedTwice(rps: real, twice: real, t: real)
    requires twice == 2.0 * rps
    ensures Earned(twice, t) == 2.0 * Earned(rps, t)
  {
  }

  /** Measured at twice the rate, the level at the last return pays for the next grant. */
  lemma TakeOnePays(t: Tank, burst: NonNegative, rps: Positive, at: real, now: real, late: NonNegative,
                    t': Tank, wait: real, at': real)
    requires 0.0 <= t.tokens <= burst && t.last <= at <= now
    requires (t', wait) == TakeOne(t, burst, rps, now) && at' == now + wait + late
    ensures wait >= 0.0 && 0.0 <= t'.tokens <= burst && t'.last == now <= at'
    ensures 0.0 <= t'.Have(burst, rps, at') <= burst
    ensures Earned(rps, at) <= Earned(rps, at')
    ensures t'.Have(burst, rps, at') + 1.0 <= t.Have(burst, rps, at) + 2.0 * (Earned(rps, at') - Earned(rps, at))
  {
    TakeOneSteps(t, burst, rps, at, now, late);
    HaveGrows(t', burst, rps, now, at');
    assert t'.Have(burst, rps, now) <= t'.tokens by {
      TimesEarned(rps, now, now);
    }
    EarnedGrows(rps, at, now);
    EarnedGrows(rps, now, at');
  }

  /** One domain's bucket as of its last return, `at`, and the log of its grants: what
      the bucket then holds is the level of a log paced at `twice` the rate, with one
      grant more than the burst. */
  ghost predicate Doubled(t: Tank, log: seq<Grant>, level: real, at: real, burst: real, twice: real) {
    && 0.0 <= t.tokens <= burst && t.last <= at
    && (log != [] ==> log[|log| - 1].at == at)
    && Paced(InTokens(log, twice), level, burst + 1.0)
  }

  lemma UnusedDoubled(t: Tank, log: seq<Grant>, level: real, at: real, burst: real, twice: real)
    requires 0.0 <= t.tokens <= burst && t.last <= at && log == []
    ensures Doubled(t, log, level, at, burst, twice)
  {
  }

  lemma PaidKeepsDoubled(t: Tank, log: seq<Grant>, level: real, at: real, burst: real, twice: real, t': Tank,
                         level': real, at': real)
    requires Doubled(t, log, level, at, burst, twice)
    requires 0.0 <= t'.tokens <= burst && t'.last <= at' && 0.0 <= level' <= burst
    requires Earned(twice, at) <= Earned(twice, at') && level' + 1.0 <= level + Earned(twice, at') - Earned(twice, at)
    ensures Doubled(t', log + [Grant(at', 1.0)], level', at', burst, twice)
  {
    GrantKeepsPacedInTokens(log, level, at, Grant(at', 1.0), level', burst + 1.0, twice);
  }

  lemma TakeOneKeepsDoubled(t: Tank, log: seq<Grant>, level: real, at: real, burst: NonNegative, rps: Positive,
                            twice: real,
                            now: real, late: NonNegative, t': Tank, wait: real, level': real, at': real)
    requires Doubled(t, log, level, at, burst, twice) && at <= now
    requires twice == 2.0 * rps && level == t.Have(burst, rps, at)
    requires (t', wait) == TakeOne(t, burst, rps, now) && at' == now + wait + late && level' == t'.Have(burst, rps, at')
    ensures wait >= 0.0 && Doubled(t', log + [Grant(at', 1.0)], level', at', burst, twice)
  {
    TakeOnePays(t, burst, rps, at, now, late, t', wait, at');
    EarnedTwice(rps, twice, at);
    EarnedTwice(rps, twice, at');
    PaidKeepsDoubled(t, log, level, at, burst, twice, t', level', at');
  }

  /** In any interval there are at most burst + 1 grants and twice what the rate earns. */
  lemma DoubledBounded(t: Tank, log: seq<Grant>, level: real, at: real, burst: NonNegative, rps: Positive, twice: real,
                       from: real, upTo: real)
    requires twice == 2.0 * rps && Doubled(t, log, level, at, burst, twice) && from <= upTo
    ensures Granted(log, from, upTo) <= burst + 1.0 + 2.0 * Earned(rps, upTo - from)
  {
    PacedBounded(log, level, burst + 1.0, twice, from, upTo);
    EarnedTwice(rps, twice, upTo - from);
  }

  datatype Domain = Domain(host: string)

  /** A bucket with its grants, at least one, the last of them returned at `at`. */
  ghost predicate Served(t: Tank, log: seq<Grant>, burst: real, rps: real, twice: real, clock: real) {
    && log != [] && log[|log| - 1].at <= clock
    && Doubled(t, log, t.Have(burst, rps, log[|log| - 1].at), log[|log| - 1].at, burst, twice)
  }

  ghost predicate AllServed(buckets: map<Domain, Tank>, logs: map<Domain, seq<Grant>>, burst: real, rps: real,
                            twice: real, clock: real) {
    buckets.Keys == logs.Keys &&
    forall d {:trigger Served(buckets[d], logs[d], burst, rps, twice, clock)} ::
      d in buckets ==> Served(buckets[d], logs[d], burst, rps, twice, clock)
  }

  function BucketOf(buckets: map<Domain, Tank>, d: Domain, burst: real, now: real): Tank {
    if d in buckets then buckets[d] else Tank(burst, now)
  }

  ghost function LogOf(logs: map<Domain, seq<Grant>>, d: Domain): seq<Grant> {
    if d in logs then logs[d] else []
  }

  /** The step a request takes: bucket t and log after it, returning at `at`. */
  ghost predicate Steps(buckets: map<Domain, Tank>, logs: map<Domain, seq<Grant>>, burst: real, rps: Positive,
                        d: Domain, now: real, t: Tank, wait: real, late: real, log: seq<Grant>, at: real) {
    && (t, wait) == TakeOne(BucketOf(buckets, d, burst, now), burst, rps, now)
    && at == now + wait + late && log == LogOf(logs, d) + [Grant(at, 1.0)]
  }

  lemma RequestServed(buckets: map<Domain, Tank>, logs: map<Domain, seq<Grant>>, burst: NonNegative, rps: Positive,
                      twice: real, clock: real,
                      d: Domain, now: real, t: Tank, wait: real, late: NonNegative, log: seq<Grant>, at: real)
    requires twice == 2.0 * rps && AllServed(buckets, logs, burst, rps, twice, clock) && clock <= now
    requires Steps(buckets, logs, burst, rps, d, now, t, wait, late, log, at)
    ensures wait >= 0.0 && Served(t, log, burst, rps, twice, at)
  {
    var before, past := BucketOf(buckets, d, burst, now), LogOf(logs, d);
    if d in buckets {
      ServedAgain(before, past, burst, rps, twice, clock, now, t, wait, late, log, at);
    } else {
      ServedFirst(before, past, burst, rps, twice, now, t, wait, late, log, at);
    }
  }

  lemma ServedAgain(before: Tank, past: seq<Grant>, burst: NonNegative, rps: Positive, twice: real, clock: real,
                    now: real, t: Tank, wait: real, late: NonNegative, log: seq<Grant>, at: real)
    requires twice == 2.0 * rps && Served(before, past, burst, rps, twice, clock) && clock <= now
    requires (t, wait) == TakeOne(before, burst, rps, now) && at == now + wait + late && log == past + [Grant(at, 1.0)]
    ensures wait >= 0.0 && Served(t, log, burst, rps, twice, at)
  {
    var last := past[|past| - 1].at;
    TakeOneKeepsDoubled(before, past, before.Have(burst, rps, last), last, burst, rps, twice, now, late,
                        t, wait, t.Have(burst, rps, at), at);
  }

  lemma ServedFirst(before: Tank, past: seq<Grant>, burst: NonNegative, rps: Positive, twice: real, now: real,
                    t: Tank, wait: real, late: NonNegative, log: seq<Grant>, at: real)
    requires twice == 2.0 * rps && before == Tank(burst, now) && past == []
    requires (t, wait) == TakeOne(before, burst, rps, now) && at == now + wait + late && log == past + [Grant(at, 1.0)]
    ensures wait >= 0.0 && Served(t, log, burst, rps, twice, at)
  {
    var level := before.Have(burst, rps, now);
    UnusedDoubled(before, past, level, now, burst, twice);
    TakeOneKeepsDoubled(before, past, level, now, burst, rps, twice, now, late, t, wait, t.Have(burst, rps, at), at);
  }

  lemma UpdateServes(buckets: map<Domain, Tank>, logs: map<Domain, seq<Grant>>, burst: real, rps: real, twice: real,
                     clock: real,
                     d: Domain, t: Tank, log: seq<Grant>, now: real)
    requires AllServed(buckets, logs, burst, rps, twice, clock) && clock <= now && Served(t, log, burst, rps, twice, now)
    ensures AllServed(buckets[d := t], logs[d := log], burst, rps, twice, now)
  {
    var buckets', logs' := buckets[d := t], logs[d := log];
    forall e | e in buckets' ensures Served(buckets'[e], logs'[e], burst, rps, twice, now) {
      if e != d {
        assert Served(buckets[e], logs[e], burst, rps, twice, clock);
      }
    }
  }

  lemma AcquireServes(buckets: map<Domain, Tank>, logs: map<Domain, seq<Grant>>, burst: NonNegative, rps: Positive,
                      twice: real, clock: real,
                      d: Domain, now: real, t: Tank, wait: real, late: NonNegative, log: seq<Grant>, at: real)
    requires twice == 2.0 * rps && AllServed(buckets, logs, burst, rps, twice, clock) && clock <= now
    requires Steps(buckets, logs, burst, rps, d, now, t, wait, late, log, at)
    ensures wait >= 0.0 && AllServed(buckets[d := t], logs[d := log], burst, rps, twice, at)
  {
    RequestServed(buckets, logs, burst, rps, twice, clock, d, now, t, wait, late, log, at);
    UpdateServes(buckets, logs, burst, rps, twice, clock, d, t, log, at);
  }

  /** Buckets made on first use, for a caller that waits for each grant before asking
      for the next. */
  class DomainRateLimiter {
    const rps: Positive
    const burst: NonNegative
    var buckets: map<Domain, Tank>
    ghost const twice: real
    ghost var logs: map<Domain, seq<Grant>>
    ghost var clock: real

    ghost predicate Valid()
      reads this
    {
      twice == 2.0 * rps && AllServed(buckets, logs, burst, rps, twice, clock)
    }

    constructor (rps: Positive, burst: nat, start: real)
      ensures Valid() && this.rps == rps && this.burst == burst as real && clock == start && logs == map[]
    {
      this.rps, this.burst, this.twice := rps, burst as real, 2.0 * rps;
      buckets, logs, clock := map[], map[], start;
    }

    method Acquire(d: Domain, now: real, late: NonNegative) returns (wait: real)
      requires Valid() && clock <= now
      modifies this
      ensures Valid() && clock == now + wait + late && wait >= 0.0
      ensures wait == TakeOne(BucketOf(old(buckets), d, burst, now), burst, rps, now).1
      ensures d in buckets && buckets[d].last == now && (d in old(buckets) ==>
        GrantsOrWaits(old(buckets)[d], burst, rps, 1.0, now, buckets[d].tokens, wait))
      ensures d in buckets && (d !in old(buckets) ==>
        GrantsOrWaits(Tank(burst, now), burst, rps, 1.0, now, buckets[d].tokens, wait))
      ensures buckets == old(buckets)[d := TakeOne(BucketOf(old(buckets), d, burst, now), burst, rps, now).0]
      ensures logs == old(logs)[d := LogOf(old(logs), d) + [Grant(clock, 1.0)]]
    {
      var t;
      t, wait := DrawOne(BucketOf(buckets, d, burst, now), burst, rps, now);
      ghost var at := now + wait + late;
      ghost var log := LogOf(logs, d) + [Grant(at, 1.0)];
      TakesOneOrWaits(BucketOf(buckets, d, burst, now), burst, rps, now);
      AcquireServes(buckets, logs, burst, rps, twice, clock, d, now, t, wait, late, log, at);
      buckets, logs, clock := buckets[d := t], logs[d := log], at;
    }

    /** In any interval of length T a domain gets at most burst + 1 grants and twice what
        the rate earns in T. */
    lemma Bounded(d: Domain, from: real, upTo: real)
      requires Valid() && d in logs && from <= upTo
      ensures Granted(logs[d], from, upTo) <= burst + 1.0 + 2.0 * Earned(rps, upTo - from)
    {
      ServedBounded(buckets[d], logs[d], burst, rps, twice, clock, from, upTo);
    }
  }

  lemma ServedBounded(t: Tank, log: seq<Grant>, burst: NonNegative, rps: Positive, twice: real, clock: real,
                      from: real, upTo: real)
    requires twice == 2.0 * rps && Served(t, log, burst, rps, twice, clock) && from <= upTo
    ensures Granted(log, from, upTo) <= burst + 1.0 + 2.0 * Earned(rps, upTo - from)
  {
    var at := log[|log| - 1].at;
    DoubledBounded(t, log, t.Have(burst, rps, at), at, burst, rps, twice, from, upTo);
  }

  // ----- the bound of the token bucket is reached -----

  /** When n requests for one token return, each made as the one before returns, if no
      sleep ends late. */
  function Singles(t: Tank, capacity: real, rate: Positive, now: real, n: nat): (instants: seq<real>)
    ensures |instants| == n
    decreases n
  {
    if n == 0 then []
    else
      var (t', wait) := Take(t, capacity, rate, 1.0, now, 0.0);
      [now + wait] + Singles(t', capacity, rate, now + wait, n - 1)
  }

  /** Tokens in hand go at once. */
  lemma {:induction false} SinglesHeld(k: nat, capacity: real, rate: Positive, m: real, n: nat)
    requires k as real <= capacity
    ensures Singles(Tank(k as real, m), capacity, rate, m, k + n) ==
      Repeated(m, k) + Singles(Tank(0.0, m), capacity, rate, m, n)
    decreases k
  {
    if k > 0 {
      NoTime(rate);
      assert (k - 1) as real == k as real - 1.0;
      assert Take(Tank(k as real, m), capacity, rate, 1.0, m, 0.0) == (Tank((k - 1) as real, m), 0.0);
      SinglesHeld(k - 1, capacity, rate, m, n);
      FirstRepeated(m, k - 1, Singles(Tank(0.0, m), capacity, rate, m, n));
    }
  }

  /** From an empty bucket each takes the time of a token. */
  lemma {:induction false} SinglesEmpty(capacity: NonNegative, rate: Positive, m: real, n: nat, i: nat)
    requires i < n
    ensures Singles(Tank(0.0, m), capacity, rate, m, n)[i] == m + Spell(i + 1, rate)
    decreases i
  {
    NoTime(rate);
    SpellEarns(i, rate);
    SpellEarns(0, rate);
    assert Take(Tank(0.0, m), capacity, rate, 1.0, m, 0.0) == (Tank(0.0, m + Over(1.0, rate)), Over(1.0, rate));
    if i > 0 {
      SinglesEmpty(capacity, rate, m + Over(1.0, rate), n - 1, i - 1);
      SpellEarns(i - 1, rate);
    }
  }

  lemma {:induction false} SpellsAscend(i: nat, n: nat, rate: Positive)
    requires i <= n
    ensures 0.0 <= Spell(i, rate) <= Spell(n, rate)
    decreases n - i
  {
    SpellEarns(i, rate);
    if i < n {
      SpellsAscend(i + 1, n, rate);
    }
  }

  /** The bound is reached: for every whole capacity, every rate and every number n of
      spells, a full bucket asked for one token after another grants exactly its capacity
      and what the rate earns. */
  lemma CapacityReached(c: nat, rate: Positive, n: nat)
    ensures Granted(GrantsAt(Singles(Tank(c as real, 0.0), c as real, rate, 0.0, c + n)), 0.0, Spell(n, rate))
      == c as real + Earned(rate, Spell(n, rate))
  {
    var instants := Singles(Tank(c as real, 0.0), c as real, rate, 0.0, c + n);
    SinglesHeld(c, c as real, rate, 0.0, n);
    SpellsAscend(0, n, rate);
    forall i | 0 <= i < |instants| ensures Inside(instants[i], 0.0, Spell(n, rate)) {
      if i >= c {
        SinglesEmpty(c as real, rate, 0.0, n, i - c);
        SpellsAscend(i - c + 1, n, rate);
      }
    }
    GrantedFrom(instants, 0, 0.0, Spell(n, rate));
    SpellEarns(n, rate);
    assert (c + n) as real == c as real + n as real;
  }

  // ----- the bound of the domain limiter is reached -----

  /** When calls return, each made as the one before returns, if their sleeps end late. */
  function Returns(t: Tank, burst: real, rps: Positive, now: real, lates: seq<real>): (instants: seq<real>)
    ensures |instants| == |lates|
    decreases |lates|
  {
    if lates == [] then []
    else
      var (t', wait) := TakeOne(t, burst, rps, now);
      var at := now + wait + lates[0];
      [at] + Returns(t', burst, rps, at, lates[1..])
  }

  function Repeated(x: real, n: nat): (s: seq<real>)
    ensures |s| == n && forall i :: 0 <= i < n ==> s[i] == x
  {
    seq(n, _ => x)
  }

  /** n times the time in which the rate earns one token. */
  function Spell(n: nat, rps: Positive): real {
    n as real * Over(1.0, rps)
  }

  lemma SpellEarns(n: nat, rps: Positive)
    ensures Times(Spell(n, rps), rps) == n as real && Earned(rps, Spell(n, rps)) == n as real
    ensures Spell(n + 1, rps) == Spell(n, rps) + Over(1.0, rps) && Over(1.0, rps) > 0.0 && Spell(n, rps) >= 0.0
  {
    var p, k := Over(1.0, rps), n as real;
    assert p * rps == 1.0;
    assert (k * p) * rps == k * (p * rps);
    assert rps * (k * p) == (k * p) * rps;
    OverPositive(rps, 1.0);
    Product(k, p);
    assert (n + 1) as real == k + 1.0;
    assert (k + 1.0) * p == k * p + p;
  }

  lemma Product(x: real, y: real)
    requires x >= 0.0 && y >= 0.0
    ensures x * y >= 0.0
  {
  }

  lemma NoTime(rps: Positive)
    ensures Times(0.0, rps) == 0.0
  {
  }

  lemma OneMore(t: Tank, burst: real, rps: Positive, now: real, late: real, rest: seq<real>, t': Tank, wait: real)
    requires TakeOne(t, burst, rps, now) == (t', wait)
    ensures Returns(t, burst, rps, now, [late] + rest) ==
      [now + wait + late] + Returns(t', burst, rps, now + wait + late, rest)
  {
    assert ([late] + rest)[1..] == rest;
  }

  lemma TakesHeld(k: nat, burst: real, rps: Positive, m: real)
    requires 1 <= k && k as real <= burst
    ensures TakeOne(Tank(k as real, m), burst, rps, m) == (Tank((k - 1) as real, m), 0.0)
  {
    NoTime(rps);
    assert (k - 1) as real == k as real - 1.0;
  }

  lemma TakesEmpty(burst: real, rps: Positive, m: real)
    requires burst >= 0.0
    ensures TakeOne(Tank(0.0, m), burst, rps, m) == (Tank(0.0, m), Over(1.0, rps))
  {
    NoTime(rps);
  }

  /** The time slept counts again. */
  lemma TakesSlept(b: nat, burst: real, rps: Positive, m: real, at: real)
    requires 1 <= b && b as real <= burst && at == m + Spell(b, rps)
    ensures TakeOne(Tank(0.0, m), burst, rps, at) == (Tank((b - 1) as real, at), 0.0)
  {
    SpellEarns(b, rps);
    assert at - m == Spell(b, rps);
    assert (b - 1) as real == b as real - 1.0;
  }

  lemma FirstRepeated(x: real, n: nat, rest: seq<real>)
    ensures Repeated(x, n + 1) + rest == [x] + (Repeated(x, n) + rest)
  {
  }

  /** Tokens in hand are granted at once. */
  lemma {:induction false} Drains(k: nat, burst: real, rps: Positive, m: real, rest: seq<real>)
    requires k as real <= burst
    ensures Returns(Tank(k as real, m), burst, rps, m, Repeated(0.0, k) + rest) ==
      Repeated(m, k) + Returns(Tank(0.0, m), burst, rps, m, rest)
  {
    if k == 0 {
      assert Repeated(0.0, 0) + rest == rest;
      assert Repeated(m, 0) + Returns(Tank(0.0, m), burst, rps, m, rest) == Returns(Tank(0.0, m), burst, rps, m, rest);
    } else {
      FirstRepeated(0.0, k - 1, rest);
      TakesHeld(k, burst, rps, m);
      OneMore(Tank(k as real, m), burst, rps, m, 0.0, Repeated(0.0, k - 1) + rest, Tank((k - 1) as real, m), 0.0);
      Drains(k - 1, burst, rps, m, rest);
      FirstRepeated(m, k - 1, Returns(Tank(0.0, m), burst, rps, m, rest));
    }
  }

  /** A sleep that ends when the whole burst has been earned ends with a grant, and finds
      the burst in the bucket. */
  lemma Oversleeps(b: nat, rps: Positive, m: real, at: real, rest: seq<real>)
    requires b >= 1 && at == m + Spell(b, rps)
    ensures Returns(Tank(0.0, m), b as real, rps, m, [Spell(b - 1, rps)] + (Repeated(0.0, b) + rest)) ==
      Repeated(at, b + 1) + Returns(Tank(0.0, at), b as real, rps, at, rest)
  {
    var burst, later := b as real, Returns(Tank(0.0, at), b as real, rps, at, rest);
    SpellEarns(b - 1, rps);
    TakesEmpty(burst, rps, m);
    OneMore(Tank(0.0, m), burst, rps, m, Spell(b - 1, rps), Repeated(0.0, b) + rest, Tank(0.0, m), Over(1.0, rps));
    FirstRepeated(0.0, b - 1, rest);
    TakesSlept(b, burst, rps, m, at);
    OneMore(Tank(0.0, m), burst, rps, at, 0.0, Repeated(0.0, b - 1) + rest, Tank((b - 1) as real, at), 0.0);
    Drains(b - 1, burst, rps, at, rest);
    FirstRepeated(at, b - 1, later);
    FirstRepeated(at, b, later);
  }

  /** From an empty bucket two calls return at the end of each spell. */
  lemma TwoASpell(burst: real, rps: Positive, m: real, rest: seq<real>)
    requires burst >= 1.0
    ensures Returns(Tank(0.0, m), burst, rps, m, [0.0] + ([0.0] + rest)) ==
      [m + Spell(1, rps)] + ([m + Spell(1, rps)] + Returns(Tank(0.0, m + Spell(1, rps)), burst, rps, m + Spell(1, rps), rest))
  {
    SpellEarns(1, rps);
    SpellEarns(0, rps);
    TakesEmpty(burst, rps, m);
    TakesSlept(1, burst, rps, m, m + Spell(1, rps));
    OneMore(Tank(0.0, m), burst, rps, m, 0.0, [0.0] + rest, Tank(0.0, m), Over(1.0, rps));
    OneMore(Tank(0.0, m), burst, rps, m + Spell(1, rps), 0.0, rest, Tank(0.0, m + Spell(1, rps)), 0.0);
  }

  lemma {:induction false} PairsEachSpell(burst: real, rps: Positive, m: real, n: nat)
    requires burst >= 1.0
    ensures forall i :: 0 <= i < 2 * n ==>
      m <= Returns(Tank(0.0, m), burst, rps, m, Repeated(0.0, 2 * n))[i] <= m + Spell(n, rps)
    decreases n
  {
    if n > 0 {
      var at, rest := m + Spell(1, rps), Repeated(0.0, 2 * (n - 1));
      assert Repeated(0.0, 2 * n) == [0.0] + ([0.0] + rest);
      TwoASpell(burst, rps, m, rest);
      PairsEachSpell(burst, rps, at, n - 1);
      SpellEarns(n - 1, rps);
      SpellEarns(0, rps);
      var later := Returns(Tank(0.0, at), burst, rps, at, rest);
      var all := [at] + ([at] + later);
      forall i | 0 <= i < 2 * n ensures m <= all[i] <= m + Spell(n, rps) {
        if i >= 2 {
          assert all[i] == later[i - 2];
        }
      }
    }
  }

  function GrantsAt(instants: seq<real>): seq<Grant> {
    if instants == [] then [] else GrantsAt(instants[..|instants| - 1]) + [Grant(instants[|instants| - 1], 1.0)]
  }

  lemma {:induction false} GrantedFrom(instants: seq<real>, k: nat, from: real, upTo: real)
    requires k <= |instants| && forall i :: 0 <= i < |instants| ==> (Inside(instants[i], from, upTo) <==> k <= i)
    ensures Granted(GrantsAt(instants), from, upTo) == (|instants| - k) as real
  {
    if instants != [] {
      var n := |instants| - 1;
      GrantedFrom(instants[..n], if k <= n then k else n, from, upTo);
      assert GrantsAt(instants)[..|GrantsAt(instants)| - 1] == GrantsAt(instants[..n]);
    }
  }

  /** Spend the burst, oversleep until it is earned again, then call back to back. */
  function Greedy(b: nat, rps: Positive, n: nat): seq<real>
    requires b >= 1
  {
    Repeated(0.0, b) + ([Spell(b - 1, rps)] + (Repeated(0.0, b) + Repeated(0.0, 2 * n)))
  }

  lemma GreedyReturns(b: nat, rps: Positive, n: nat, from: real, last: seq<real>)
    requires b >= 1 && from == Spell(b, rps)
    requires last == Returns(Tank(0.0, from), b as real, rps, from, Repeated(0.0, 2 * n))
    ensures Returns(Tank(b as real, 0.0), b as real, rps, 0.0, Greedy(b, rps, n)) ==
      Repeated(0.0, b) + (Repeated(from, b + 1) + last)
  {
    var pairs := Repeated(0.0, 2 * n);
    Drains(b, b as real, rps, 0.0, [Spell(b - 1, rps)] + (Repeated(0.0, b) + pairs));
    Oversleeps(b, rps, 0.0, from, pairs);
  }

  lemma AllFrom(b: nat, from: real, upTo: real, last: seq<real>)
    requires 0.0 < from <= upTo && forall i :: 0 <= i < |last| ==> Inside(last[i], from, upTo)
    ensures Granted(GrantsAt(Repeated(0.0, b) + (Repeated(from, b + 1) + last)), from, upTo) == (b + 1 + |last|) as real
  {
    var instants := Repeated(0.0, b) + (Repeated(from, b + 1) + last);
    forall i | 0 <= i < |instants| ensures Inside(instants[i], from, upTo) <==> b <= i {
      if i >= 2 * b + 1 {
        assert instants[i] == last[i - (2 * b + 1)];
      }
    }
    GrantedFrom(instants, b, from, upTo);
  }

  /** The bound is reached, for every burst of at least one, every rate and every number n
      of spells. */
  lemma BoundReached(b: nat, rps: Positive, n: nat, from: real, upTo: real)
    requires b >= 1 && from == Spell(b, rps) && upTo == from + Spell(n, rps)
    ensures Granted(GrantsAt(Returns(Tank(b as real, 0.0), b as real, rps, 0.0, Greedy(b, rps, n))), from, upTo)
      == b as real + 1.0 + 2.0 * Earned(rps, upTo - from)
  {
    var last := Returns(Tank(0.0, from), b as real, rps, from, Repeated(0.0, 2 * n));
    GreedyReturns(b, rps, n, from, last);
    PairsEachSpell(b as real, rps, from, n);
    SpellEarns(b - 1, rps);
    SpellEarns(n, rps);
    AllFrom(b, from, upTo, last);
    assert upTo - from == Spell(n, rps);
    assert (b + 1 + 2 * n) as real == b as real + 1.0 + 2.0 * n as real;
  }

  lemma TakesWithoutBurst(rps: Positive, before: real, now: real)
    requires before <= now
    ensures TakeOne(Tank(0.0, before), 0.0, rps, now) == (Tank(0.0, now), Over(1.0, rps))
  {
    Product(now - before, rps);
  }

  /** A burst of zero earns nothing while it sleeps: each grant is the time of a token
      after the one before, so that the bound is not reached. */
  lemma {:induction false} NoBurstSpaces(rps: Positive, before: real, now: real, lates: seq<real>, i: nat)
    requires before <= now && i < |lates| && forall j :: 0 <= j < |lates| ==> lates[j] >= 0.0
    ensures var instants := Returns(Tank(0.0, before), 0.0, rps, now, lates);
      instants[i] >= (if i == 0 then now else instants[i - 1]) + Over(1.0, rps)
    decreases i
  {
    TakesWithoutBurst(rps, before, now);
    OverPositive(rps, 1.0);
    if i > 0 {
      NoBurstSpaces(rps, now, now + Over(1.0, rps) + lates[0], lates[1..], i - 1);
    }
  }
}
