/** `RedisWindowLimiter` of api/app.py: one counter per key and bucket of time. */
module FixedWindowLimiter {
  import opened RequestLimiters
  import opened Windows

  type Period = s: real | s > 0.0 witness 1.0

  function Bucket(now: real, seconds: Period): int {
    (now / seconds).Floor
  }

  /** The instant at which bucket b begins. */
  function Edge(b: int, seconds: Period): real {
    b as real * seconds
  }

  lemma EdgeNext(b: int, seconds: Period)
    ensures Edge(b + 1, seconds) == Edge(b, seconds) + seconds
  {
    assert (b + 1) as real == b as real + 1.0;
  }

  lemma EdgesAscend(b: int, c: int, seconds: Period)
    requires b <= c
    ensures Edge(b, seconds) <= Edge(c, seconds)
    decreases c - b
  {
    if b < c {
      EdgeNext(b, seconds);
      EdgesAscend(b + 1, c, seconds);
    }
  }

  lemma Product(x: real, k: real)
    requires k > 0.0
    ensures x > 0.0 <==> x * k > 0.0
  {
  }

  /** A product with a positive factor keeps strict order. */
  lemma Scale(x: real, y: real, k: real)
    requires k > 0.0
    ensures x < y <==> x * k < y * k
  {
    var d := y - x;
    Product(d, k);
    assert d * k == y * k - x * k;
  }

  lemma Quotient(now: real, seconds: Period)
    ensures (now / seconds) * seconds == now
  {
  }

  lemma BucketBounds(now: real, seconds: Period)
    ensures Edge(Bucket(now, seconds), seconds) <= now < Edge(Bucket(now, seconds) + 1, seconds)
  {
    var q: real, b := now / seconds, Bucket(now, seconds);
    var lo, hi := b as real, (b + 1) as real;
    Quotient(now, seconds);
    assert lo <= q < hi;
    Scale(q, lo, seconds);
    Scale(q, hi, seconds);
    assert lo * seconds <= q * seconds < hi * seconds;
    assert q * seconds == now;
    assert now < hi * seconds;
  }

  lemma BucketAscends(t: real, u: real, seconds: Period)
    requires t <= u
    ensures Bucket(t, seconds) <= Bucket(u, seconds)
  {
    BucketBounds(t, seconds);
    BucketBounds(u, seconds);
    var b, c := Bucket(t, seconds), Bucket(u, seconds);
    if c < b {
      EdgesAscend(c + 1, b, seconds);
    }
  }

  /** An instant less than one period before another is at most one bucket before it. */
  lemma BucketBefore(t: real, u: real, seconds: Period)
    requires u - seconds < t <= u
    ensures Bucket(u, seconds) - 1 <= Bucket(t, seconds) <= Bucket(u, seconds)
  {
    BucketAscends(t, u, seconds);
    BucketBounds(t, seconds);
    BucketBounds(u, seconds);
    var b, c := Bucket(t, seconds), Bucket(u, seconds);
    EdgeNext(b + 1, seconds);
    if b < c - 1 {
      EdgesAscend(b + 2, c, seconds);
    }
  }

  /** How many of the calls, admitted or not, fell in bucket b. */
  function Attempts(calls: seq<Call>, b: int, seconds: Period): nat {
    if calls == [] then 0
    else Attempts(calls[..|calls| - 1], b, seconds) + (if Bucket(calls[|calls| - 1].now, seconds) == b then 1 else 0)
  }

  /** The calls that fall in bucket b, from b periods to b + 1, as places in the history. */
  ghost function PlacesIn(calls: seq<Call>, b: int, seconds: Period): set<int> {
    set k | 0 <= k < |calls| && b as real * seconds <= calls[k].now < (b + 1) as real * seconds
  }

  lemma InBucketIff(now: real, b: int, seconds: Period)
    ensures Bucket(now, seconds) == b <==> b as real * seconds <= now < (b + 1) as real * seconds
  {
    BucketBounds(now, seconds);
    var c := Bucket(now, seconds);
    if b < c {
      EdgesAscend(b + 1, c, seconds);
    } else if c < b {
      EdgesAscend(c + 1, b, seconds);
    }
  }

  lemma {:induction false} AttemptsPlaces(calls: seq<Call>, b: int, seconds: Period)
    ensures Attempts(calls, b, seconds) == |PlacesIn(calls, b, seconds)|
  {
    if calls != [] {
      var n := |calls| - 1;
      var before, last := PlacesIn(calls[..n], b, seconds), calls[n].now;
      AttemptsPlaces(calls[..n], b, seconds);
      InBucketIff(last, b, seconds);
      assert PlacesIn(calls, b, seconds) == before + (if Bucket(last, seconds) == b then {n} else {});
    }
  }

  /** The rule the counters serve: a call is admitted if it is among the first
      `limit` calls of its bucket. */
  function FixedAdmissions(calls: seq<Call>, seconds: Period): seq<real> {
    if calls == [] then []
    else
      var before, c := calls[..|calls| - 1], calls[|calls| - 1];
      FixedAdmissions(before, seconds) +
        if Attempts(before, Bucket(c.now, seconds), seconds) < c.limit then [c.now] else []
  }

  lemma AdmissionsGrow(calls: seq<Call>, c: Call, seconds: Period)
    ensures FixedAdmissions(calls + [c], seconds) == FixedAdmissions(calls, seconds) +
      if Attempts(calls, Bucket(c.now, seconds), seconds) < c.limit then [c.now] else []
  {
    assert (calls + [c])[..|calls|] == calls;
  }

  ghost function AdmittedIn(log: seq<real>, b: int, seconds: Period): nat {
    if log == [] then 0
    else AdmittedIn(log[..|log| - 1], b, seconds) + (if Bucket(log[|log| - 1], seconds) == b then 1 else 0)
  }

  lemma AdmittedInGrows(log: seq<real>, t: real, b: int, seconds: Period)
    ensures AdmittedIn(log + [t], b, seconds) == AdmittedIn(log, b, seconds) + if Bucket(t, seconds) == b then 1 else 0
  {
    assert (log + [t])[..|log|] == log;
  }

  lemma {:induction false} BucketBounded(calls: seq<Call>, b: int, seconds: Period, most: nat)
    requires forall i :: 0 <= i < |calls| ==> calls[i].limit <= most
    ensures AdmittedIn(FixedAdmissions(calls, seconds), b, seconds) <= Attempts(calls, b, seconds)
    ensures AdmittedIn(FixedAdmissions(calls, seconds), b, seconds) <= most
  {
    if calls != [] {
      var before, c := calls[..|calls| - 1], calls[|calls| - 1];
      BucketBounded(before, b, seconds, most);
      var log := FixedAdmissions(before, seconds);
      AdmittedInGrows(log, c.now, b, seconds);
      assert log + [] == log;
      assert FixedAdmissions(calls, seconds) ==
        if Attempts(before, Bucket(c.now, seconds), seconds) < c.limit then log + [c.now] else log;
    }
  }

  lemma {:induction false} WindowInTwoBuckets(log: seq<real>, end: real, seconds: Period)
    ensures var b := Bucket(end, seconds);
      CountIn(log, end - seconds, end) <= AdmittedIn(log, b - 1, seconds) + AdmittedIn(log, b, seconds)
  {
    if log != [] {
      WindowInTwoBuckets(log[..|log| - 1], end, seconds);
      var t := log[|log| - 1];
      if Inside(t, end - seconds, end) {
        BucketBefore(t, end, seconds);
      }
    }
  }

  /** Any window of the limiter's length holds at most twice the largest limit. */
  lemma FixedBounded(calls: seq<Call>, seconds: Period, most: nat, end: real)
    requires forall i :: 0 <= i < |calls| ==> calls[i].limit <= most
    ensures CountIn(FixedAdmissions(calls, seconds), end - seconds, end) <= 2 * most
  {
    var log, b := FixedAdmissions(calls, seconds), Bucket(end, seconds);
    WindowInTwoBuckets(log, end, seconds);
    BucketBounded(calls, b - 1, seconds, most);
    BucketBounded(calls, b, seconds, most);
  }

  // ----- twice the limit -----

  function Repeated<T>(x: T, n: nat): (s: seq<T>)
    ensures |s| == n && forall i :: 0 <= i < n ==> s[i] == x
  {
    seq(n, _ => x)
  }

  lemma RepeatedStep<T>(s: seq<T>, x: T, n: nat)
    ensures (s + Repeated(x, n + 1))[..|s| + n] == s + Repeated(x, n)
    ensures s + Repeated(x, n) + [x] == s + Repeated(x, n + 1)
  {
  }

  /** After `before`, the first calls of a new bucket are admitted up to their limit. */
  lemma {:induction false} Fills(before: seq<Call>, c: Call, n: nat, seconds: Period, b: int)
    requires b == Bucket(c.now, seconds) && Attempts(before, b, seconds) == 0 && n <= c.limit
    ensures FixedAdmissions(before + Repeated(c, n), seconds) == FixedAdmissions(before, seconds) + Repeated(c.now, n)
    ensures forall other ::
      Attempts(before + Repeated(c, n), other, seconds) == Attempts(before, other, seconds) + (if other == b then n else 0)
  {
    if n == 0 {
      assert before + Repeated(c, 0) == before;
    } else {
      Fills(before, c, n - 1, seconds, b);
      RepeatedStep(before, c, n - 1);
      RepeatedStep(FixedAdmissions(before, seconds), c.now, n - 1);
      assert (before + Repeated(c, n))[|before| + n - 1] == c;
    }
  }

  lemma AcrossTheEdge(seconds: Period)
    ensures Bucket(seconds / 2.0, seconds) == 0 && Bucket(seconds, seconds) == 1
    ensures 0.0 < seconds / 2.0 < seconds
  {
    var half := seconds / 2.0;
    Quotient(half, seconds);
    Scale(half / seconds, 1.0, seconds);
    Product(half / seconds, seconds);
    Quotient(seconds, seconds);
  }

  /** The limit's worth of calls either side of a bucket's edge. */
  function Straddling(n: nat, seconds: Period): seq<Call> {
    Repeated(Call(n, seconds / 2.0), n) + Repeated(Call(n, seconds), n)
  }

  lemma FillsFirst(c: Call, n: nat, seconds: Period, b: int)
    requires b == Bucket(c.now, seconds) && n <= c.limit
    ensures FixedAdmissions(Repeated(c, n), seconds) == Repeated(c.now, n)
    ensures forall other :: Attempts(Repeated(c, n), other, seconds) == if other == b then n else 0
  {
    Fills([], c, n, seconds, b);
    assert [] + Repeated(c, n) == Repeated(c, n);
    assert [] + Repeated(c.now, n) == Repeated(c.now, n);
  }

  lemma AllInside(n: nat, early: real, late: real, seconds: real)
    requires 0.0 < early <= late == seconds
    ensures CountIn(Repeated(early, n) + Repeated(late, n), seconds - seconds, seconds) == 2 * n
  {
    CountsRest(Repeated(early, n) + Repeated(late, n), 0, 0.0, seconds);
  }

  /** Twice the limit is reached, whatever the limit and the period. */
  lemma TwiceTheLimit(n: nat, seconds: Period)
    ensures CountIn(FixedAdmissions(Straddling(n, seconds), seconds), seconds - seconds, seconds) == 2 * n
  {
    var early, late := Call(n, seconds / 2.0), Call(n, seconds);
    AcrossTheEdge(seconds);
    FillsFirst(early, n, seconds, 0);
    Fills(Repeated(early, n), late, n, seconds, 1);
    AllInside(n, early.now, late.now, seconds);
  }

  ghost predicate Holds(calls: seq<Call>, seconds: Period, end: real, bound: nat) {
    CountIn(FixedAdmissions(calls, seconds), end - seconds, end) <= bound
  }

  /** On every run of calls that ask for at most n, no window holds more than `bound`. */
  ghost predicate AlwaysHolds(n: nat, seconds: Period, bound: nat) {
    forall calls: seq<Call>, end: real {:trigger Holds(calls, seconds, end, bound)} ::
      (forall i :: 0 <= i < |calls| ==> calls[i].limit <= n) ==> Holds(calls, seconds, end, bound)
  }

  /** So a bound holds on every run if and only if it is at least twice the limit. */
  lemma HoldsIffTwice(n: nat, seconds: Period, bound: nat)
    ensures AlwaysHolds(n, seconds, bound) <==> 2 * n <= bound
  {
    if 2 * n <= bound {
      forall calls: seq<Call>, end: real {:trigger Holds(calls, seconds, end, bound)} |
          forall i :: 0 <= i < |calls| ==> calls[i].limit <= n
        ensures Holds(calls, seconds, end, bound)
      {
        FixedBounded(calls, seconds, n, end);
      }
    } else {
      TwiceTheLimit(n, seconds);
      assert !Holds(Straddling(n, seconds), seconds, seconds, bound);
    }
  }

  // ----- the counters -----

  datatype Slot = Slot(key: Key, bucket: int)

  datatype Counter = Counter(count: nat, expiry: real)

  function Tally(attempts: map<Slot, nat>, slot: Slot): nat {
    if slot in attempts then attempts[slot] else 0
  }

  /** The counter of a bucket that has not passed is its number of calls, and does not
      expire before the bucket ends. */
  ghost predicate Counts(counters: map<Slot, Counter>, attempts: map<Slot, nat>, slot: Slot, current: int,
                         edge: int -> real) {
    if slot !in attempts then slot !in counters
    else slot.bucket >= current ==>
      slot in counters && counters[slot].count == attempts[slot] && edge(slot.bucket + 1) <= counters[slot].expiry
  }

  ghost predicate AllCounted(counters: map<Slot, Counter>, attempts: map<Slot, nat>, current: int, edge: int -> real) {
    forall slot :: Counts(counters, attempts, slot, current, edge)
  }

  lemma CallCounted(counters: map<Slot, Counter>, attempts: map<Slot, nat>, current: int, edge: int -> real,
                    slot: Slot, counter: Counter)
    requires AllCounted(counters, attempts, current, edge) && current <= slot.bucket
    requires counter.count == Tally(attempts, slot) + 1 && edge(slot.bucket + 1) <= counter.expiry
    ensures AllCounted(counters[slot := counter], attempts[slot := counter.count], slot.bucket, edge)
  {
    var counters', attempts' := counters[slot := counter], attempts[slot := counter.count];
    forall s ensures Counts(counters', attempts', s, slot.bucket, edge) {
      assert Counts(counters, attempts, s, current, edge);
    }
  }

  ghost function Calls(history: map<Key, seq<Call>>, key: Key): seq<Call> {
    if key in history then history[key] else []
  }

  /** The tally is the number of calls in each bucket. */
  ghost predicate Tallied(attempts: map<Slot, nat>, history: map<Key, seq<Call>>, seconds: Period) {
    forall key, b {:trigger Slot(key, b)} :: Tally(attempts, Slot(key, b)) == Attempts(Calls(history, key), b, seconds)
  }

  lemma AttemptsGrows(calls: seq<Call>, c: Call, b: int, seconds: Period)
    ensures Attempts(calls + [c], b, seconds) == Attempts(calls, b, seconds) + if Bucket(c.now, seconds) == b then 1 else 0
  {
    assert (calls + [c])[..|calls|] == calls;
  }

  lemma CallTallied(attempts: map<Slot, nat>, history: map<Key, seq<Call>>, seconds: Period, key: Key, c: Call,
                    slot: Slot)
    requires Tallied(attempts, history, seconds) && slot == Slot(key, Bucket(c.now, seconds))
    ensures Tallied(attempts[slot := Tally(attempts, slot) + 1], history[key := Calls(history, key) + [c]], seconds)
  {
    var attempts', history' := attempts[slot := Tally(attempts, slot) + 1], history[key := Calls(history, key) + [c]];
    forall k, b {:trigger Slot(k, b)} ensures Tally(attempts', Slot(k, b)) == Attempts(Calls(history', k), b, seconds) {
      assert Tally(attempts, Slot(k, b)) == Attempts(Calls(history, k), b, seconds);
      AttemptsGrows(Calls(history, k), c, b, seconds);
    }
  }

  ghost function Edges(seconds: Period): int -> real {
    (b: int) => Edge(b, seconds)
  }

  /** Counters that Redis drops at their expiry; `history` is every call ever made. */
  class RedisWindowLimiter {
    const seconds: Period
    var counters: map<Slot, Counter>
    ghost var attempts: map<Slot, nat>
    ghost var history: map<Key, seq<Call>>
    ghost var clock: real

    ghost predicate Valid()
      reads this
    {
      AllCounted(counters, attempts, Bucket(clock, seconds), Edges(seconds)) && Tallied(attempts, history, seconds)
    }

    constructor (seconds: Period, start: real)
      ensures Valid() && clock == start && this.seconds == seconds && history == map[]
    {
      this.seconds, counters, history, clock := seconds, map[], map[], start;
      attempts := map[];
    }

    /** INCR and EXPIRE as one transaction; no count is lost to the expiry. */
    method Allow(key: Key, limit: int, now: real) returns (allowed: bool, remaining: int)
      requires Valid() && clock <= now
      modifies this
      ensures Valid() && clock == now
      ensures history == old(history)[key := Calls(old(history), key) + [Call(limit, now)]]
      ensures var count := Attempts(Calls(old(history), key), Bucket(now, seconds), seconds) + 1;
        allowed == (count <= limit) && remaining == if count <= limit then limit - count else 0
      ensures FixedAdmissions(Calls(history, key), seconds) ==
        FixedAdmissions(Calls(old(history), key), seconds) + if allowed then [now] else []
    {
      var slot := Slot(key, Bucket(now, seconds));
      AdmissionsGrow(Calls(history, key), Call(limit, now), seconds);
      BucketAscends(clock, now, seconds);
      SlotLive(now, seconds);
      assert Counts(counters, attempts, slot, Bucket(clock, seconds), Edges(seconds));
      var held := if slot in counters && now < counters[slot].expiry then counters[slot].count else 0;
      var counter := Counter(held + 1, now + seconds + 1.0);
      CallCounted(counters, attempts, Bucket(clock, seconds), Edges(seconds), slot, counter);
      CallTallied(attempts, history, seconds, key, Call(limit, now), slot);
      counters, attempts := counters[slot := counter], attempts[slot := counter.count];
      history := history[key := Calls(history, key) + [Call(limit, now)]];
      clock := now;
      allowed := counter.count <= limit;
      remaining := if limit - counter.count > 0 then limit - counter.count else 0;
    }
  }

  /** A bucket ends after any of its instants and within a period of each. */
  lemma SlotLive(now: real, seconds: Period)
    ensures var edge := Edges(seconds)(Bucket(now, seconds) + 1); now < edge <= now + seconds
  {
    BucketBounds(now, seconds);
    EdgeNext(Bucket(now, seconds), seconds);
  }
}
