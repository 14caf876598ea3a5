/** The limiter that sleeps while holding its lock (`LocalRateLimiter` in
    integrations/base.py). */
module LocalLimiter {
  import opened Basics
  import opened Windows

  /** The first instant from `now` on that is a period after the grant n places before. */
  function Earliest(log: seq<real>, n: nat, period: real, now: real): real {
    if n == 0 || |log| < n then now else Greater(now, log[|log| - n] + period)
  }

  /** A call: the clock on entry, and how late the clock is read after the wait. */
  datatype Call = Call(now: real, late: real)

  function Grant(log: seq<real>, n: nat, period: real, c: Call): seq<real> {
    log + [Earliest(log, n, period, c.now) + c.late]
  }

  function Grants(calls: seq<Call>, n: nat, period: real): seq<real> {
    if calls == [] then [] else Grant(Grants(calls[..|calls| - 1], n, period), n, period, calls[|calls| - 1])
  }

  /** The lock serialises the calls: each starts after the stamp of the one before. */
  ghost predicate Serial(calls: seq<Call>, n: nat, period: real) {
    forall i :: 0 <= i < |calls| ==> calls[i].late >= 0.0 && NotBefore(Grants(calls[..i], n, period), calls[i].now)
  }

  ghost predicate NotBefore(log: seq<real>, now: real) {
    forall k :: 0 <= k < |log| ==> log[k] <= now
  }

  ghost predicate Spaced(log: seq<real>, n: nat, period: real) {
    Ascending(log) && Gapped(log, n, period)
  }

  lemma GrantKeepsSpaced(log: seq<real>, n: nat, period: real, c: Call)
    requires n >= 1 && Spaced(log, n, period) && NotBefore(log, c.now) && c.late >= 0.0
    ensures Spaced(Grant(log, n, period, c), n, period)
  {
  }

  lemma {:induction false} GrantsSpaced(calls: seq<Call>, n: nat, period: real)
    requires n >= 1 && Serial(calls, n, period)
    ensures Spaced(Grants(calls, n, period), n, period)
  {
    if calls != [] {
      var k := |calls| - 1;
      var before := calls[..k];
      forall i | 0 <= i < k ensures before[i].late >= 0.0 && NotBefore(Grants(before[..i], n, period), before[i].now) {
        assert before[..i] == calls[..i];
      }
      GrantsSpaced(before, n, period);
      GrantKeepsSpaced(Grants(before, n, period), n, period, calls[k]);
    }
  }

  /** Over any run, a grant comes a period after the one n places before it, so no
      half-open period holds more than n. */
  lemma GrantsBounded(calls: seq<Call>, n: nat, period: real, end: real)
    requires n >= 1 && Serial(calls, n, period)
    ensures |Grants(calls, n, period)| == |calls| && Gapped(Grants(calls, n, period), n, period)
    ensures CountIn(Grants(calls, n, period), end - period, end) <= n
  {
    GrantsSpaced(calls, n, period);
    GrantsLength(calls, n, period);
    GappedWindow(Grants(calls, n, period), n, period, end - period, end);
  }

  lemma {:induction false} GrantsLength(calls: seq<Call>, n: nat, period: real)
    ensures |Grants(calls, n, period)| == |calls|
  {
    if calls != [] {
      GrantsLength(calls[..|calls| - 1], n, period);
    }
  }

  /** The deque may hold one stamp too many, but only one that the next pruning drops. */
  ghost predicate Bounded(window: seq<real>, n: nat, period: real, clock: real) {
    |window| <= n || (|window| == n + 1 && window[0] + period <= clock)
  }

  /** What the pruned deque says about the whole log. */
  lemma PrunedIsRecent(window: seq<real>, r: seq<real>, log: seq<real>, n: nat, period: real, clock: real, now: real)
    requires Kept(window, log, period, clock) && Bounded(window, n, period, clock) && clock <= now
    requires Tracks(r, log, now - period) && (r != [] ==> now - period < r[0]) && |r| <= |window|
    ensures |r| <= n
    ensures n >= 1 && |r| < n ==> Earliest(log, n, period, now) == now
    ensures n >= 1 && |r| == n ==> Earliest(log, n, period, now) == r[0] + period > now
  {
  }

  /** There is room at `at`, at once unless the last `n` stamps are less than a period old,
      and else when the first of them is. */
  ghost predicate Frees(log: seq<real>, n: nat, period: real, now: real, at: real) {
    if |log| < n || n == 0 || log[|log| - n] + period <= now then at == now else at == log[|log| - n] + period
  }

  lemma EarliestFrees(log: seq<real>, n: nat, period: real, now: real)
    ensures Frees(log, n, period, now, Earliest(log, n, period, now))
  {
  }

  class LocalRateLimiter {
    const requests: int
    const period: real
    var timestamps: seq<real>
    ghost var log: seq<real>
    ghost var clock: real

    ghost predicate Valid()
      reads this
    {
      && Kept(timestamps, log, period, clock)
      && (if requests >= 1 then Bounded(timestamps, requests, period, clock) else log == [])
    }

    constructor (requests: int, period: real, start: real)
      ensures Valid() && this.requests == requests && this.period == period && log == [] && clock == start
    {
      this.requests, this.period, timestamps, log, clock := requests, period, [], [], start;
    }

    /** Entered at `now`; the stamp is read `late` after the wait, which is never short.
        A limit below one makes the empty deque's head an error. */
    method Acquire(now: real, late: real) returns (acquired: bool, stamp: real)
      requires Valid() && clock <= now && late >= 0.0
      modifies this
      ensures Valid() && clock == stamp
      ensures acquired <==> requests >= 1
      ensures acquired ==> stamp == Earliest(old(log), requests, period, now) + late && log == old(log) + [stamp]
      ensures acquired ==> Frees(old(log), requests, period, now, stamp - late)
      ensures !acquired ==> log == old(log) && stamp == now
    {
      ghost var before := timestamps;
      timestamps := Prune(timestamps, now - period, now - period, log);
      stamp, acquired := now, requests >= 1;
      if requests >= 1 {
        PrunedIsRecent(before, timestamps, log, requests, period, clock, now);
      }
      if |timestamps| >= requests {
        if timestamps == [] {
          clock := now;
          return;
        }
        stamp := stamp + (period - (now - timestamps[0]));
      }
      EarliestFrees(log, requests, period, now);
      stamp := stamp + late;
      Appended(timestamps, log, period, now, stamp);
      timestamps, log, clock := timestamps + [stamp], log + [stamp], stamp;
    }
  }

  /** Stamping without pruning again keeps the deque true to its log. */
  lemma Appended(window: seq<real>, log: seq<real>, period: real, now: real, stamp: real)
    requires Kept(window, log, period, now) && now <= stamp
    ensures Kept(window + [stamp], log + [stamp], period, stamp)
  {
    KeptGrows(window, log, period, stamp);
  }
}
