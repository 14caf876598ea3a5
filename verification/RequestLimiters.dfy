/** The two request limiters of api/app.py. */
module RequestLimiters {
  import Quotas
  import opened Windows

  datatype Call = Call(limit: int, now: real)

  /** The rule both limiters serve: a request is admitted if fewer than `limit` were
      admitted in the `seconds` before it. */
  function Admit(log: seq<real>, c: Call, seconds: real): seq<real> {
    if CountIn(log, c.now - seconds, c.now) < c.limit then log + [c.now] else log
  }

  /** All admissions, for ever remembered, of a run of calls under one key. */
  function Admissions(calls: seq<Call>, seconds: real): seq<real> {
    if calls == [] then [] else Admit(Admissions(calls[..|calls| - 1], seconds), calls[|calls| - 1], seconds)
  }

  /** Calls in clock order, none asking for more than `most`. */
  ghost predicate Proper(calls: seq<Call>, most: nat) {
    && (forall i :: 0 <= i < |calls| ==> calls[i].limit <= most)
    && (forall i, j :: 0 <= i <= j < |calls| ==> calls[i].now <= calls[j].now)
  }

  /** An admission log that respects the limit, none of it after `now`. */
  ghost predicate Spaced(log: seq<real>, seconds: real, most: nat, now: real) {
    Ascending(log) && Gapped(log, most, seconds) && forall k :: 0 <= k < |log| ==> log[k] <= now
  }

  lemma AdmitKeepsSpaced(log: seq<real>, c: Call, seconds: real, most: nat)
    requires Spaced(log, seconds, most, c.now) && c.limit <= most
    ensures Spaced(Admit(log, c, seconds), seconds, most, c.now)
  {
    if CountIn(log, c.now - seconds, c.now) < c.limit {
      GappedGrows(log, most, seconds, c.now);
    }
  }

  lemma SpacedLater(log: seq<real>, seconds: real, most: nat, now: real, later: real)
    requires Spaced(log, seconds, most, now) && now <= later
    ensures Spaced(log, seconds, most, later)
  {
  }

  lemma {:induction false} AdmissionsSpaced(calls: seq<Call>, seconds: real, most: nat, now: real)
    requires Proper(calls, most) && (calls != [] ==> calls[|calls| - 1].now <= now)
    ensures Spaced(Admissions(calls, seconds), seconds, most, now)
  {
    if calls != [] {
      var before, last := calls[..|calls| - 1], calls[|calls| - 1];
      AdmissionsSpaced(before, seconds, most, last.now);
      AdmitKeepsSpaced(Admissions(before, seconds), last, seconds, most);
      SpacedLater(Admissions(calls, seconds), seconds, most, last.now, now);
    }
  }

  lemma SpacedBounded(log: seq<real>, seconds: real, most: nat, now: real, end: real)
    requires Spaced(log, seconds, most, now)
    ensures CountIn(log, end - seconds, end) <= most
  {
    GappedWindow(log, most, seconds, end - seconds, end);
  }

  /** No window of the limiter's length ever holds more admissions than the largest
      limit asked for under the key. */
  lemma AdmissionsBounded(calls: seq<Call>, seconds: real, most: nat, end: real)
    requires Proper(calls, most)
    ensures CountIn(Admissions(calls, seconds), end - seconds, end) <= most
  {
    var now := if calls == [] then 0.0 else calls[|calls| - 1].now;
    AdmissionsSpaced(calls, seconds, most, now);
    SpacedBounded(Admissions(calls, seconds), seconds, most, now, end);
  }

  /** A call, and the deque and the log of all admissions before and after it. */
  ghost predicate Steps(window: seq<real>, log: seq<real>, limit: int, seconds: real, now: real, window': seq<real>,
                        log': seq<real>) {
    Quotas.Shared(window', log') == Quotas.Next(Quotas.Shared(window, log), Quotas.Call(now, limit, seconds, false))
  }

  /** Admitted are those whom the whole log over `seconds` would admit, and none whom it
      would not over `shortest`. */
  ghost predicate Answers(log: seq<real>, limit: int, seconds: real, shortest: real, now: real, allowed: bool) {
    (CountIn(log, now - seconds, now) < limit ==> allowed) && (allowed ==> CountIn(log, now - shortest, now) < limit)
  }

  function Appended(log: seq<real>, allowed: bool, now: real): seq<real> {
    if allowed then log + [now] else log
  }

  /** With the shortest window in use the answer is the rule's, and so is the log after it. */
  lemma AnswersAdmit(log: seq<real>, limit: int, seconds: real, now: real, allowed: bool)
    requires Answers(log, limit, seconds, seconds, now, allowed)
    ensures allowed <==> |Places(log, now - seconds, now)| < limit
    ensures Appended(log, allowed, now) == Admit(log, Call(limit, now), seconds)
  {
    CountsPlaces(log, now - seconds, now);
  }

  lemma TracksAscending(window: seq<real>, log: seq<real>, period: real, clock: real)
    requires Kept(window, log, period, clock)
    ensures Ascending(window)
  {
  }

  /** What pruning to `seconds` leaves of the deque. */
  ghost predicate PrunedTo(window: seq<real>, cutoff: real, r: seq<real>) {
    && |r| <= |window| && r == window[|window| - |r|..] && (r != [] ==> cutoff < r[0])
    && (forall k :: 0 <= k < |window| - |r| ==> window[k] <= cutoff)
  }

  /** Popping what is too old from the front of a deque in order is what the comprehension
      of the shared log does. */
  lemma PrunedIsRecent(window: seq<real>, cutoff: real, r: seq<real>)
    requires Ascending(window) && PrunedTo(window, cutoff, r)
    ensures r == Quotas.Recent(window, cutoff)
  {
    var m := Quotas.RecentIsSuffix(window, cutoff);
    var cut := |window| - |r|;
    assert m < |window| ==> window[m] > cutoff;
    assert cut < |window| ==> window[cut] == r[0];
  }

  lemma ConsumeSteps(window: seq<real>, log: seq<real>, limit: int, seconds: real, now: real, r: seq<real>)
    requires Ascending(window) && PrunedTo(window, now - seconds, r)
    ensures Steps(window, log, limit, seconds, now, Appended(r, |r| < limit, now), Appended(log, |r| < limit, now))
  {
    PrunedIsRecent(window, now - seconds, r);
  }

  lemma ConsumeAnswers(log: seq<real>, limit: int, seconds: real, shortest: real, now: real, r: seq<real>)
    requires Kept(r, log, shortest, now) && (r != [] ==> now - seconds < r[0])
    ensures Answers(log, limit, seconds, shortest, now, |r| < limit)
    ensures Kept(Appended(r, |r| < limit, now), Appended(log, |r| < limit, now), shortest, now)
    ensures shortest == seconds ==> |r| == CountIn(log, now - seconds, now)
  {
    PrunedBetween(r, log, now - seconds, now - shortest, now);
    KeptGrows(r, log, shortest, now);
  }

  /** Admit one request against a deque that calls of `shortest` and more have pruned. */
  method Consume(window: seq<real>, limit: int, seconds: real, now: real, ghost log: seq<real>, ghost shortest: real)
    returns (allowed: bool, remaining: int, window': seq<real>)
    requires Kept(window, log, shortest, now) && shortest <= seconds
    ensures Answers(log, limit, seconds, shortest, now, allowed)
    ensures Steps(window, log, limit, seconds, now, window', Appended(log, allowed, now))
    ensures Kept(window', Appended(log, allowed, now), shortest, now)
    ensures remaining == if allowed then limit - |window'| else 0
    ensures shortest == seconds && allowed ==> |window'| == CountIn(log, now - seconds, now) + 1
  {
    ghost var horizon := now - shortest;
    window' := Prune(window, now - seconds, horizon, log);
    TracksAscending(window, log, shortest, now);
    ConsumeSteps(window, log, limit, seconds, now, window');
    ConsumeAnswers(log, limit, seconds, shortest, now, window');
    allowed, remaining := |window'| < limit, 0;
    if allowed {
      window' := window' + [now];
      remaining := limit - |window'|;
    }
  }

  datatype Key = Key(text: string)

  function At(m: map<Key, seq<real>>, key: Key): seq<real> {
    if key in m then m[key] else []
  }

  ghost predicate AllKept(windows: map<Key, seq<real>>, logs: map<Key, seq<real>>, seconds: real, clock: real) {
    forall key {:trigger At(logs, key)} :: Kept(At(windows, key), At(logs, key), seconds, clock)
  }

  lemma KeptLater(window: seq<real>, log: seq<real>, period: real, clock: real, now: real)
    requires Kept(window, log, period, clock) && clock <= now
    ensures Kept(window, log, period, now)
  {
  }

  lemma UpdateKeeps(windows: map<Key, seq<real>>, logs: map<Key, seq<real>>, seconds: real, clock: real,
                    key: Key, window: seq<real>, log: seq<real>, now: real)
    requires AllKept(windows, logs, seconds, clock) && clock <= now && Kept(window, log, seconds, now)
    ensures AllKept(windows[key := window], logs[key := log], seconds, now)
  {
    forall other {:trigger At(logs[key := log], other)}
      ensures Kept(At(windows[key := window], other), At(logs[key := log], other), seconds, now)
    {
      assert Kept(At(windows, other), At(logs, other), seconds, clock);
    }
  }

  /** Deques of admission times, pruned from the front.  No call asks for less than
      `shortest`; `logs` is the history, never pruned. */
  class SlidingWindowLimiter {
    ghost const shortest: real
    var windows: map<Key, seq<real>>
    ghost var logs: map<Key, seq<real>>
    ghost var clock: real

    ghost predicate Valid()
      reads this
    {
      AllKept(windows, logs, shortest, clock)
    }

    constructor (ghost shortest: real, ghost start: real)
      ensures Valid() && clock == start && this.shortest == shortest && windows == map[] && logs == map[]
    {
      windows := map[];
      this.shortest, logs, clock := shortest, map[], start;
    }

    /** Admits whom the whole history over `seconds` would, and nobody whom it would not
        over `shortest`; the state steps as a shared log does. */
    method Allow(key: Key, limit: int, seconds: real, now: real) returns (allowed: bool, remaining: int)
      requires Valid() && clock <= now && shortest <= seconds
      modifies this
      ensures Valid() && clock == now
      ensures Answers(old(At(logs, key)), limit, seconds, shortest, now, allowed)
      ensures Steps(old(At(windows, key)), old(At(logs, key)), limit, seconds, now, At(windows, key), At(logs, key))
      ensures logs == old(logs)[key := Appended(old(At(logs, key)), allowed, now)]
      ensures windows == old(windows)[key := At(windows, key)]
      ensures seconds == shortest && allowed ==> remaining == limit - 1 - CountIn(old(At(logs, key)), now - seconds, now)
      ensures remaining == if allowed then limit - |At(windows, key)| else 0
    {
      ghost var log := At(logs, key);
      var window := At(windows, key);
      assert Kept(window, log, shortest, clock);
      KeptLater(window, log, shortest, clock, now);
      var window';
      allowed, remaining, window' := Consume(window, limit, seconds, now, log, shortest);
      ghost var log' := Appended(log, allowed, now);
      UpdateKeeps(windows, logs, shortest, clock, key, window', log', now);
      windows, logs, clock := windows[key := window'], logs[key := log'], now;
    }
  }
}
