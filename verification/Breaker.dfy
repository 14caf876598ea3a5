/** The circuit breaker of integrations/base.py. */
module Breaker {
  import opened Wrappers

  /** A recorded failure or success. */
  datatype Event = Event(at: real, failed: bool)

  datatype State = State(failures: int, openedAt: Option<real>)

  const CLOSED := State(0, None)

  predicate Refuses(s: State, recovery: real, now: real) {
    s.openedAt.Some? && now - s.openedAt.value < recovery
  }

  /** Once the recovery time has passed, asking closes the circuit. */
  function Asked(s: State, recovery: real, now: real): State {
    if s.openedAt.Some? && !Refuses(s, recovery, now) then CLOSED else s
  }

  function Failed(s: State, threshold: int, now: real): State {
    var failures := s.failures + 1;
    State(failures, if failures >= threshold then Some(now) else s.openedAt)
  }

  class CircuitBreaker {
    const threshold: int
    const recovery: real
    var failures: int
    var openedAt: Option<real>

    function Snapshot(): State
      reads this
    {
      State(failures, openedAt)
    }

    constructor (threshold: int, recovery: real)
      ensures this.threshold == threshold && this.recovery == recovery && Snapshot() == CLOSED
    {
      this.threshold, this.recovery, failures, openedAt := threshold, recovery, 0, None;
    }

    method BeforeRequest(now: real) returns (allowed: bool)
      modifies this
      ensures allowed == !Refuses(old(Snapshot()), recovery, now)
      ensures !allowed <==> old(openedAt).Some? && now - old(openedAt.value) < recovery
      ensures (failures, openedAt) == if allowed && old(openedAt).Some? then (0, None) else old((failures, openedAt))
      ensures Snapshot() == Asked(old(Snapshot()), recovery, now)
    {
      allowed := true;
      if openedAt.None? {
        return;
      }
      if now - openedAt.value >= recovery {
        openedAt, failures := None, 0;
        return;
      }
      allowed := false;
    }

    method Success()
      modifies this
      ensures Snapshot() == CLOSED && failures == 0 && openedAt == None
    {
      failures, openedAt := 0, None;
    }

    method Failure(now: real)
      modifies this
      ensures Snapshot() == Failed(old(Snapshot()), threshold, now)
      ensures failures == old(failures) + 1
      ensures openedAt == if old(failures) + 1 < threshold then old(openedAt) else Some(now)
    {
      failures := failures + 1;
      if failures >= threshold {
        openedAt := Some(now);
      }
    }
  }

  // ----- what the breaker lets through -----

  /** A threshold below one acts as one. */
  function Most(threshold: int): nat {
    if threshold < 1 then 1 else threshold
  }

  ghost predicate AllFailed(log: seq<Event>, i: nat, j: nat)
    requires i <= j <= |log|
  {
    forall k :: i <= k < j ==> log[k].failed
  }

  ghost predicate Ordered(log: seq<Event>, clock: real) {
    && (forall i, j :: 0 <= i <= j < |log| ==> log[i].at <= log[j].at)
    && (forall i :: 0 <= i < |log| ==> log[i].at <= clock)
  }

  /** Of n + 1 failures with no success between them, the last is at least the recovery
      time after the first. */
  ghost predicate Guarded(log: seq<Event>, n: nat, recovery: real) {
    forall i: nat {:trigger AllFailed(log, i, i + n + 1)} :: i + n < |log| && AllFailed(log, i, i + n + 1) ==>
      log[i].at + recovery <= log[i + n].at
  }

  /** The state counts the last failures of the log; what failed before them, with no
      success in between, is a recovery time ago. */
  ghost predicate Watched(s: State, log: seq<Event>, n: nat, recovery: real, clock: real) {
    && Ordered(log, clock) && Guarded(log, n, recovery)
    && 0 <= s.failures <= |log| && AllFailed(log, |log| - s.failures, |log|)
    && (s.openedAt.Some? ==> log != [] && s.openedAt.value == log[|log| - 1].at)
    && (s.openedAt.None? ==> s.failures < n && Forgotten(log, |log| - s.failures - 1, recovery, clock))
  }

  ghost predicate Forgotten(log: seq<Event>, k: int, recovery: real, clock: real)
    requires k < |log|
  {
    k >= 0 && log[k].failed ==> log[k].at + recovery <= clock
  }

  lemma AskingKeepsWatch(s: State, log: seq<Event>, n: nat, recovery: real, clock: real, now: real)
    requires Watched(s, log, n, recovery, clock) && clock <= now && n >= 1
    ensures Watched(Asked(s, recovery, now), log, n, recovery, now)
  {
  }

  lemma SuccessKeepsWatch(s: State, log: seq<Event>, n: nat, recovery: real, clock: real, now: real)
    requires Watched(s, log, n, recovery, clock) && clock <= now && n >= 1
    ensures Watched(CLOSED, log + [Event(now, false)], n, recovery, now)
  {
    GuardedGrows(log, Event(now, false), n, recovery);
  }

  lemma GuardedGrows(log: seq<Event>, e: Event, n: nat, recovery: real)
    requires Guarded(log, n, recovery)
    requires e.failed && |log| >= n && AllFailed(log, |log| - n, |log|) ==>
      n > 0 && log[|log| - n].at + recovery <= e.at
    requires e.failed ==> n > 0
    ensures Guarded(log + [e], n, recovery)
  {
    var log' := log + [e];
    forall i: nat | i + n < |log'| && AllFailed(log', i, i + n + 1) ensures log'[i].at + recovery <= log'[i + n].at {
      if i + n < |log| {
        assert forall k :: i <= k < i + n + 1 ==> log[k] == log'[k];
        assert AllFailed(log, i, i + n + 1);
      } else {
        assert log'[|log|].failed;
        assert forall k :: i <= k < |log| ==> log[k] == log'[k];
        assert AllFailed(log, |log| - n, |log|);
      }
    }
  }

  /** A failure is only recorded after the circuit was found closed. */
  lemma FailureKeepsWatch(s: State, log: seq<Event>, threshold: int, recovery: real, clock: real, now: real)
    requires Watched(s, log, Most(threshold), recovery, clock) && clock <= now && s.openedAt.None?
    ensures Watched(Failed(s, threshold, now), log + [Event(now, true)], Most(threshold), recovery, now)
  {
    var n, k := Most(threshold), |log| - s.failures - 1;
    if |log| >= n && AllFailed(log, |log| - n, |log|) {
      assert log[k].failed && log[|log| - n].at <= log[k].at;
    }
    GuardedGrows(log, Event(now, true), n, recovery);
  }

  /** A run of failures that is shorter than the recovery time, without a success, holds
      at most the threshold. */
  lemma FailuresBounded(log: seq<Event>, n: nat, recovery: real, clock: real, i: nat, j: nat)
    requires Ordered(log, clock) && Guarded(log, n, recovery)
    requires i < j <= |log| && AllFailed(log, i, j) && log[j - 1].at - log[i].at < recovery
    ensures j - i <= n
  {
    if j - i > n {
      assert AllFailed(log, i, i + n + 1);
    }
  }

  // ----- runs -----

  datatype Verdict = Failure | Success | Neither

  /** One attempt: asked at `asked`, and if let through, answered at `answered`. */
  datatype Attempt = Attempt(asked: real, answered: real, verdict: Verdict)

  datatype Watch = Watch(state: State, log: seq<Event>, clock: real)

  function Next(w: Watch, a: Attempt, threshold: int, recovery: real): Watch {
    var s := Asked(w.state, recovery, a.asked);
    if Refuses(w.state, recovery, a.asked) then Watch(s, w.log, a.asked)
    else
      match a.verdict
      case Neither => Watch(s, w.log, a.answered)
      case Success => Watch(CLOSED, w.log + [Event(a.answered, false)], a.answered)
      case Failure => Watch(Failed(s, threshold, a.answered), w.log + [Event(a.answered, true)], a.answered)
  }

  ghost predicate WellWatched(w: Watch, threshold: int, recovery: real) {
    Watched(w.state, w.log, Most(threshold), recovery, w.clock)
  }

  lemma NextKeepsWatch(w: Watch, a: Attempt, threshold: int, recovery: real)
    requires WellWatched(w, threshold, recovery) && w.clock <= a.asked <= a.answered
    ensures WellWatched(Next(w, a, threshold, recovery), threshold, recovery)
  {
    var n, s := Most(threshold), Asked(w.state, recovery, a.asked);
    AskingKeepsWatch(w.state, w.log, n, recovery, w.clock, a.asked);
    if !Refuses(w.state, recovery, a.asked) {
      match a.verdict
      case Neither =>
      case Success => SuccessKeepsWatch(s, w.log, n, recovery, a.asked, a.answered);
      case Failure => FailureKeepsWatch(s, w.log, threshold, recovery, a.asked, a.answered);
    }
  }

  /** ws are the breaker and its history before and after each of the attempts. */
  ghost predicate IsRun(ws: seq<Watch>, attempts: seq<Attempt>, threshold: int, recovery: real) {
    && |ws| == |attempts| + 1 && ws[0].state == CLOSED && ws[0].log == []
    && (forall i :: 0 <= i < |attempts| ==>
          && ws[i].clock <= attempts[i].asked <= attempts[i].answered
          && ws[i + 1] == Next(ws[i], attempts[i], threshold, recovery))
  }

  lemma {:induction false} RunWatched(ws: seq<Watch>, attempts: seq<Attempt>, threshold: int, recovery: real, k: nat)
    requires IsRun(ws, attempts, threshold, recovery) && k < |ws|
    ensures WellWatched(ws[k], threshold, recovery)
  {
    if k > 0 {
      RunWatched(ws, attempts, threshold, recovery, k - 1);
      NextKeepsWatch(ws[k - 1], attempts[k - 1], threshold, recovery);
    }
  }

  /** On every run of attempts one after another: a stretch of failures shorter than the
      recovery time, without a success, holds at most the threshold. */
  lemma RunFailuresBounded(ws: seq<Watch>, attempts: seq<Attempt>, threshold: int, recovery: real, k: nat, i: nat,
                           j: nat)
    requires IsRun(ws, attempts, threshold, recovery) && k < |ws|
    requires i < j <= |ws[k].log| && AllFailed(ws[k].log, i, j)
    requires ws[k].log[j - 1].at - ws[k].log[i].at < recovery
    ensures j - i <= Most(threshold)
  {
    RunWatched(ws, attempts, threshold, recovery, k);
    FailuresBounded(ws[k].log, Most(threshold), recovery, ws[k].clock, i, j);
  }
}
