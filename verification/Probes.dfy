/** What the circuit breaker of integrations/base.py lets through after its recovery time. */
module Probes {
  import opened Breaker
  import opened Wrappers

  function Fails(at: real, n: nat): (log: seq<Event>)
    ensures |log| == n && forall i :: 0 <= i < n ==> log[i] == Event(at, true)
  {
    seq(n, _ => Event(at, true))
  }

  /** The state n failures after closing, all at one instant. */
  function After(n: nat, threshold: int, at: real): State {
    State(n, if n == Most(threshold) then Some(at) else None)
  }

  function Failing(at: real, n: nat): (attempts: seq<Attempt>)
    ensures |attempts| == n && forall i :: 0 <= i < n ==> attempts[i] == Attempt(at, at, Failure)
  {
    seq(n, _ => Attempt(at, at, Failure))
  }

  /** Enough failures to open the circuit, as many when it has recovered, and one more. */
  function Attempts(threshold: int, recovery: real): seq<Attempt> {
    Failing(0.0, Most(threshold)) + Failing(recovery, Most(threshold) + 1)
  }

  function Watches(threshold: int, recovery: real): (ws: seq<Watch>)
    ensures |ws| == 2 * Most(threshold) + 2
  {
    var n := Most(threshold);
    var last := Watch(After(n, threshold, recovery), Fails(0.0, n) + Fails(recovery, n), recovery);
    seq(n + 1, i requires 0 <= i <= n => Watch(After(i, threshold, 0.0), Fails(0.0, i), 0.0))
      + seq(n, i requires 0 <= i < n =>
          Watch(After(i + 1, threshold, recovery), Fails(0.0, n) + Fails(recovery, i + 1), recovery))
      + [last]
  }

  /** One more failure at the instant of the others. */
  lemma FailsMore(before: seq<Event>, i: nat, threshold: int, recovery: real, at: real)
    requires i < Most(threshold)
    ensures Next(Watch(After(i, threshold, at), before + Fails(at, i), at), Attempt(at, at, Failure), threshold, recovery)
      == Watch(After(i + 1, threshold, at), before + Fails(at, i + 1), at)
  {
    assert before + Fails(at, i) + [Event(at, true)] == before + Fails(at, i + 1);
  }

  /** Once recovered, the open circuit lets a failure through as if none had gone before. */
  lemma FailsRecovered(threshold: int, recovery: real)
    requires recovery > 0.0
    ensures Next(Watch(After(Most(threshold), threshold, 0.0), Fails(0.0, Most(threshold)), 0.0),
                 Attempt(recovery, recovery, Failure), threshold, recovery)
      == Watch(After(1, threshold, recovery), Fails(0.0, Most(threshold)) + Fails(recovery, 1), recovery)
  {
    assert [Event(recovery, true)] == Fails(recovery, 1);
  }

  lemma RunsOn(threshold: int, recovery: real, i: nat)
    requires recovery > 0.0 && i <= 2 * Most(threshold)
    ensures Watches(threshold, recovery)[i + 1] ==
      Next(Watches(threshold, recovery)[i], Attempts(threshold, recovery)[i], threshold, recovery)
  {
    var n := Most(threshold);
    if i < n {
      FailsMore([], i, threshold, recovery, 0.0);
      assert [] + Fails(0.0, i) == Fails(0.0, i) && [] + Fails(0.0, i + 1) == Fails(0.0, i + 1);
    } else if i == n {
      FailsRecovered(threshold, recovery);
    } else if i < 2 * n {
      FailsMore(Fails(0.0, n), i - n, threshold, recovery, recovery);
    }
  }

  /** After the recovery time not one probe but the whole threshold of failures is let
      through, all at one instant, before the next is refused: so many fit in a stretch. */
  lemma ThresholdLetThrough(threshold: int, recovery: real)
    requires recovery > 0.0
    ensures var ws, attempts, n := Watches(threshold, recovery), Attempts(threshold, recovery), Most(threshold);
      && IsRun(ws, attempts, threshold, recovery)
      && ws[n].state.openedAt.Some? && ws[2 * n].log == Fails(0.0, n) + Fails(recovery, n)
      && (forall i :: n <= i < 2 * n ==> !Refuses(ws[i].state, recovery, attempts[i].asked))
      && Refuses(ws[2 * n].state, recovery, attempts[2 * n].asked)
  {
    var ws, attempts, n := Watches(threshold, recovery), Attempts(threshold, recovery), Most(threshold);
    forall i | 0 <= i < |attempts| ensures ws[i + 1] == Next(ws[i], attempts[i], threshold, recovery) {
      RunsOn(threshold, recovery, i);
    }
    assert ws[0].log == [];
  }

  /** After attempt i failed as the first since the recovery time, the next one is refused
      for as long again. */
  ghost predicate ProbesOnce(ws: seq<Watch>, attempts: seq<Attempt>, recovery: real, i: nat)
    requires i + 1 < |attempts| < |ws|
  {
    && ws[i].state.openedAt.Some? && !Refuses(ws[i].state, recovery, attempts[i].asked)
    && attempts[i].verdict == Failure && attempts[i + 1].asked - attempts[i].answered < recovery
    ==> Refuses(ws[i + 1].state, recovery, attempts[i + 1].asked)
  }

  ghost predicate AlwaysProbesOnce(threshold: int, recovery: real) {
    forall ws: seq<Watch>, attempts: seq<Attempt>, i: nat
        {:trigger IsRun(ws, attempts, threshold, recovery), ProbesOnce(ws, attempts, recovery, i)} ::
      IsRun(ws, attempts, threshold, recovery) && i + 1 < |attempts| ==> ProbesOnce(ws, attempts, recovery, i)
  }

  /** The recovery is by one probe on every run if and only if the threshold is one or
      less, or there is no recovery time. */
  lemma ProbesOnceIff(threshold: int, recovery: real)
    ensures AlwaysProbesOnce(threshold, recovery) <==> threshold <= 1 || recovery <= 0.0
  {
    if threshold <= 1 || recovery <= 0.0 {
      forall ws: seq<Watch>, attempts: seq<Attempt>, i: nat
          {:trigger IsRun(ws, attempts, threshold, recovery), ProbesOnce(ws, attempts, recovery, i)} |
          IsRun(ws, attempts, threshold, recovery) && i + 1 < |attempts|
        ensures ProbesOnce(ws, attempts, recovery, i)
      {
        assert ws[i + 1] == Next(ws[i], attempts[i], threshold, recovery);
        assert ws[i + 1].clock <= attempts[i + 1].asked;
      }
    } else {
      var ws, attempts, n := Watches(threshold, recovery), Attempts(threshold, recovery), Most(threshold);
      ThresholdLetThrough(threshold, recovery);
      assert !ProbesOnce(ws, attempts, recovery, n);
    }
  }
}
