/** Grants over time against a burst and a rate. */
module Metering {

  datatype Grant = Grant(at: real, units: real)

  ghost function Total(log: seq<Grant>): real {
    if log == [] then 0.0 else Total(log[..|log| - 1]) + log[|log| - 1].units
  }

  predicate Inside(t: real, from: real, upTo: real) {
    from <= t <= upTo
  }

  /** Units granted at an instant t with from <= t <= upTo. */
  ghost function Granted(log: seq<Grant>, from: real, upTo: real): real {
    if log == [] then 0.0
    else
      var last := log[|log| - 1];
      Granted(log[..|log| - 1], from, upTo) + (if Inside(last.at, from, upTo) then last.units else 0.0)
  }

  ghost predicate Ascending(log: seq<Grant>) {
    && (forall i, j :: 0 <= i <= j < |log| ==> log[i].at <= log[j].at)
    && (forall i :: 0 <= i < |log| ==> log[i].units >= 0.0)
  }

  /** Grants i, ..., j - 1 exceed the burst by no more than the time between the first
      and the last. */
  ghost predicate RunMetered(log: seq<Grant>, burst: real, i: int, j: int)
    requires 0 <= i < j <= |log|
  {
    Total(log[..j]) - Total(log[..i]) <= burst + log[j - 1].at - log[i].at
  }

  ghost predicate Metered(log: seq<Grant>, burst: real) {
    forall i, j {:trigger RunMetered(log, burst, i, j)} :: 0 <= i < j <= |log| ==> RunMetered(log, burst, i, j)
  }

  /** What a bucket that holds `level` after the last grant still leaves room for. */
  ghost predicate Levelled(log: seq<Grant>, level: real, burst: real) {
    forall i :: 0 <= i < |log| ==> Total(log) - Total(log[..i]) + level <= burst + log[|log| - 1].at - log[i].at
  }

  ghost predicate IsRun(log: seq<Grant>, from: real, upTo: real, i: nat, j: nat) {
    i <= j <= |log| && forall k :: 0 <= k < |log| ==> (Inside(log[k].at, from, upTo) <==> i <= k < j)
  }

  /** The grants inside an interval are a run of the log ... */
  lemma {:induction false} IntervalIsRun(log: seq<Grant>, from: real, upTo: real) returns (i: nat, j: nat)
    requires Ascending(log)
    ensures IsRun(log, from, upTo, i, j)
  {
    if log == [] {
      i, j := 0, 0;
    } else {
      var n := |log| - 1;
      i, j := IntervalIsRun(log[..n], from, upTo);
      assert forall k :: 0 <= k < n ==> log[..n][k] == log[k];
      assert j < n ==> !Inside(log[j].at, from, upTo) && log[j].at <= log[n].at;
      assert i < j ==> Inside(log[j - 1].at, from, upTo) && log[j - 1].at <= log[n].at;
      assert 0 < j < n ==> log[j - 1].at <= log[j].at;
      if Inside(log[n].at, from, upTo) {
        if i == j {
          i := n;
        }
        j := n + 1;
      }
    }
  }

  /** ... and what they grant is a difference of totals. */
  lemma {:induction false} RunGrants(log: seq<Grant>, from: real, upTo: real, i: nat, j: nat)
    requires IsRun(log, from, upTo, i, j)
    ensures Granted(log, from, upTo) == Total(log[..j]) - Total(log[..i])
  {
    if log != [] {
      var n := |log| - 1;
      var before := log[..n];
      assert forall k :: 0 <= k < n ==> before[k] == log[k];
      assert log[..n + 1] == log;
      if i <= n {
        assert before[..i] == log[..i];
        if j <= n {
          assert before[..j] == log[..j];
          RunGrants(before, from, upTo, i, j);
        } else {
          assert before[..n] == before;
          RunGrants(before, from, upTo, i, n);
        }
      } else {
        RunGrants(before, from, upTo, n, n);
      }
      assert Inside(log[n].at, from, upTo) <==> i <= n < j;
    }
  }

  /** A metered log grants at most burst + T in any interval of length T. */
  lemma MeteredInterval(log: seq<Grant>, burst: real, from: real, upTo: real)
    requires Ascending(log) && Metered(log, burst) && burst >= 0.0 && from <= upTo
    ensures Granted(log, from, upTo) <= burst + upTo - from
  {
    var i, j := IntervalIsRun(log, from, upTo);
    if i < j {
      assert Inside(log[i].at, from, upTo) && Inside(log[j - 1].at, from, upTo);
      assert RunMetered(log, burst, i, j);
    }
    RunGrants(log, from, upTo, i, j);
  }

  lemma PrefixTotal(log: seq<Grant>, g: Grant, i: nat)
    requires i <= |log|
    ensures (log + [g])[..i] == log[..i] && Total(log + [g]) == Total(log) + g.units
  {
    assert (log + [g])[..|log|] == log;
  }

  /** One more grant keeps the level if the time since the last one pays for it. */
  lemma GrantKeepsLevel(log: seq<Grant>, level: real, g: Grant, level': real, burst: real)
    requires Levelled(log, level, burst) && level' + g.units <= burst
    requires log != [] ==> level' + g.units <= level + g.at - log[|log| - 1].at
    ensures Levelled(log + [g], level', burst)
  {
    var log', n := log + [g], |log|;
    forall i | 0 <= i <= n ensures Total(log') - Total(log'[..i]) + level' <= burst + g.at - log'[i].at {
      PrefixTotal(log, g, i);
      assert log[..n] == log;
    }
  }

  lemma OldRunMetered(log: seq<Grant>, g: Grant, burst: real, i: int, j: int)
    requires 0 <= i < j <= |log| && RunMetered(log, burst, i, j)
    ensures RunMetered(log + [g], burst, i, j)
  {
    assert (log + [g])[..i] == log[..i] && (log + [g])[..j] == log[..j];
  }

  lemma NewRunMetered(log: seq<Grant>, level: real, burst: real, i: int)
    requires 0 <= i < |log| && Levelled(log, level, burst) && level >= 0.0
    ensures RunMetered(log, burst, i, |log|)
  {
    assert log[..|log|] == log;
  }

  lemma GrantKeepsMetered(log: seq<Grant>, g: Grant, level': real, burst: real)
    requires Metered(log, burst) && Levelled(log + [g], level', burst) && level' >= 0.0
    ensures Metered(log + [g], burst)
  {
    forall i, j | 0 <= i < j <= |log| + 1 ensures RunMetered(log + [g], burst, i, j) {
      if j <= |log| {
        OldRunMetered(log, g, burst, i, j);
      } else {
        NewRunMetered(log + [g], level', burst, i);
      }
    }
  }

  lemma AscendingGrows(log: seq<Grant>, g: Grant)
    requires Ascending(log) && g.units >= 0.0 && (log != [] ==> log[|log| - 1].at <= g.at)
    ensures Ascending(log + [g])
  {
  }

  /** A log whose every run is within the burst, with room for `level`. */
  ghost predicate Paced(log: seq<Grant>, level: real, burst: real) {
    Ascending(log) && Metered(log, burst) && Levelled(log, level, burst)
  }

  lemma GrantKeepsPaced(log: seq<Grant>, level: real, g: Grant, level': real, burst: real)
    requires Paced(log, level, burst)
    requires g.units >= 0.0 && level' >= 0.0 && level' + g.units <= burst
    requires log != [] ==> log[|log| - 1].at <= g.at && level' + g.units <= level + g.at - log[|log| - 1].at
    ensures Paced(log + [g], level', burst)
  {
    GrantKeepsLevel(log, level, g, level', burst);
    GrantKeepsMetered(log, g, level', burst);
    AscendingGrows(log, g);
  }

  // ----- a rate -----

  /** Tokens that a rate yields in a time, or up to an instant. */
  ghost function Earned(rate: real, t: real): real {
    rate * t
  }

  lemma EarnedGrows(rate: real, t: real, u: real)
    requires rate >= 0.0 && t <= u
    ensures Earned(rate, u) - Earned(rate, t) == Earned(rate, u - t) >= 0.0
  {
    assert rate * (u - t) == rate * u - rate * t;
  }

  lemma EarnedStrictly(rate: real, t: real, u: real)
    requires rate > 0.0
    ensures t <= u <==> Earned(rate, t) <= Earned(rate, u)
  {
    if t <= u {
      EarnedGrows(rate, t, u);
    } else {
      var d := t - u;
      assert rate * d > 0.0;
      assert rate * d == rate * t - rate * u;
    }
  }

  /** The log with its instants measured in tokens earned. */
  ghost function InTokens(log: seq<Grant>, rate: real): (r: seq<Grant>)
    ensures |r| == |log|
  {
    if log == [] then []
    else
      var last := log[|log| - 1];
      InTokens(log[..|log| - 1], rate) + [Grant(Earned(rate, last.at), last.units)]
  }

  lemma InTokensGrows(log: seq<Grant>, g: Grant, rate: real)
    ensures InTokens(log + [g], rate) == InTokens(log, rate) + [Grant(Earned(rate, g.at), g.units)]
  {
    assert (log + [g])[..|log|] == log;
  }

  lemma {:induction false} GrantedInTokens(log: seq<Grant>, rate: real, from: real, upTo: real)
    requires rate > 0.0
    ensures Granted(log, from, upTo) == Granted(InTokens(log, rate), Earned(rate, from), Earned(rate, upTo))
  {
    if log != [] {
      var last := log[|log| - 1];
      GrantedInTokens(log[..|log| - 1], rate, from, upTo);
      EarnedStrictly(rate, from, last.at);
      EarnedStrictly(rate, last.at, upTo);
      assert InTokens(log, rate)[..|log| - 1] == InTokens(log[..|log| - 1], rate);
    }
  }

  /** A log paced in tokens grants, in any interval, at most its burst and what the rate
      earns in that time. */
  lemma PacedBounded(log: seq<Grant>, level: real, burst: real, rate: real, from: real, upTo: real)
    requires Paced(InTokens(log, rate), level, burst) && burst >= 0.0 && rate > 0.0 && from <= upTo
    ensures Granted(log, from, upTo) <= burst + Earned(rate, upTo - from)
  {
    GrantedInTokens(log, rate, from, upTo);
    EarnedGrows(rate, from, upTo);
    MeteredInterval(InTokens(log, rate), burst, Earned(rate, from), Earned(rate, upTo));
  }

  /** The grant g, in tokens, is paid for by the level and by what was earned since the
      last grant, which was at `at`. */
  lemma GrantKeepsPacedInTokens(log: seq<Grant>, level: real, at: real, g: Grant, level': real, burst: real, rate: real)
    requires Paced(InTokens(log, rate), level, burst) && (log != [] ==> log[|log| - 1].at == at)
    requires g.units >= 0.0 && level' >= 0.0 && level' + g.units <= burst
    requires Earned(rate, at) <= Earned(rate, g.at) && level' + g.units <= level + Earned(rate, g.at) - Earned(rate, at)
    ensures Paced(InTokens(log + [g], rate), level', burst)
  {
    InTokensGrows(log, g, rate);
    GrantKeepsPaced(InTokens(log, rate), level, Grant(Earned(rate, g.at), g.units), level', burst);
  }
}
