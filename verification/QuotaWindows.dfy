/** Which quotas the shared log of source_agents/governor.py keeps, although every check
    drops the calls that are too old for the one who checks. */
module QuotaWindows {
  import opened Quotas
  import opened Windows

  /** The quota of one caller. */
  datatype Rule = Rule(limit: int, window: real)

  ghost predicate Conforms(calls: seq<Call>, rules: set<Rule>) {
    forall i :: 0 <= i < |calls| ==> Rule(calls[i].limit, calls[i].window) in rules
  }

  /** `most` is the largest of the limits, or zero if none is positive. */
  ghost predicate Largest(rules: set<Rule>, most: nat) {
    && (forall r :: r in rules ==> r.limit <= most && r.window > 0.0)
    && (most > 0 ==> exists r :: r in rules && r.limit == most)
  }

  ghost predicate SameWindow(rules: set<Rule>) {
    forall r, s :: r in rules && s in rules ==> r.window == s.window
  }

  ghost predicate Holds(ss: seq<Shared>, r: Rule, end: real, most: nat) {
    ss != [] ==> CountIn(ss[|ss| - 1].log, end - r.window, end) <= most
  }

  ghost predicate NeverOpen(calls: seq<Call>) {
    forall i :: 0 <= i < |calls| ==> !calls[i].open
  }

  /** On every run no caller's window holds more calls than the largest limit; `circuits`
      says whether circuits may be open on the run. */
  ghost predicate AllWindowsHold(rules: set<Rule>, most: nat, circuits: bool) {
    forall ss, calls, r, end {:trigger IsRun(ss, calls), Holds(ss, r, end, most)} ::
      IsRun(ss, calls) && Conforms(calls, rules) && (circuits || NeverOpen(calls)) && r in rules ==> Holds(ss, r, end, most)
  }

  lemma {:induction false} NeverAdmitted(ss: seq<Shared>, calls: seq<Call>, k: nat)
    requires IsRun(ss, calls) && k < |ss| && forall i :: 0 <= i < |calls| ==> calls[i].limit <= 0
    ensures ss[k].log == []
  {
    if k > 0 {
      NeverAdmitted(ss, calls, k - 1);
      assert ss[k] == Next(ss[k - 1], calls[k - 1]);
    }
  }

  lemma WindowHolds(rules: set<Rule>, most: nat, ss: seq<Shared>, calls: seq<Call>, r: Rule, end: real)
    requires Largest(rules, most) && (most == 0 || SameWindow(rules))
    requires IsRun(ss, calls) && Conforms(calls, rules) && r in rules
    ensures Holds(ss, r, end, most)
  {
    forall i | 0 <= i < |calls| ensures calls[i].limit <= most && (most > 0 ==> calls[i].window == r.window) {
      assert Rule(calls[i].limit, calls[i].window) in rules;
    }
    if most == 0 {
      NeverAdmitted(ss, calls, |calls|);
    } else {
      CallsBounded(ss, calls, most, r.window, |calls|, end);
    }
  }

  // ----- a run that overdraws -----

  function Zeros(n: nat): (s: seq<real>)
    ensures |s| == n && forall i :: 0 <= i < n ==> s[i] == 0.0
  {
    seq(n, _ => 0.0)
  }

  lemma {:induction false} RecentOfZeros(n: nat, cutoff: real)
    ensures Recent(Zeros(n), cutoff) == if cutoff < 0.0 then Zeros(n) else []
  {
    var m := RecentIsSuffix(Zeros(n), cutoff);
    if n > 0 {
      assert Zeros(n)[0] > cutoff <==> m == 0;
      assert Zeros(n)[n - 1] > cutoff <==> m <= n - 1;
    }
  }

  /** The largest limit's worth of calls, one check over a shorter window `quick` when
      they are that old, and one call more. */
  ghost function Calls(big: Rule, quick: Rule): seq<Call>
    requires big.limit >= 0
  {
    seq(big.limit, _ => Call(0.0, big.limit, big.window, false))
      + [Call(quick.window, quick.limit, quick.window, false), Call(quick.window, big.limit, big.window, false)]
  }

  ghost function States(big: Rule, quick: Rule): seq<Shared>
    requires big.limit >= 0
  {
    var n := big.limit;
    var full := Shared(Zeros(n), Zeros(n));
    var checked := Next(full, Call(quick.window, quick.limit, quick.window, false));
    seq(n + 1, i requires 0 <= i <= n => Shared(Zeros(i), Zeros(i)))
      + [checked, Next(checked, Call(quick.window, big.limit, big.window, false))]
  }

  lemma EarlyCall(big: Rule, i: nat)
    requires i < big.limit && big.window > 0.0
    ensures Next(Shared(Zeros(i), Zeros(i)), Call(0.0, big.limit, big.window, false)) == Shared(Zeros(i + 1), Zeros(i + 1))
  {
    RecentOfZeros(i, 0.0 - big.window);
    assert Zeros(i) + [0.0] == Zeros(i + 1);
  }

  lemma OverdrawingRun(big: Rule, quick: Rule)
    requires big.limit > 0 && big.window > 0.0 && quick.window > 0.0
    ensures IsRun(States(big, quick), Calls(big, quick))
  {
    var ss, calls, n := States(big, quick), Calls(big, quick), big.limit;
    assert ss[0] == Shared(Zeros(0), Zeros(0)) && Zeros(0) == [];
    forall i | 0 <= i < |calls| ensures ss[i + 1] == Next(ss[i], calls[i]) {
      if i < n {
        EarlyCall(big, i);
      }
    }
  }

  /** Whether or not the check itself is admitted, one call more is. */
  lemma OneMore(big: Rule, quick: Rule)
    requires big.limit > 0 && quick.window > 0.0
    ensures var log := States(big, quick)[|Calls(big, quick)|].log;
      log == Zeros(big.limit) + [quick.window] || log == Zeros(big.limit) + [quick.window, quick.window]
  {
    var n, q := big.limit, quick.window;
    RecentOfZeros(n, q - quick.window);
    var checked := Next(Shared(Zeros(n), Zeros(n)), Call(q, quick.limit, quick.window, false));
    assert checked == if 0 < quick.limit then Shared([q], Zeros(n) + [q]) else Shared([], Zeros(n));
    assert Zeros(n) + [q] + [q] == Zeros(n) + [q, q];
  }

  lemma Overdraws(big: Rule, quick: Rule, slow: Rule)
    requires big.limit > 0 && 0.0 < quick.window < slow.window
    ensures var log := States(big, quick)[|Calls(big, quick)|].log; var end := quick.window;
      CountIn(log, end - slow.window, end) > big.limit
  {
    OneMore(big, quick);
    CountsTail(States(big, quick)[|Calls(big, quick)|].log, 0, quick.window - slow.window, quick.window);
  }

  /** The log that checks prune for all keeps every caller's quota, to the largest limit,
      if and only if all callers have one window, or none is ever admitted; and so it is
      where no circuit ever opens. */
  lemma WindowsHoldIff(rules: set<Rule>, most: nat, circuits: bool)
    requires Largest(rules, most)
    ensures AllWindowsHold(rules, most, circuits) <==> most == 0 || SameWindow(rules)
  {
    if most == 0 || SameWindow(rules) {
      forall ss, calls, r, end {:trigger IsRun(ss, calls), Holds(ss, r, end, most)} |
          IsRun(ss, calls) && Conforms(calls, rules) && (circuits || NeverOpen(calls)) && r in rules
        ensures Holds(ss, r, end, most)
      {
        WindowHolds(rules, most, ss, calls, r, end);
      }
    } else {
      var quick, slow :| quick in rules && slow in rules && quick.window < slow.window;
      var big :| big in rules && big.limit == most;
      OverdrawingRun(big, quick);
      Overdraws(big, quick, slow);
      var ss, calls := States(big, quick), Calls(big, quick);
      assert Conforms(calls, rules) && NeverOpen(calls) && !Holds(ss, slow, quick.window, most);
    }
  }
}
