/** Logs of instants and how many of them a window can hold. */
module Windows {

  ghost predicate Ascending(log: seq<real>) {
    forall i, j :: 0 <= i <= j < |log| ==> log[i] <= log[j]
  }

  predicate Inside(t: real, after: real, upTo: real) {
    after < t <= upTo
  }

  /** Number of entries t with after < t <= upTo. */
  function CountIn(log: seq<real>, after: real, upTo: real): nat {
    if log == [] then 0
    else CountIn(log[..|log| - 1], after, upTo) + (if Inside(log[|log| - 1], after, upTo) then 1 else 0)
  }

  /** The entries that CountIn counts, as places in the log. */
  ghost function Places(log: seq<real>, after: real, upTo: real): set<int> {
    set k | 0 <= k < |log| && after < log[k] <= upTo
  }

  lemma {:induction false} CountsPlaces(log: seq<real>, after: real, upTo: real)
    ensures CountIn(log, after, upTo) == |Places(log, after, upTo)|
  {
    if log != [] {
      var n := |log| - 1;
      CountsPlaces(log[..n], after, upTo);
      PlacesGrow(log, n, after, upTo);
    }
  }

  lemma PlacesGrow(log: seq<real>, n: nat, after: real, upTo: real)
    requires |log| == n + 1
    ensures n !in Places(log[..n], after, upTo)
    ensures Places(log, after, upTo) == Places(log[..n], after, upTo) + (if after < log[n] <= upTo then {n} else {})
  {
  }

  /** Every entry comes at least `period` after the one n places before it. */
  ghost predicate Gapped(log: seq<real>, n: nat, period: real) {
    forall i, j :: 0 <= i && j == i + n && j < |log| ==> log[i] + period <= log[j]
  }

  /** The entries inside a window are a run, which CountIn measures. */
  lemma {:induction false} WindowIsRun(log: seq<real>, after: real, upTo: real) returns (lo: nat, hi: nat)
    requires Ascending(log)
    ensures lo <= hi <= |log| && CountIn(log, after, upTo) == hi - lo
    ensures forall k :: 0 <= k < |log| ==> (Inside(log[k], after, upTo) <==> lo <= k < hi)
  {
    if log == [] {
      lo, hi := 0, 0;
    } else {
      var n := |log| - 1;
      lo, hi := WindowIsRun(log[..n], after, upTo);
      assert forall k :: 0 <= k < n ==> log[..n][k] == log[k];
      assert hi < n ==> !Inside(log[hi], after, upTo) && log[hi] <= log[n];
      assert lo < hi ==> Inside(log[hi - 1], after, upTo) && log[hi - 1] <= log[n];
      assert 0 < hi < n ==> log[hi - 1] <= log[hi];
      if Inside(log[n], after, upTo) {
        if lo == hi {
          lo := n;
        }
        hi := n + 1;
      }
    }
  }

  /** A window no longer than the period holds at most n entries. */
  lemma GappedWindow(log: seq<real>, n: nat, period: real, after: real, upTo: real)
    requires Ascending(log) && Gapped(log, n, period) && upTo <= after + period
    ensures CountIn(log, after, upTo) <= n
  {
    var lo, hi := WindowIsRun(log, after, upTo);
    assert lo < |log| ==> (Inside(log[lo], after, upTo) <==> lo < hi);
    assert lo + n < |log| ==> (Inside(log[lo + n], after, upTo) <==> lo + n < hi);
  }

  /** If the last entries from i on are all inside, the window counts them. */
  lemma CountsTail(log: seq<real>, i: nat, after: real, upTo: real)
    requires Ascending(log) && i <= |log| && forall k :: i <= k < |log| ==> Inside(log[k], after, upTo)
    ensures CountIn(log, after, upTo) >= |log| - i
  {
    var lo, hi := WindowIsRun(log, after, upTo);
    if i < |log| {
      assert Inside(log[i], after, upTo) && Inside(log[|log| - 1], after, upTo);
    }
  }

  /** A window that starts after the first i entries and ends after them all counts
      the rest. */
  lemma CountsRest(log: seq<real>, i: nat, after: real, upTo: real)
    requires Ascending(log) && i <= |log|
    requires forall k :: 0 <= k < |log| ==> (Inside(log[k], after, upTo) <==> i <= k)
    ensures CountIn(log, after, upTo) == |log| - i
  {
    var lo, hi := WindowIsRun(log, after, upTo);
    assert lo < |log| ==> (Inside(log[lo], after, upTo) <==> i <= lo);
    assert i < |log| ==> Inside(log[i], after, upTo) && Inside(log[|log| - 1], after, upTo);
  }

  /** A window that starts no earlier than the first i entries counts at most the rest. */
  lemma CountsAtMost(log: seq<real>, i: nat, after: real, upTo: real)
    requires Ascending(log) && i <= |log| && forall k :: 0 <= k < i ==> log[k] <= after
    ensures CountIn(log, after, upTo) <= |log| - i
  {
    var lo, hi := WindowIsRun(log, after, upTo);
    assert lo < |log| ==> (Inside(log[lo], after, upTo) <==> lo < hi);
  }

  /** Adding an entry to a log whose window before it has fewer than n entries keeps
      the gaps. */
  lemma GappedGrows(log: seq<real>, n: nat, period: real, now: real)
    requires Ascending(log) && Gapped(log, n, period) && forall k :: 0 <= k < |log| ==> log[k] <= now
    requires CountIn(log, now - period, now) < n
    ensures Ascending(log + [now]) && Gapped(log + [now], n, period)
  {
    var i := |log| - n;
    if i >= 0 && log[i] + period > now {
      CountsTail(log, i, now - period, now);
    }
  }

  /** `window` is the log without a prefix of entries no later than `horizon`. */
  ghost predicate Tracks(window: seq<real>, log: seq<real>, horizon: real) {
    && |window| <= |log| && window == log[|log| - |window|..]
    && (forall k :: 0 <= k < |log| - |window| ==> log[k] <= horizon)
  }

  /** A pruned window has exactly the entries that the log has inside. */
  lemma PrunedCounts(window: seq<real>, log: seq<real>, after: real, upTo: real)
    requires Ascending(log) && Tracks(window, log, after)
    requires window != [] ==> after < window[0]
    requires forall k :: 0 <= k < |log| ==> log[k] <= upTo
    ensures CountIn(log, after, upTo) == |window|
  {
    var cut := |log| - |window|;
    assert window != [] ==> window[0] == log[cut];
    CountsRest(log, cut, after, upTo);
  }

  /** A window that pruning has kept true to its log, as of the instant `clock`. */
  ghost predicate Kept(window: seq<real>, log: seq<real>, period: real, clock: real) {
    Ascending(log) && Tracks(window, log, clock - period) && forall k :: 0 <= k < |log| ==> log[k] <= clock
  }

  /** Drop the entries no later than `cutoff` from the front of a deque that has lost none
      after `horizon`. */
  method Prune(window: seq<real>, cutoff: real, ghost horizon: real, ghost log: seq<real>) returns (r: seq<real>)
    requires Tracks(window, log, horizon) && cutoff <= horizon
    ensures Tracks(r, log, horizon) && (r != [] ==> cutoff < r[0])
    ensures |r| <= |window| && r == window[|window| - |r|..]
    ensures forall k :: 0 <= k < |window| - |r| ==> window[k] <= cutoff
  {
    r := window;
    while r != [] && r[0] <= cutoff
      invariant Tracks(r, log, horizon) && |r| <= |window| && r == window[|window| - |r|..]
      invariant forall k :: 0 <= k < |window| - |r| ==> window[k] <= cutoff
    {
      assert r[0] == log[|log| - |r|];
      r := r[1..];
    }
  }

  lemma KeptGrows(window: seq<real>, log: seq<real>, period: real, now: real)
    requires Kept(window, log, period, now)
    ensures Kept(window + [now], log + [now], period, now)
  {
    var cut := |log| - |window|;
    assert (log + [now])[cut..] == log[cut..] + [now];
  }

  /** A window pruned to `cutoff` has at least the entries that the log has after the
      horizon, and at most those that it has after the cutoff. */
  lemma PrunedBetween(window: seq<real>, log: seq<real>, cutoff: real, horizon: real, upTo: real)
    requires Ascending(log) && Tracks(window, log, horizon) && (window != [] ==> cutoff < window[0])
    requires forall k :: 0 <= k < |log| ==> log[k] <= upTo
    ensures CountIn(log, horizon, upTo) <= |window| <= CountIn(log, cutoff, upTo)
  {
    var cut := |log| - |window|;
    assert window != [] ==> window[0] == log[cut];
    CountsAtMost(log, cut, horizon, upTo);
    CountsTail(log, cut, cutoff, upTo);
  }
}
