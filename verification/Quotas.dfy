/** The log of calls to one API that all agents share (`APIQuotaTracker` in
    source_agents/governor.py). */
module Quotas {
  import opened Windows

  /** `[t for t in usage if t > cutoff]` */
  function Recent(usage: seq<real>, cutoff: real): seq<real> {
    if usage == [] then []
    else (if usage[0] > cutoff then [usage[0]] else []) + Recent(usage[1..], cutoff)
  }

  /** Of calls in order, the recent ones are a suffix. */
  lemma {:induction false} RecentIsSuffix(usage: seq<real>, cutoff: real) returns (m: nat)
    requires Ascending(usage)
    ensures m <= |usage| && Recent(usage, cutoff) == usage[m..]
    ensures forall k :: 0 <= k < |usage| ==> (usage[k] > cutoff <==> m <= k)
  {
    if usage == [] {
      m := 0;
    } else {
      m := RecentIsSuffix(usage[1..], cutoff);
      assert forall k :: 0 < k < |usage| ==> usage[k] == usage[1..][k - 1];
      if usage[0] > cutoff {
        assert |usage| > 1 ==> usage[1] > cutoff;
        assert [usage[0]] + usage[1..] == usage;
      } else {
        assert usage[m + 1..] == usage[1..][m..];
        m := m + 1;
      }
    }
  }

  /** A call with a quota: whoever makes it, the check prunes the shared log. */
  datatype Call = Call(now: real, limit: int, window: real, open: bool)

  /** The shared log and the calls admitted so far. */
  datatype Shared = Shared(usage: seq<real>, log: seq<real>)

  predicate Admits(usage: seq<real>, c: Call) {
    |Recent(usage, c.now - c.window)| < c.limit && !c.open
  }

  function Next(s: Shared, c: Call): Shared {
    var recent := Recent(s.usage, c.now - c.window);
    if Admits(s.usage, c) then Shared(recent + [c.now], s.log + [c.now]) else Shared(recent, s.log)
  }

  /** The shared log has kept the calls that a window still needs, and no window holds
      more than `most`. */
  ghost predicate Sound(s: Shared, most: nat, window: real, clock: real) {
    Kept(s.usage, s.log, window, clock) && Gapped(s.log, most, window)
  }

  lemma SoundLater(s: Shared, most: nat, window: real, clock: real, now: real)
    requires Sound(s, most, window, clock) && clock <= now
    ensures Sound(s, most, window, now)
  {
  }

  /** Dropping calls from before the horizon keeps the log tracked. */
  lemma RecentTracks(usage: seq<real>, log: seq<real>, cutoff: real, horizon: real, recent: seq<real>)
    requires Ascending(log) && Tracks(usage, log, horizon) && cutoff <= horizon && recent == Recent(usage, cutoff)
    ensures Tracks(recent, log, horizon) && (recent != [] ==> cutoff < recent[0])
  {
    var cut := |log| - |usage|;
    var m := RecentIsSuffix(usage, cutoff);
    assert recent == log[cut + m..];
    forall k | 0 <= k < cut + m ensures log[k] <= horizon {
      if k >= cut {
        assert log[k] == usage[k - cut];
      }
    }
  }

  /** A check over a window of at least `shortest` finds every call of that time ... */
  lemma RecentCovers(usage: seq<real>, log: seq<real>, shortest: real, window: real, now: real, recent: seq<real>)
    requires Kept(usage, log, shortest, now) && shortest <= window && recent == Recent(usage, now - window)
    ensures Kept(recent, log, shortest, now) && CountIn(log, now - shortest, now) <= |recent|
  {
    RecentTracks(usage, log, now - window, now - shortest, recent);
    CountsAtMost(log, |log| - |recent|, now - shortest, now);
  }

  /** ... and one over just `shortest` finds no others. */
  lemma RecentCounts(usage: seq<real>, log: seq<real>, window: real, now: real, recent: seq<real>)
    requires Kept(usage, log, window, now) && recent == Recent(usage, now - window)
    ensures |recent| == CountIn(log, now - window, now)
  {
    RecentTracks(usage, log, now - window, now - window, recent);
    PrunedCounts(recent, log, now - window, now);
  }

  lemma AdmittedKeeps(recent: seq<real>, log: seq<real>, most: nat, shortest: real, now: real)
    requires Kept(recent, log, shortest, now) && Gapped(log, most, shortest) && CountIn(log, now - shortest, now) < most
    ensures Sound(Shared(recent + [now], log + [now]), most, shortest, now)
  {
    KeptGrows(recent, log, shortest, now);
    GappedGrows(log, most, shortest, now);
  }

  lemma PrunedIsSound(s: Shared, most: nat, shortest: real, window: real, now: real, recent: seq<real>)
    requires Sound(s, most, shortest, now) && shortest <= window && recent == Recent(s.usage, now - window)
    ensures Sound(Shared(recent, s.log), most, shortest, now) && CountIn(s.log, now - shortest, now) <= |recent|
  {
    RecentCovers(s.usage, s.log, shortest, window, now, recent);
  }

  lemma GrownIsSound(s: Shared, most: nat, shortest: real, now: real)
    requires Sound(s, most, shortest, now) && CountIn(s.log, now - shortest, now) <= |s.usage| < most
    ensures Sound(Shared(s.usage + [now], s.log + [now]), most, shortest, now)
  {
    AdmittedKeeps(s.usage, s.log, most, shortest, now);
  }

  lemma NextKeepsSound(s: Shared, c: Call, most: nat, shortest: real, clock: real, recent: seq<real>, s': Shared)
    requires Sound(s, most, shortest, clock) && clock <= c.now && c.limit <= most && shortest <= c.window
    requires recent == Recent(s.usage, c.now - c.window) && s' == Next(s, c)
    ensures Sound(s', most, shortest, c.now)
  {
    var pruned := Shared(recent, s.log);
    SoundLater(s, most, shortest, clock, c.now);
    PrunedIsSound(s, most, shortest, c.window, c.now, recent);
    if s' != pruned {
      GrownIsSound(pruned, most, shortest, c.now);
    }
  }

  // ----- runs -----

  /** ss are the shared log before and after each of the calls. */
  ghost predicate IsRun(ss: seq<Shared>, calls: seq<Call>) {
    && |ss| == |calls| + 1 && ss[0] == Shared([], [])
    && (forall i :: 0 <= i < |calls| ==> ss[i + 1] == Next(ss[i], calls[i]))
    && (forall i, j :: 0 <= i <= j < |calls| ==> calls[i].now <= calls[j].now)
  }

  ghost predicate AtLeast(calls: seq<Call>, most: nat, shortest: real) {
    forall i :: 0 <= i < |calls| ==> shortest <= calls[i].window && calls[i].limit <= most
  }

  lemma {:induction false} RunSound(ss: seq<Shared>, calls: seq<Call>, most: nat, shortest: real, k: nat)
    requires IsRun(ss, calls) && AtLeast(calls, most, shortest) && 0 < k < |ss|
    ensures Sound(ss[k], most, shortest, calls[k - 1].now)
  {
    var s, c := ss[k - 1], calls[k - 1];
    var recent := Recent(s.usage, c.now - c.window);
    if k > 1 {
      RunSound(ss, calls, most, shortest, k - 1);
      NextKeepsSound(s, c, most, shortest, calls[k - 2].now, recent, ss[k]);
    } else {
      NextKeepsSound(s, c, most, shortest, c.now, recent, ss[k]);
    }
  }

  /** Whatever windows the callers have, no window as long as the shortest of them ever
      holds more calls than the largest limit. */
  lemma CallsBounded(ss: seq<Shared>, calls: seq<Call>, most: nat, shortest: real, k: nat, end: real)
    requires IsRun(ss, calls) && AtLeast(calls, most, shortest) && k < |ss|
    ensures CountIn(ss[k].log, end - shortest, end) <= most
  {
    if k > 0 {
      RunSound(ss, calls, most, shortest, k);
      GappedWindow(ss[k].log, most, shortest, end - shortest, end);
    }
  }
}
