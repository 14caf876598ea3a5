/** Task slots, shared quotas and circuits (`ResourceGovernor` in
    source_agents/governor.py). */
module Governor {
  import opened Basics
  import opened Quotas
  import opened Windows
  import opened Wrappers

  // ----- budgets -----

  datatype Span = Second | Minute | Hour | Day | Unknown
  {
    function Seconds(): real {
      match this
      case Second => 1.0
      case Minute => 60.0
      case Hour => 3600.0
      case Day => 86400.0
      case Unknown => 60.0
    }
  }

  datatype Quota = Quota(limit: int, span: Span)

  datatype Budget = Budget(maxTasks: Option<int>, quotas: map<Name, Quota>)

  type Budgets = map<Name, Budget>

  /** An agent without a budget has no quotas and the usual number of tasks. */
  function BudgetOf(budgets: Budgets, agent: Name): Budget {
    if agent in budgets then budgets[agent] else Budget(None, map[])
  }

  function MaxTasks(budgets: Budgets, agent: Name): int {
    match BudgetOf(budgets, agent).maxTasks
    case None => 5
    case Some(n) => n
  }

  function QuotaOf(budgets: Budgets, agent: Name, api: Name): Option<Quota> {
    var quotas := BudgetOf(budgets, agent).quotas;
    if api in quotas then Some(quotas[api]) else None
  }

  // ----- task slots -----

  function Count(m: map<Name, nat>, name: Name): nat {
    if name in m then m[name] else 0
  }

  function Bump(m: map<Name, nat>, name: Name): map<Name, nat> {
    m[name := Count(m, name) + 1]
  }

  /** Slots held and how they came about: `spare` counts releases of no slot. */
  datatype Slots = Slots(active: map<Name, nat>, acquired: map<Name, nat>, released: map<Name, nat>,
                         spare: map<Name, nat>)

  /** The slots held are those acquired less those released, but for spare releases. */
  ghost predicate Accounted(budgets: Budgets, s: Slots, agent: Name) {
    && Count(s.active, agent) + Count(s.released, agent) == Count(s.acquired, agent) + Count(s.spare, agent)
    && (Count(s.active, agent) > 0 ==> Count(s.active, agent) <= MaxTasks(budgets, agent))
  }

  ghost predicate AllAccounted(budgets: Budgets, s: Slots) {
    forall agent :: Accounted(budgets, s, agent)
  }

  function Take(s: Slots, agent: Name): Slots {
    s.(active := Bump(s.active, agent), acquired := Bump(s.acquired, agent))
  }

  function Give(s: Slots, agent: Name): Slots {
    var n := Count(s.active, agent);
    s.(active := s.active[agent := if n > 0 then n - 1 else 0],
       released := Bump(s.released, agent),
       spare := if n == 0 then Bump(s.spare, agent) else s.spare)
  }

  lemma TakeAccounted(budgets: Budgets, s: Slots, agent: Name)
    requires AllAccounted(budgets, s) && Count(s.active, agent) < MaxTasks(budgets, agent)
    ensures AllAccounted(budgets, Take(s, agent))
  {
    forall other ensures Accounted(budgets, Take(s, agent), other) {
      assert Accounted(budgets, s, other);
    }
  }

  lemma GiveAccounted(budgets: Budgets, s: Slots, agent: Name)
    requires AllAccounted(budgets, s)
    ensures AllAccounted(budgets, Give(s, agent))
  {
    forall other ensures Accounted(budgets, Give(s, agent), other) {
      assert Accounted(budgets, s, other);
    }
  }

  /** An agent's active count is what it acquired less what it released just when no
      release was spare. */
  lemma ActiveIff(budgets: Budgets, s: Slots, agent: Name)
    requires AllAccounted(budgets, s)
    ensures Count(s.active, agent) == Count(s.acquired, agent) - Count(s.released, agent) <==> Count(s.spare, agent) == 0
    ensures Count(s.active, agent) <= if MaxTasks(budgets, agent) > 0 then MaxTasks(budgets, agent) else 0
  {
    assert Accounted(budgets, s, agent);
  }

  // ----- circuits -----

  const THRESHOLD := 5
  const COOLING := 300.0

  datatype Phase = Closed | Open | HalfOpen

  datatype Circuit = Circuit(phase: Phase, failures: nat, lastFailure: real)

  /** A success or failure reported for an API. */
  datatype Report = Report(at: real, failed: bool)

  /** Failures since the last success. */
  ghost function Streak(reports: seq<Report>): nat {
    if reports == [] || !reports[|reports| - 1].failed then 0 else Streak(reports[..|reports| - 1]) + 1
  }

  /** What the circuit should be, from the whole history: open for five minutes after a
      failure that was at least the fifth in a row. */
  ghost predicate OpenAt(reports: seq<Report>, now: real) {
    Streak(reports) >= THRESHOLD && now - reports[|reports| - 1].at <= COOLING
  }

  lemma {:induction false} StreakAtLeast(reports: seq<Report>, n: nat)
    ensures Streak(reports) >= n <==>
      |reports| >= n && forall i :: |reports| - n <= i < |reports| ==> reports[i].failed
    decreases n
  {
    if n > 0 && reports != [] && reports[|reports| - 1].failed {
      StreakAtLeast(reports[..|reports| - 1], n - 1);
    }
  }

  /** A circuit is open just when the last five reports were failures and the last of them
      is no more than 300 seconds ago. */
  lemma OpenAfterFive(reports: seq<Report>, now: real)
    ensures OpenAt(reports, now) <==>
      && |reports| >= 5 && (forall i :: |reports| - 5 <= i < |reports| ==> reports[i].failed)
      && now - reports[|reports| - 1].at <= 300.0
  {
    StreakAtLeast(reports, 5);
  }

  function Failed(c: Option<Circuit>, now: real): Circuit {
    var before := if c.Some? then c.value else Circuit(Closed, 0, now);
    var failures := before.failures + 1;
    Circuit(if failures >= THRESHOLD then Open else before.phase, failures, now)
  }

  function Succeeded(c: Option<Circuit>): Option<Circuit> {
    if c.None? then None else Some(c.value.(phase := Closed, failures := 0))
  }

  predicate Tripped(c: Option<Circuit>, now: real) {
    c.Some? && c.value.phase == Open && now - c.value.lastFailure <= COOLING
  }

  /** Asking half-opens a circuit that has cooled. */
  function Asked(c: Option<Circuit>, now: real): Option<Circuit> {
    if c.Some? && c.value.phase == Open && !Tripped(c, now) then Some(c.value.(phase := HalfOpen)) else c
  }

  /** An open circuit is half open once it is found to be no longer open, its count kept. */
  lemma AskedHalfOpens(c: Circuit, now: real)
    ensures c.phase == Open && now - c.lastFailure > 300.0 ==>
      Asked(Some(c), now) == Some(Circuit(HalfOpen, c.failures, c.lastFailure))
    ensures c.phase != Open || now - c.lastFailure <= 300.0 ==> Asked(Some(c), now) == Some(c)
    ensures Asked(None, now) == None
  {
  }

  ghost predicate Tells(c: Option<Circuit>, reports: seq<Report>, clock: real) {
    && (c.None? ==> Streak(reports) == 0)
    && (c.Some? ==> TellsSome(c.value, reports, clock))
  }

  ghost predicate TellsSome(c: Circuit, reports: seq<Report>, clock: real) {
    && c.failures == Streak(reports)
    && (c.failures > 0 ==> c.lastFailure == reports[|reports| - 1].at)
    && (c.phase == Open ==> c.failures >= THRESHOLD)
    && (c.failures >= THRESHOLD && c.phase != Open ==> clock - c.lastFailure > COOLING)
  }

  lemma TellsOpen(c: Option<Circuit>, reports: seq<Report>, clock: real, now: real)
    requires Tells(c, reports, clock) && clock <= now
    ensures Tripped(c, now) <==> OpenAt(reports, now)
    ensures Tells(Asked(c, now), reports, now) && Tells(c, reports, now)
  {
  }

  lemma FailedTells(c: Option<Circuit>, reports: seq<Report>, clock: real, now: real)
    requires Tells(c, reports, clock) && clock <= now
    ensures Tells(Some(Failed(c, now)), reports + [Report(now, true)], now)
  {
    assert (reports + [Report(now, true)])[..|reports|] == reports;
  }

  lemma SucceededTells(c: Option<Circuit>, reports: seq<Report>, clock: real, now: real)
    requires Tells(c, reports, clock) && clock <= now
    ensures Tells(Succeeded(c), reports + [Report(now, false)], now)
  {
  }

  function CircuitAt(circuits: map<Name, Circuit>, api: Name): Option<Circuit> {
    if api in circuits then Some(circuits[api]) else None
  }

  function ReportsAt(reports: map<Name, seq<Report>>, api: Name): seq<Report> {
    if api in reports then reports[api] else []
  }

  ghost predicate AllTell(circuits: map<Name, Circuit>, reports: map<Name, seq<Report>>, clock: real) {
    forall api {:trigger ReportsAt(reports, api)} :: Tells(CircuitAt(circuits, api), ReportsAt(reports, api), clock)
  }

  lemma AllTellAfter(circuits: map<Name, Circuit>, reports: map<Name, seq<Report>>, clock: real, now: real, api: Name,
                     circuits': map<Name, Circuit>, reports': map<Name, seq<Report>>)
    requires AllTell(circuits, reports, clock) && clock <= now
    requires forall other :: other != api ==> CircuitAt(circuits', other) == CircuitAt(circuits, other)
    requires forall other :: other != api ==> ReportsAt(reports', other) == ReportsAt(reports, other)
    requires Tells(CircuitAt(circuits', api), ReportsAt(reports', api), now)
    ensures AllTell(circuits', reports', now)
  {
    forall other {:trigger ReportsAt(reports', other)}
      ensures Tells(CircuitAt(circuits', other), ReportsAt(reports', other), now)
    {
      if other != api {
        TellsOpen(CircuitAt(circuits, other), ReportsAt(reports, other), clock, now);
      }
    }
  }

  /** A success, reported for an API whose circuit may not exist. */
  lemma SucceededAll(circuits: map<Name, Circuit>, reports: map<Name, seq<Report>>, clock: real, now: real, api: Name,
                     reported: seq<Report>)
    requires AllTell(circuits, reports, clock) && clock <= now
    requires reported == ReportsAt(reports, api) + [Report(now, false)]
    ensures var c := Succeeded(CircuitAt(circuits, api));
      AllTell(if c.None? then circuits else circuits[api := c.value], reports[api := reported], now)
  {
    var c := Succeeded(CircuitAt(circuits, api));
    SucceededTells(CircuitAt(circuits, api), ReportsAt(reports, api), clock, now);
    AllTellAfter(circuits, reports, clock, now, api, if c.None? then circuits else circuits[api := c.value],
                 reports[api := reported]);
  }

  lemma FailedAll(circuits: map<Name, Circuit>, reports: map<Name, seq<Report>>, clock: real, now: real, api: Name,
                  reported: seq<Report>)
    requires AllTell(circuits, reports, clock) && clock <= now
    requires reported == ReportsAt(reports, api) + [Report(now, true)]
    ensures AllTell(circuits[api := Failed(CircuitAt(circuits, api), now)], reports[api := reported], now)
  {
    FailedTells(CircuitAt(circuits, api), ReportsAt(reports, api), clock, now);
    AllTellAfter(circuits, reports, clock, now, api, circuits[api := Failed(CircuitAt(circuits, api), now)],
                 reports[api := reported]);
  }

  // ----- quotas -----

  function LogAt(m: map<Name, seq<real>>, api: Name): seq<real> {
    if api in m then m[api] else []
  }

  ghost function SharedAt(usage: map<Name, seq<real>>, logs: map<Name, seq<real>>, api: Name): Shared {
    Shared(LogAt(usage, api), LogAt(logs, api))
  }

  /** No quota for an API has a window shorter than this, and none a larger limit. */
  ghost predicate Within(budgets: Budgets, api: Name, window: real, most: nat) {
    forall agent :: QuotaOf(budgets, agent, api).Some? ==>
      && window <= QuotaOf(budgets, agent, api).value.span.Seconds()
      && QuotaOf(budgets, agent, api).value.limit <= most
  }

  /** `free` are the APIs that an agent without a quota for them has called. */
  ghost predicate AllSound(budgets: Budgets, usage: map<Name, seq<real>>, logs: map<Name, seq<real>>, free: set<Name>,
                           clock: real) {
    forall api, window, most {:trigger Within(budgets, api, window, most)} ::
      Within(budgets, api, window, most) && api !in free ==> Sound(SharedAt(usage, logs, api), most, window, clock)
  }

  /** On a log that only quota holders have used, no window as long as the shortest of
      theirs ever holds more calls than the largest limit. */
  lemma QuotaBounded(budgets: Budgets, usage: map<Name, seq<real>>, logs: map<Name, seq<real>>, free: set<Name>,
                     clock: real,
                     api: Name, window: real, most: nat, end: real)
    requires AllSound(budgets, usage, logs, free, clock) && Within(budgets, api, window, most) && api !in free
    ensures CountIn(LogAt(logs, api), end - window, end) <= most
  {
    assert Sound(SharedAt(usage, logs, api), most, window, clock);
    GappedWindow(LogAt(logs, api), most, window, end - window, end);
  }

  lemma AllSoundAfter(budgets: Budgets, usage: map<Name, seq<real>>, logs: map<Name, seq<real>>, free: set<Name>,
                      clock: real, now: real, api: Name,
                      usage': map<Name, seq<real>>, logs': map<Name, seq<real>>, free': set<Name>)
    requires AllSound(budgets, usage, logs, free, clock) && clock <= now && free <= free'
    requires forall other :: other != api ==> SharedAt(usage', logs', other) == SharedAt(usage, logs, other)
    requires api in free' || SoundAt(budgets, SharedAt(usage', logs', api), api, now)
    ensures AllSound(budgets, usage', logs', free', now)
  {
    forall other, window, most {:trigger Within(budgets, other, window, most)} |
        Within(budgets, other, window, most) && other !in free'
      ensures Sound(SharedAt(usage', logs', other), most, window, now)
    {
      if other != api {
        SoundLater(SharedAt(usage, logs, other), most, window, clock, now);
      }
    }
  }

  lemma AllSoundLater(budgets: Budgets, usage: map<Name, seq<real>>, logs: map<Name, seq<real>>, free: set<Name>,
                      clock: real, now: real)
    requires AllSound(budgets, usage, logs, free, clock) && clock <= now
    ensures AllSound(budgets, usage, logs, free, now)
  {
    forall other, window, most {:trigger Within(budgets, other, window, most)} |
        Within(budgets, other, window, most) && other !in free
      ensures Sound(SharedAt(usage, logs, other), most, window, now)
    {
      SoundLater(SharedAt(usage, logs, other), most, window, clock, now);
    }
  }

  ghost predicate SoundAt(budgets: Budgets, s: Shared, api: Name, clock: real) {
    forall window, most {:trigger Within(budgets, api, window, most)} ::
      Within(budgets, api, window, most) ==> Sound(s, most, window, clock)
  }

  /** Every window that is not longer than any quota's has room for one more call. */
  ghost predicate Room(budgets: Budgets, log: seq<real>, api: Name, now: real) {
    forall window, most {:trigger Within(budgets, api, window, most)} ::
      Within(budgets, api, window, most) ==> CountIn(log, now - window, now) < most
  }

  /** A quota holder's check leaves the log sound and finds out whether there is room. */
  lemma CheckedSound(budgets: Budgets, s: Shared, agent: Name, api: Name, clock: real, now: real, q: Quota,
                     recent: seq<real>)
    requires SoundAt(budgets, s, api, clock) && clock <= now && QuotaOf(budgets, agent, api) == Some(q)
    requires recent == Recent(s.usage, now - q.span.Seconds())
    ensures SoundAt(budgets, Shared(recent, s.log), api, now)
    ensures |recent| < q.limit ==> Room(budgets, s.log, api, now)
  {
    forall window, most {:trigger Within(budgets, api, window, most)} | Within(budgets, api, window, most)
      ensures Sound(Shared(recent, s.log), most, window, now)
      ensures |recent| < q.limit ==> CountIn(s.log, now - window, now) < most
    {
      SoundLater(s, most, window, clock, now);
      RecentCovers(s.usage, s.log, window, q.span.Seconds(), now, recent);
    }
  }

  lemma RecordedSound(budgets: Budgets, s: Shared, api: Name, now: real)
    requires SoundAt(budgets, s, api, now) && Room(budgets, s.log, api, now)
    ensures SoundAt(budgets, Shared(s.usage + [now], s.log + [now]), api, now)
  {
    forall window, most {:trigger Within(budgets, api, window, most)} | Within(budgets, api, window, most)
      ensures Sound(Shared(s.usage + [now], s.log + [now]), most, window, now)
    {
      AdmittedKeeps(s.usage, s.log, most, window, now);
    }
  }

  // ----- the governor -----

  /** Does the shared log, with older calls dropped, leave the agent a call? */
  predicate QuotaAllows(budgets: Budgets, usage: map<Name, seq<real>>, agent: Name, api: Name, now: real) {
    match QuotaOf(budgets, agent, api)
    case None => true
    case Some(q) => |Recent(LogAt(usage, api), now - q.span.Seconds())| < q.limit
  }

  /** The pruned log answers a quota holder with the shortest window as the log of all
      calls ever made would. */
  lemma QuotaCountsAll(budgets: Budgets, usage: map<Name, seq<real>>, logs: map<Name, seq<real>>, free: set<Name>,
                       clock: real, now: real, agent: Name, api: Name, q: Quota, most: nat)
    requires AllSound(budgets, usage, logs, free, clock) && clock <= now && api !in free
    requires Within(budgets, api, q.span.Seconds(), most) && QuotaOf(budgets, agent, api) == Some(q)
    ensures QuotaAllows(budgets, usage, agent, api, now) <==>
      CountIn(LogAt(logs, api), now - q.span.Seconds(), now) < q.limit
  {
    var window := q.span.Seconds();
    SoundLater(SharedAt(usage, logs, api), most, window, clock, now);
    RecentCounts(LogAt(usage, api), LogAt(logs, api), window, now, Recent(LogAt(usage, api), now - window));
  }

  /** An agent that holds no quota for an API may always call it. */
  lemma WithoutQuota(budgets: Budgets, usage: map<Name, seq<real>>, agent: Name, api: Name, now: real)
    requires agent in budgets ==> api !in budgets[agent].quotas
    ensures QuotaAllows(budgets, usage, agent, api, now)
  {
  }

  /** Quotas by the second, minute, hour or day: an agent whose window is the shortest is
      allowed a call just when fewer than its limit were ever made in the time named. */
  lemma QuotaInSeconds(budgets: Budgets, usage: map<Name, seq<real>>, logs: map<Name, seq<real>>, free: set<Name>,
                       clock: real, now: real, agent: Name, api: Name, q: Quota, most: nat)
    requires AllSound(budgets, usage, logs, free, clock) && clock <= now && api !in free
    requires Within(budgets, api, q.span.Seconds(), most)
    requires agent in budgets && api in budgets[agent].quotas && q == budgets[agent].quotas[api]
    ensures q.span == Second ==>
      (QuotaAllows(budgets, usage, agent, api, now) <==> CountIn(LogAt(logs, api), now - 1.0, now) < q.limit)
    ensures q.span == Minute || q.span == Unknown ==>
      (QuotaAllows(budgets, usage, agent, api, now) <==> CountIn(LogAt(logs, api), now - 60.0, now) < q.limit)
    ensures q.span == Hour ==>
      (QuotaAllows(budgets, usage, agent, api, now) <==> CountIn(LogAt(logs, api), now - 3600.0, now) < q.limit)
    ensures q.span == Day ==>
      (QuotaAllows(budgets, usage, agent, api, now) <==> CountIn(LogAt(logs, api), now - 86400.0, now) < q.limit)
  {
    QuotaCountsAll(budgets, usage, logs, free, clock, now, agent, api, q, most);
  }

  class ResourceGovernor {
    const budgets: Budgets
    var usage: map<Name, seq<real>>
    var active: map<Name, nat>
    var circuits: map<Name, Circuit>

    ghost var acquired: map<Name, nat>
    ghost var released: map<Name, nat>
    ghost var spare: map<Name, nat>
    ghost var logs: map<Name, seq<real>>
    ghost var free: set<Name>
    ghost var reports: map<Name, seq<Report>>
    ghost var clock: real

    ghost function Held(): Slots
      reads this
    {
      Slots(active, acquired, released, spare)
    }

    ghost predicate Valid()
      reads this
    {
      && AllAccounted(budgets, Held())
      && AllTell(circuits, reports, clock)
      && AllSound(budgets, usage, logs, free, clock)
    }

    constructor (budgets: Budgets, start: real)
      ensures Valid() && this.budgets == budgets && clock == start
      ensures acquired == released == spare == map[] && logs == map[] && free == {} && reports == map[]
    {
      this.budgets, usage, active, circuits := budgets, map[], map[], map[];
      acquired, released, spare, logs, free, reports, clock := map[], map[], map[], map[], {}, map[], start;
    }

    method Check(agent: Name, api: Name, q: Quota, now: real) returns (allowed: bool)
      requires Valid() && clock <= now && QuotaOf(budgets, agent, api) == Some(q)
      modifies `usage, `clock
      ensures Valid() && clock == now
      ensures allowed == QuotaAllows(budgets, old(usage), agent, api, now)
      ensures allowed && api !in free ==> Room(budgets, LogAt(logs, api), api, now)
      ensures usage == old(usage)[api := Recent(old(LogAt(usage, api)), now - q.span.Seconds())]
    {
      var recent := Recent(LogAt(usage, api), now - q.span.Seconds());
      ghost var s, before := SharedAt(usage, logs, api), usage;
      usage := usage[api := recent];
      if api !in free {
        assert SoundAt(budgets, s, api, clock);
        CheckedSound(budgets, s, agent, api, clock, now, q, recent);
      }
      AllSoundAfter(budgets, before, logs, free, clock, now, api, usage, logs, free);
      AllTellAfter(circuits, reports, clock, now, api, circuits, reports);
      clock := now;
      allowed := |recent| < q.limit;
    }

    method IsCircuitOpen(api: Name, now: real) returns (open: bool)
      requires Valid() && clock <= now
      modifies `circuits, `clock
      ensures Valid() && clock == now
      ensures open == OpenAt(ReportsAt(reports, api), now)
      ensures CircuitAt(circuits, api) == Asked(old(CircuitAt(circuits, api)), now)
    {
      ghost var before := circuits;
      TellsOpen(CircuitAt(circuits, api), ReportsAt(reports, api), clock, now);
      open := Tripped(CircuitAt(circuits, api), now);
      if api in circuits && circuits[api].phase == Open && !open {
        circuits := circuits[api := circuits[api].(phase := HalfOpen)];
      }
      AllTellAfter(before, reports, clock, now, api, circuits, reports);
      AllSoundAfter(budgets, usage, logs, free, clock, now, api, usage, logs, free);
      clock := now;
    }

    /** Log a call.  One without a quota sets its API free. */
    method Record(agent: Name, api: Name, now: real)
      requires Valid() && clock == now
      requires QuotaOf(budgets, agent, api).None? || api in free || Room(budgets, LogAt(logs, api), api, now)
      modifies `usage, `logs, `free
      ensures Valid() && logs == old(logs)[api := old(LogAt(logs, api)) + [now]]
      ensures free == if QuotaOf(budgets, agent, api).None? then old(free) + {api} else old(free)
    {
      ghost var s, usage0, logs0, free0 := SharedAt(usage, logs, api), usage, logs, free;
      if QuotaOf(budgets, agent, api).None? {
        free := free + {api};
      } else if api !in free {
        assert SoundAt(budgets, s, api, now);
        RecordedSound(budgets, s, api, now);
      }
      usage := usage[api := LogAt(usage, api) + [now]];
      logs := logs[api := LogAt(logs, api) + [now]];
      AllSoundAfter(budgets, usage0, logs0, free0, clock, now, api, usage, logs, free);
    }

    /** Quota, then circuit. */
    method ApiAllows(agent: Name, api: Name, now: real) returns (allowed: bool)
      requires Valid() && clock <= now
      modifies `usage, `circuits, `clock
      ensures Valid() && now >= clock && (allowed ==> clock == now)
      ensures allowed <==> QuotaAllows(budgets, old(usage), agent, api, now) && !OpenAt(ReportsAt(reports, api), now)
      ensures allowed && QuotaOf(budgets, agent, api).Some? && api !in free ==> Room(budgets, LogAt(logs, api), api, now)
    {
      allowed := true;
      var quota := QuotaOf(budgets, agent, api);
      if quota.Some? {
        allowed := Check(agent, api, quota.value, now);
      }
      if allowed {
        var open := IsCircuitOpen(api, now);
        allowed := !open;
      }
    }

    /** Take a task slot and, with an API named, a call to it.  An agent that holds no
        quota for the API is not counted against one. */
    method Acquire(agent: Name, api: Option<Name>, now: real) returns (ok: bool)
      requires Valid() && clock <= now
      modifies this
      ensures Valid() && clock <= now
      ensures api.None? && agent !in budgets ==> (ok <==> Count(old(active), agent) < 5)
      ensures ok <==> Count(old(active), agent) < MaxTasks(budgets, agent)
                      && (api.Some? ==> QuotaAllows(budgets, old(usage), agent, api.value, now))
                      && (api.Some? ==> !OpenAt(ReportsAt(old(reports), api.value), now))
      ensures Held() == if ok then Take(old(Held()), agent) else old(Held())
      ensures logs == if ok && api.Some? then old(logs)[api.value := old(LogAt(logs, api.value)) + [now]] else old(logs)
      ensures free ==
        if ok && api.Some? && QuotaOf(budgets, agent, api.value).None? then old(free) + {api.value} else old(free)
      ensures reports == old(reports)
    {
      if Count(active, agent) >= MaxTasks(budgets, agent) {
        return false;
      }
      if api.Some? {
        var allowed := ApiAllows(agent, api.value, now);
        if !allowed {
          return false;
        }
      }
      Enter(agent);
      if api.Some? {
        Record(agent, api.value, now);
      }
      return true;
    }

    method Enter(agent: Name)
      requires Valid() && Count(active, agent) < MaxTasks(budgets, agent)
      modifies `active, `acquired
      ensures Valid() && Held() == Take(old(Held()), agent)
    {
      TakeAccounted(budgets, Held(), agent);
      active, acquired := Bump(active, agent), Bump(acquired, agent);
    }

    method Release(agent: Name)
      requires Valid()
      modifies `active, `released, `spare
      ensures Valid() && Held() == Give(old(Held()), agent)
    {
      GiveAccounted(budgets, Held(), agent);
      var n := Count(active, agent);
      if n == 0 {
        spare := Bump(spare, agent);
      }
      released := Bump(released, agent);
      active := active[agent := if n > 0 then n - 1 else 0];
    }

    method RecordApiSuccess(api: Name, now: real)
      requires Valid() && clock <= now
      modifies `circuits, `reports, `clock
      ensures Valid() && clock == now
      ensures CircuitAt(circuits, api) == Succeeded(old(CircuitAt(circuits, api)))
      ensures reports == old(reports)[api := old(ReportsAt(reports, api)) + [Report(now, false)]]
    {
      ghost var reported := ReportsAt(reports, api) + [Report(now, false)];
      SucceededAll(circuits, reports, clock, now, api, reported);
      AllSoundLater(budgets, usage, logs, free, clock, now);
      if api in circuits {
        circuits := circuits[api := circuits[api].(phase := Closed, failures := 0)];
      }
      reports, clock := reports[api := reported], now;
    }

    method RecordApiFailure(api: Name, now: real)
      requires Valid() && clock <= now
      modifies `circuits, `reports, `clock
      ensures Valid() && clock == now
      ensures CircuitAt(circuits, api) == Some(Failed(old(CircuitAt(circuits, api)), now))
      ensures reports == old(reports)[api := old(ReportsAt(reports, api)) + [Report(now, true)]]
    {
      ghost var reported := ReportsAt(reports, api) + [Report(now, true)];
      ghost var failed := Failed(CircuitAt(circuits, api), now);
      FailedAll(circuits, reports, clock, now, api, reported);
      AllSoundLater(budgets, usage, logs, free, clock, now);
      ghost var before := circuits;
      if api !in circuits {
        circuits := circuits[api := Circuit(Closed, 0, now)];
      }
      var failures := circuits[api].failures + 1;
      circuits := circuits[api := circuits[api].(failures := failures, lastFailure := now)];
      if failures >= THRESHOLD {
        circuits := circuits[api := circuits[api].(phase := Open)];
      }
      assert circuits == before[api := failed];
      reports, clock := reports[api := reported], now;
    }
  }
}
