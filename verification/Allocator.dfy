/** Daily budgets, reserved shares and the common pool (`ResourceAllocator` in
    source_agents/decision.py). */
module Allocator {
  import opened Basics

  /** The daily budget of each API, and of each agent the share it has reserved. */
  datatype Tables = Tables(daily: map<Name, int>, shares: map<Name, map<Name, real>>)

  /** What each agent has used of each API today; negative requests are booked too. */
  type Ledger = map<Name, map<Name, int>>

  function Daily(t: Tables, api: Name): int {
    if api in t.daily then t.daily[api] else 0
  }

  function Share(t: Tables, agent: Name, api: Name): real {
    if agent in t.shares && api in t.shares[agent] then t.shares[agent][api] else 0.0
  }

  /** Towards zero, as `int` does. */
  function Truncated(x: real): int {
    if x >= 0.0 then x.Floor else -(-x).Floor
  }

  function Own(t: Tables, agent: Name, api: Name): int {
    Truncated(Daily(t, api) as real * Share(t, agent, api))
  }

  /** An own share is the budget times the reserved share, with the fraction cut off. */
  lemma OwnIsTruncated(t: Tables, agent: Name, api: Name)
    ensures !(api in t.daily && agent in t.shares && api in t.shares[agent]) ==> Own(t, agent, api) == 0
    ensures api in t.daily && agent in t.shares && api in t.shares[agent] ==>
      var x, own := t.daily[api] as real * t.shares[agent][api], Own(t, agent, api) as real;
      if x >= 0.0 then own <= x < own + 1.0 else own - 1.0 < x <= own
  {
    assert Daily(t, api) == 0 || Share(t, agent, api) == 0.0 ==> Daily(t, api) as real * Share(t, agent, api) == 0.0;
  }

  /** Budgets and own shares in whole requests. */
  datatype Plan = Plan(daily: Name -> int, own: (Name, Name) -> int)

  function PlanOf(t: Tables): Plan {
    Plan(api => Daily(t, api), (agent, api) => Own(t, agent, api))
  }

  function Used(l: Ledger, agent: Name, api: Name): int {
    if agent in l && api in l[agent] then l[agent][api] else 0
  }

  // ----- sums over agents -----

  ghost function Sum(f: Name -> int, agents: set<Name>): int
    decreases agents
  {
    if agents == {} then 0
    else
      var a :| a in agents;
      f(a) + Sum(f, agents - {a})
  }

  lemma {:induction false} SumPick(f: Name -> int, agents: set<Name>, a: Name)
    requires a in agents
    ensures Sum(f, agents) == f(a) + Sum(f, agents - {a})
    decreases agents
  {
    var b :| b in agents && Sum(f, agents) == f(b) + Sum(f, agents - {b});
    if a != b {
      SumPick(f, agents - {b}, a);
      SumPick(f, agents - {a}, b);
      assert agents - {a} - {b} == agents - {b} - {a};
    }
  }

  lemma {:induction false} SumSame(f: Name -> int, g: Name -> int, agents: set<Name>)
    requires forall a :: a in agents ==> f(a) == g(a)
    ensures Sum(f, agents) == Sum(g, agents)
    decreases agents
  {
    if agents != {} {
      var a :| a in agents;
      SumPick(f, agents, a);
      SumPick(g, agents, a);
      SumSame(f, g, agents - {a});
    }
  }

  /** Changing the value of one agent, a new one perhaps, changes the sum by as much. */
  lemma SumChanges(f: Name -> int, g: Name -> int, agents: set<Name>, a: Name)
    requires forall b :: b != a ==> f(b) == g(b)
    requires a in agents || f(a) == 0
    ensures Sum(g, agents + {a}) == Sum(f, agents) - f(a) + g(a)
  {
    SumPick(g, agents + {a}, a);
    assert agents + {a} - {a} == agents - {a};
    SumSame(f, g, agents - {a});
    if a in agents {
      SumPick(f, agents, a);
    } else {
      assert agents - {a} == agents;
    }
  }

  function UsedOf(l: Ledger, api: Name): Name -> int {
    a => Used(l, a, api)
  }

  ghost function Total(l: Ledger, api: Name): int {
    Sum(UsedOf(l, api), l.Keys)
  }

  // ----- one allocation -----

  /** What is left of the budget for any agent. */
  ghost function Pool(p: Plan, l: Ledger, api: Name): nat {
    Max(0, p.daily(api) - Total(l, api))
  }

  /** What is left of the agent's own share. */
  function Unused(p: Plan, l: Ledger, agent: Name, api: Name): nat {
    Max(0, p.own(agent, api) - Used(l, agent, api))
  }

  ghost function Granted(p: Plan, l: Ledger, agent: Name, api: Name, requested: int): int {
    Min(requested, Unused(p, l, agent, api) + Pool(p, l, api))
  }

  function Spend(l: Ledger, agent: Name, api: Name, granted: int): Ledger {
    var row := if agent in l then l[agent] else map[];
    l[agent := row[api := Used(l, agent, api) + granted]]
  }

  // ----- a report -----

  /** Tenths of a percent of the budget used. */
  datatype Usage = Usage(budget: int, used: int, remaining: int, tenths: int)

  function Thousandths(used: int, budget: int): real {
    used as real / Max(budget, 1) as real * 1000.0
  }

  /** t is an integer nearest to x, the even one if there are two. */
  ghost predicate Nearest(x: real, t: int) {
    && x - 0.5 <= t as real <= x + 0.5
    && (t as real == x - 0.5 || t as real == x + 0.5 ==> t % 2 == 0)
  }

  function Rounded(x: real): (t: int)
    ensures Nearest(x, t)
  {
    var down := x.Floor;
    var part := x - down as real;
    if part < 0.5 || (part == 0.5 && down % 2 == 0) then down else down + 1
  }

  /** Tenths of a percent to the nearest one: in whole numbers, off by at most half a budget
      of a thousandth. */
  lemma TenthsNearest(used: int, budget: int, tenths: int, b: int)
    requires Nearest(Thousandths(used, budget), tenths) && b == if budget < 1 then 1 else budget
    ensures -b <= 2 * (tenths * b - 1000 * used) <= b
  {
    var x := Thousandths(used, budget);
    assert x == used as real / b as real * 1000.0;
    Thousandfold(used as real, b as real, x);
    NearestTimes(x, used as real, b as real, tenths as real);
    InWhole(tenths, b, used);
  }

  lemma NearestTimes(x: real, u: real, r: real, t: real)
    requires r > 0.0 && x * r == 1000.0 * u && x - 0.5 <= t <= x + 0.5
    ensures -r <= 2.0 * (t * r - 1000.0 * u) <= r
  {
    var p := t - x;
    Product(0.5 + p, r);
    Product(0.5 - p, r);
    assert (0.5 + p) * r == 0.5 * r + p * r && (0.5 - p) * r == 0.5 * r - p * r;
    assert p * r == t * r - x * r;
    assert 2.0 * (t * r - 1000.0 * u) == 2.0 * (p * r);
  }

  lemma Product(x: real, y: real)
    requires x >= 0.0 && y >= 0.0
    ensures x * y >= 0.0
  {
  }

  lemma InWhole(t: int, b: int, u: int)
    requires -(b as real) <= 2.0 * (t as real * b as real - 1000.0 * u as real) <= b as real
    ensures -b <= 2 * (t * b - 1000 * u) <= b
  {
    var p := t * b;
    assert p as real == t as real * b as real;
    assert (2 * (p - 1000 * u)) as real == 2.0 * (p as real - 1000.0 * u as real);
  }

  lemma Thousandfold(u: real, r: real, x: real)
    requires r > 0.0 && x == u / r * 1000.0
    ensures x * r == 1000.0 * u
  {
    var q := u / r;
    assert q * r == u;
    assert (q * 1000.0) * r == 1000.0 * (q * r);
  }

  ghost predicate Reports(p: Plan, l: Ledger, api: Name, u: Usage) {
    && u.budget == p.daily(api) && u.used == Total(l, api) && u.remaining == Pool(p, l, api)
    && Nearest(Thousandths(Total(l, api), p.daily(api)), u.tenths)
  }

  class ResourceAllocator {
    const tables: Tables
    var used: Ledger

    constructor (tables: Tables)
      ensures this.tables == tables && used == map[]
    {
      this.tables, used := tables, map[];
    }

    method Add(api: Name) returns (total: int)
      ensures total == Total(used, api)
    {
      total := 0;
      var left := used.Keys;
      ghost var f := UsedOf(used, api);
      while left != {}
        invariant left <= used.Keys && total + Sum(f, left) == Sum(f, used.Keys)
        decreases left
      {
        var a :| a in left;
        SumPick(f, left, a);
        total, left := total + Used(used, a, api), left - {a};
      }
    }

    /** How much of a request is served: from the agent's own share first, then from the
        pool. */
    method Grant(agent: Name, api: Name, requested: int) returns (granted: int)
      ensures granted == Granted(PlanOf(tables), used, agent, api, requested)
    {
      var remaining := Max(0, Own(tables, agent, api) - Used(used, agent, api));
      if remaining < requested {
        var total := Add(api);
        var pool := Max(0, Daily(tables, api) - total);
        remaining := Min(remaining + pool, requested);
      }
      granted := Min(requested, remaining);
    }

    method Allocate(agent: Name, api: Name, requested: int) returns (granted: int)
      modifies this
      ensures granted == Granted(PlanOf(tables), old(used), agent, api, requested)
      ensures used == Spend(old(used), agent, api, granted)
    {
      granted := Grant(agent, api, requested);
      var before := Used(used, agent, api);
      if agent !in used {
        used := used[agent := map[]];
      }
      var row: map<Name, int> := used[agent];
      row := row[api := before + granted];
      used := used[agent := row];
    }

    /** For each budget: what is used of it, what is left, and the percentage used. */
    method Utilization() returns (report: map<Name, Usage>)
      ensures report.Keys == tables.daily.Keys
      ensures forall api :: api in report ==> Reports(PlanOf(tables), used, api, report[api])
    {
      report := map[];
      var left := tables.daily.Keys;
      while left != {}
        invariant left <= tables.daily.Keys && report.Keys == tables.daily.Keys - left
        invariant forall api :: api in report ==> Reports(PlanOf(tables), used, api, report[api])
        decreases left
      {
        var api :| api in left;
        var budget := tables.daily[api];
        var total := Add(api);
        var tenths := Rounded(Thousandths(total, budget));
        report := report[api := Usage(budget, total, Max(0, budget - total), tenths)];
        left := left - {api};
      }
    }
  }

  // ----- what the ledger keeps -----

  function Cap(p: Plan, api: Name): nat {
    Max(0, p.daily(api))
  }

  /** What an agent has used beyond its own share. */
  function Over(p: Plan, l: Ledger, agent: Name, api: Name): int {
    Max(0, Used(l, agent, api) - Max(0, p.own(agent, api)))
  }

  function OverOf(p: Plan, l: Ledger, api: Name): Name -> int {
    a => Over(p, l, a, api)
  }

  /** What an agent has in credit. */
  function Owed(l: Ledger, agent: Name, api: Name): int {
    Max(0, -Used(l, agent, api))
  }

  function OwedOf(l: Ledger, api: Name): Name -> int {
    a => Owed(l, a, api)
  }

  ghost function AllOver(p: Plan, l: Ledger, api: Name): int {
    Sum(OverOf(p, l, api), l.Keys)
  }

  /** After credits of so much in all: no more than that is still owed, and use beyond own
      shares is within the budget and the credits. */
  ghost predicate Kept(p: Plan, l: Ledger, api: Name, credits: nat) {
    Sum(OwedOf(l, api), l.Keys) <= credits && AllOver(p, l, api) <= Cap(p, api) + credits
  }

  ghost predicate Spent(l: Ledger, l': Ledger, agent: Name, api: Name, granted: int) {
    && l'.Keys == l.Keys + {agent} && (agent !in l ==> forall other :: Used(l, agent, other) == 0)
    && (forall b, other :: Used(l', b, other) == Used(l, b, other) + (if b == agent && other == api then granted else 0))
  }

  lemma SpendSpends(l: Ledger, agent: Name, api: Name, granted: int)
    ensures Spent(l, Spend(l, agent, api, granted), agent, api, granted)
  {
  }

  lemma SpentAddsTotal(l: Ledger, l': Ledger, agent: Name, api: Name, granted: int, other: Name)
    requires Spent(l, l', agent, api, granted)
    ensures Total(l', other) == Total(l, other) + (if other == api then granted else 0)
  {
    SumChanges(UsedOf(l, other), UsedOf(l', other), l.Keys, agent);
  }

  lemma SpentChanges(f: Name -> int, g: Name -> int, l: Ledger, l': Ledger, agent: Name)
    requires l'.Keys == l.Keys + {agent} && (agent in l || f(agent) == 0) && forall b :: b != agent ==> f(b) == g(b)
    ensures Sum(g, l'.Keys) == Sum(f, l.Keys) - f(agent) + g(agent)
  {
    SumChanges(f, g, l.Keys, agent);
  }

  lemma {:induction false} SumBelow(f: Name -> int, g: Name -> int, h: Name -> int, agents: set<Name>)
    requires forall a :: a in agents ==> f(a) <= g(a) + h(a)
    ensures Sum(f, agents) <= Sum(g, agents) + Sum(h, agents)
    decreases agents
  {
    if agents != {} {
      var a :| a in agents;
      SumPick(f, agents, a);
      SumPick(g, agents, a);
      SumPick(h, agents, a);
      SumBelow(f, g, h, agents - {a});
    }
  }

  lemma OneBelow(used: int, own: int)
    ensures Max(0, used - Max(0, own)) <= used + Max(0, -used)
  {
  }

  lemma OverBelow(p: Plan, l: Ledger, api: Name)
    ensures AllOver(p, l, api) <= Total(l, api) + Sum(OwedOf(l, api), l.Keys)
  {
    var over, used, owed := OverOf(p, l, api), UsedOf(l, api), OwedOf(l, api);
    forall a | a in l ensures over(a) <= used(a) + owed(a) {
      OneBelow(Used(l, a, api), p.own(a, api));
    }
    SumBelow(over, used, owed, l.Keys);
  }

  datatype Ask = Ask(agent: Name, api: Name, requested: int)

  ghost function Next(p: Plan, l: Ledger, ask: Ask): Ledger {
    Spend(l, ask.agent, ask.api, Granted(p, l, ask.agent, ask.api, ask.requested))
  }

  ghost predicate Takes(p: Plan, l: Ledger, ask: Ask, l': Ledger) {
    l' == Next(p, l, ask)
  }

  function Credit(ask: Ask, api: Name): nat {
    if ask.api == api && ask.requested < 0 then -ask.requested else 0
  }

  /** A grant takes an agent beyond its own share only by what the pool gives. */
  lemma GrantOver(p: Plan, l: Ledger, agent: Name, api: Name, requested: int)
    ensures var granted := Granted(p, l, agent, api, requested);
      var over := Max(0, Used(l, agent, api) + granted - Max(0, p.own(agent, api)));
      over <= Over(p, l, agent, api) || over <= Over(p, l, agent, api) + p.daily(api) - Total(l, api)
  {
  }

  lemma NextOwed(p: Plan, l: Ledger, ask: Ask, api: Name, l': Ledger)
    requires l' == Next(p, l, ask)
    ensures Sum(OwedOf(l', api), l'.Keys) <= Sum(OwedOf(l, api), l.Keys) + Credit(ask, api)
  {
    SpendSpends(l, ask.agent, ask.api, Granted(p, l, ask.agent, ask.api, ask.requested));
    SpentChanges(OwedOf(l, api), OwedOf(l', api), l, l', ask.agent);
  }

  lemma NextOver(p: Plan, l: Ledger, ask: Ask, api: Name, l': Ledger)
    requires l' == Next(p, l, ask)
    ensures AllOver(p, l', api) <= AllOver(p, l, api)
      || AllOver(p, l', api) <= AllOver(p, l, api) + p.daily(api) - Total(l, api)
  {
    SpendSpends(l, ask.agent, ask.api, Granted(p, l, ask.agent, ask.api, ask.requested));
    SpentChanges(OverOf(p, l, api), OverOf(p, l', api), l, l', ask.agent);
    GrantOver(p, l, ask.agent, ask.api, ask.requested);
  }

  lemma NextKeeps(p: Plan, l: Ledger, ask: Ask, l': Ledger, api: Name, credits: nat)
    requires Kept(p, l, api, credits) && Takes(p, l, ask, l')
    ensures Kept(p, l', api, credits + Credit(ask, api))
  {
    NextOwed(p, l, ask, api, l');
    NextOver(p, l, ask, api, l');
    OverBelow(p, l, api);
  }

  /** No reservation is starved: whatever others have taken, an agent is granted what it
      asks for up to the rest of its own share. */
  lemma NeverStarved(p: Plan, l: Ledger, ask: Ask)
    ensures Min(ask.requested, Unused(p, l, ask.agent, ask.api)) <= Granted(p, l, ask.agent, ask.api, ask.requested)
    ensures Granted(p, l, ask.agent, ask.api, ask.requested) <= ask.requested
  {
  }

  // ----- runs -----

  /** ls are the ledgers of a day, before and after each of the requests. */
  ghost predicate IsDay(p: Plan, ls: seq<Ledger>, asks: seq<Ask>) {
    && |ls| == |asks| + 1 && ls[0] == map[]
    && (forall i :: 0 <= i < |asks| ==> Takes(p, ls[i], asks[i], ls[i + 1]))
  }

  /** All that was credited in the first k requests. */
  ghost function Credits(asks: seq<Ask>, k: nat, api: Name): nat
    requires k <= |asks|
  {
    if k == 0 then 0 else Credits(asks, k - 1, api) + Credit(asks[k - 1], api)
  }

  lemma NothingUsed(p: Plan, api: Name)
    ensures Kept(p, map[], api, 0)
  {
    var none: Ledger := map[];
    assert none.Keys == {};
  }

  lemma {:induction false} DayKeeps(p: Plan, ls: seq<Ledger>, asks: seq<Ask>, api: Name, k: nat)
    requires IsDay(p, ls, asks) && k < |ls|
    ensures Kept(p, ls[k], api, Credits(asks, k, api))
  {
    if k == 0 {
      NothingUsed(p, api);
    } else {
      DayKeeps(p, ls, asks, api, k - 1);
      NextKeeps(p, ls[k - 1], asks[k - 1], ls[k], api, Credits(asks, k - 1, api));
    }
  }

  /** What an agent has asked of an API in the first k requests. */
  ghost function Asked(asks: seq<Ask>, k: nat, agent: Name, api: Name): int
    requires k <= |asks|
  {
    if k == 0 then 0
    else
      var last := asks[k - 1];
      Asked(asks, k - 1, agent, api) + (if last.agent == agent && last.api == api then last.requested else 0)
  }

  lemma NextUsed(p: Plan, l: Ledger, ask: Ask, agent: Name, api: Name)
    ensures Used(Next(p, l, ask), agent, api) ==
      Used(l, agent, api) + (if ask.agent == agent && ask.api == api then Granted(p, l, agent, api, ask.requested) else 0)
  {
    SpendSpends(l, ask.agent, ask.api, Granted(p, l, ask.agent, ask.api, ask.requested));
  }

  /** Whenever the agent asks for more, it stays within its own share. */
  ghost predicate WithinShare(p: Plan, asks: seq<Ask>, agent: Name, api: Name, k: nat)
    requires k <= |asks|
  {
    forall j {:trigger asks[j]} :: 0 <= j < k && asks[j].agent == agent && asks[j].api == api && asks[j].requested > 0 ==>
      Asked(asks, j + 1, agent, api) <= p.own(agent, api)
  }

  /** Such an agent is granted everything, whatever the others take. */
  lemma {:induction false} ReservationHonoured(p: Plan, ls: seq<Ledger>, asks: seq<Ask>, agent: Name, api: Name, k: nat)
    requires IsDay(p, ls, asks) && k < |ls| && WithinShare(p, asks, agent, api, k)
    ensures Used(ls[k], agent, api) == Asked(asks, k, agent, api)
  {
    if k > 0 {
      ReservationHonoured(p, ls, asks, agent, api, k - 1);
      NextUsed(p, ls[k - 1], asks[k - 1], agent, api);
      assert Takes(p, ls[k - 1], asks[k - 1], ls[k]);
      assert Asked(asks, k, agent, api) ==
        Asked(asks, k - 1, agent, api)
        + (if asks[k - 1].agent == agent && asks[k - 1].api == api then asks[k - 1].requested else 0);
    }
  }

  /** An agent that stays within its reserved share of a budget, whenever it asks for more,
      is granted everything it asks for on every day. */
  lemma ShareHonoured(t: Tables, ls: seq<Ledger>, asks: seq<Ask>, agent: Name, api: Name, k: nat)
    requires IsDay(PlanOf(t), ls, asks) && k < |ls| && api in t.daily && agent in t.shares && api in t.shares[agent]
    requires t.daily[api] as real * t.shares[agent][api] >= 0.0
    requires forall j {:trigger asks[j]} ::
      0 <= j < k && asks[j].agent == agent && asks[j].api == api && asks[j].requested > 0 ==>
        Asked(asks, j + 1, agent, api) as real <= t.daily[api] as real * t.shares[agent][api]
    ensures Used(ls[k], agent, api) == Asked(asks, k, agent, api)
  {
    OwnIsTruncated(t, agent, api);
    ReservationHonoured(PlanOf(t), ls, asks, agent, api, k);
  }

  /** A request is only cut if nothing is left: the agent then has its whole share, and the
      budget is used up. */
  lemma CutLeavesNothing(p: Plan, l: Ledger, ask: Ask, l': Ledger)
    requires Takes(p, l, ask, l') && Used(l', ask.agent, ask.api) < Used(l, ask.agent, ask.api) + ask.requested
    ensures Used(l', ask.agent, ask.api) >= p.own(ask.agent, ask.api) && Total(l', ask.api) >= p.daily(ask.api)
  {
    NextOne(p, l, ask, ask.agent, l');
  }

  ghost predicate NoShares(p: Plan, api: Name) {
    forall agent :: p.own(agent, api) <= 0
  }

  ghost predicate NoCredits(asks: seq<Ask>) {
    forall i :: 0 <= i < |asks| ==> asks[i].requested >= 0
  }

  lemma {:induction false} NoneCredited(asks: seq<Ask>, k: nat, api: Name)
    requires NoCredits(asks) && k <= |asks|
    ensures Credits(asks, k, api) == 0
  {
    if k > 0 {
      NoneCredited(asks, k - 1, api);
    }
  }

  lemma {:induction false} SumAtMost(f: Name -> int, g: Name -> int, agents: set<Name>)
    requires forall a :: a in agents ==> f(a) <= g(a)
    ensures Sum(f, agents) <= Sum(g, agents)
    decreases agents
  {
    if agents != {} {
      var a :| a in agents;
      SumPick(f, agents, a);
      SumPick(g, agents, a);
      SumAtMost(f, g, agents - {a});
    }
  }

  lemma WithinCap(p: Plan, ls: seq<Ledger>, asks: seq<Ask>, api: Name, k: nat)
    requires IsDay(p, ls, asks) && k < |ls| && NoShares(p, api)
    ensures Total(ls[k], api) <= Cap(p, api) + Credits(asks, k, api)
  {
    DayKeeps(p, ls, asks, api, k);
    SumAtMost(UsedOf(ls[k], api), OverOf(p, ls[k], api), ls[k].Keys);
  }

  lemma NextTotal(p: Plan, l: Ledger, ask: Ask)
    ensures Total(Next(p, l, ask), ask.api) == Total(l, ask.api) + Granted(p, l, ask.agent, ask.api, ask.requested)
    ensures forall b :: b != ask.agent ==> Used(Next(p, l, ask), b, ask.api) == Used(l, b, ask.api)
  {
    var granted := Granted(p, l, ask.agent, ask.api, ask.requested);
    SpendSpends(l, ask.agent, ask.api, granted);
    SpentAddsTotal(l, Next(p, l, ask), ask.agent, ask.api, granted, ask.api);
  }

  /** If `sharer` has a share, another agent can take the whole budget first. */
  lemma Overdraws(p: Plan, api: Name, sharer: Name, other: Name, first: Ask, second: Ask, l1: Ledger, l2: Ledger)
    requires p.own(sharer, api) > 0 && other != sharer
    requires first == Ask(other, api, Cap(p, api)) && second == Ask(sharer, api, 1)
    requires l1 == Next(p, map[], first) && l2 == Next(p, l1, second)
    ensures IsDay(p, [map[], l1, l2], [first, second]) && Total(l2, api) > Cap(p, api)
  {
    NextTotal(p, map[], first);
    NextTotal(p, l1, second);
    assert Total(map[], api) == 0 && Used(map[], sharer, api) == 0;
  }

  /** What one request does to the total and to the use of the agent a. */
  lemma NextOne(p: Plan, l: Ledger, ask: Ask, a: Name, l': Ledger)
    requires l' == Next(p, l, ask)
    ensures var granted := Granted(p, l, ask.agent, ask.api, ask.requested);
      && Total(l', ask.api) == Total(l, ask.api) + granted
      && Used(l', a, ask.api) == Used(l, a, ask.api) + (if a == ask.agent then granted else 0)
  {
    NextTotal(p, l, ask);
    NextUsed(p, l, ask, a, ask.api);
  }

  /** A request of all that the pool has takes at least that, and one of a credit takes it
      whatever the pool has. */
  lemma GrantedAtLeast(p: Plan, l: Ledger, agent: Name, api: Name, requested: int)
    ensures requested <= p.daily(api) - Total(l, api) ==> Granted(p, l, agent, api, requested) == requested
    ensures Granted(p, l, agent, api, requested) >= Min(requested, p.own(agent, api) - Used(l, agent, api))
  {
  }

  /** An agent is credited, another takes the whole pool, and the first uses its credit. */
  lemma CreditOverdraws(p: Plan, api: Name, a: Name, b: Name, k: int, asks: seq<Ask>, l1: Ledger, l2: Ledger, l3: Ledger)
    requires a != b && k >= 1 && k + p.daily(api) > Cap(p, api) && k + p.daily(api) + p.own(a, api) > Cap(p, api)
    requires asks == [Ask(a, api, -k), Ask(b, api, p.daily(api) + k), Ask(a, api, k)]
    requires l1 == Next(p, map[], asks[0]) && l2 == Next(p, l1, asks[1]) && l3 == Next(p, l2, asks[2])
    ensures Total(l3, api) > Cap(p, api)
  {
    assert Total(map[], api) == 0 && Used(map[], a, api) == 0;
    assert Granted(p, map[], a, api, -k) == -k;
    NextOne(p, map[], asks[0], a, l1);
    GrantedAtLeast(p, l1, b, api, p.daily(api) + k);
    NextOne(p, l1, asks[1], a, l2);
    GrantedAtLeast(p, l2, a, api, k);
    NextOne(p, l2, asks[2], a, l3);
  }

  /** The budget holds on every day; on days with negative requests too, if they count. */
  ghost predicate CapHolds(p: Plan, api: Name, credits: bool) {
    forall ls, asks {:trigger IsDay(p, ls, asks)} :: IsDay(p, ls, asks) && (credits || NoCredits(asks)) ==>
      Total(ls[|asks|], api) <= Cap(p, api)
  }

  function Another(a: Name): (b: Name)
    ensures b != a
  {
    var b := Name(a.text + "'");
    assert |b.text| > |a.text|;
    b
  }

  lemma ThreeAsks(p: Plan, asks: seq<Ask>, l1: Ledger, l2: Ledger, l3: Ledger)
    requires |asks| == 3 && Takes(p, map[], asks[0], l1) && Takes(p, l1, asks[1], l2) && Takes(p, l2, asks[2], l3)
    ensures IsDay(p, [map[], l1, l2, l3], asks)
  {
  }

  lemma CreditDay(p: Plan, api: Name) returns (ls: seq<Ledger>, asks: seq<Ask>)
    ensures IsDay(p, ls, asks) && Total(ls[|asks|], api) > Cap(p, api)
  {
    var a := Name("");
    var k := 1 + Max(p.daily(api), -p.daily(api)) + Max(p.own(a, api), -p.own(a, api));
    asks := [Ask(a, api, -k), Ask(Another(a), api, p.daily(api) + k), Ask(a, api, k)];
    var l1 := Next(p, map[], asks[0]);
    var l2 := Next(p, l1, asks[1]);
    var l3 := Next(p, l2, asks[2]);
    CreditOverdraws(p, api, a, Another(a), k, asks, l1, l2, l3);
    ThreeAsks(p, asks, l1, l2, l3);
    ls := [map[], l1, l2, l3];
  }

  /** An API's budget holds on every day just when no agent has a share of it and no request
      is negative. */
  lemma CapHoldsIff(p: Plan, api: Name, credits: bool)
    ensures CapHolds(p, api, credits) <==> NoShares(p, api) && !credits
  {
    if credits {
      var ls, asks := CreditDay(p, api);
    } else if NoShares(p, api) {
      forall ls, asks | IsDay(p, ls, asks) && NoCredits(asks) ensures Total(ls[|asks|], api) <= Cap(p, api) {
        WithinCap(p, ls, asks, api, |asks|);
        NoneCredited(asks, |asks|, api);
      }
    } else {
      var sharer :| p.own(sharer, api) > 0;
      var first, second := Ask(Another(sharer), api, Cap(p, api)), Ask(sharer, api, 1);
      var l1 := Next(p, map[], first);
      Overdraws(p, api, sharer, Another(sharer), first, second, l1, Next(p, l1, second));
    }
  }

  // ----- the tables shipped -----

  const DAILY: map<Name, int> := map[
    Name("dataforseo_requests") := 167,
    Name("gmail_sends") := 50,
    Name("exa_requests") := 1000,
    Name("tavily_requests") := 1000,
    Name("pagespeed_requests") := 1000,
    Name("gsc_requests") := 5000,
    Name("llm_tokens") := 100000
  ]

  const SENTINEL: map<Name, real> := map[Name("dataforseo") := 0.05, Name("gsc") := 0.40, Name("pagespeed") := 0.10]
  const FORGE: map<Name, real> := map[Name("dataforseo") := 0.20, Name("exa") := 0.40, Name("tavily") := 0.50,
                                      Name("llm") := 0.50, Name("gsc") := 0.20]
  const TECHNICAL: map<Name, real> := map[Name("pagespeed") := 0.80, Name("gsc") := 0.20]
  const SCOUT: map<Name, real> := map[Name("dataforseo") := 0.60, Name("gsc") := 0.10]
  const OUTREACH: map<Name, real> := map[Name("gmail") := 1.00, Name("exa") := 0.40, Name("tavily") := 0.30,
                                         Name("dataforseo") := 0.50, Name("llm") := 0.30]
  const COMPETITOR: map<Name, real> := map[Name("exa") := 0.20, Name("tavily") := 0.20, Name("dataforseo") := 0.15]

  const SHARES: map<Name, map<Name, real>> := map[
    Name("sentinel") := SENTINEL,
    Name("forge") := FORGE,
    Name("technical") := TECHNICAL,
    Name("scout") := SCOUT,
    Name("outreach") := OUTREACH,
    Name("competitor") := COMPETITOR
  ]

  const SHIPPED := Tables(DAILY, SHARES)

  predicate Underscored(name: Name) {
    '_' in name.text
  }

  lemma DailyUnderscored(api: Name)
    requires api in DAILY
    ensures Underscored(api)
  {
    assert api.text in {"dataforseo_requests", "gmail_sends", "exa_requests", "tavily_requests", "pagespeed_requests",
                        "gsc_requests", "llm_tokens"};
    assert "dataforseo_requests"[10] == "gmail_sends"[5] == "exa_requests"[3] == "tavily_requests"[6]
      == "pagespeed_requests"[9] == "gsc_requests"[3] == "llm_tokens"[3] == '_';
  }

  lemma RowsPlain(api: Name)
    requires api in SENTINEL || api in FORGE || api in TECHNICAL || api in SCOUT || api in OUTREACH || api in COMPETITOR
    ensures !Underscored(api)
  {
    assert api.text in {"dataforseo", "gsc", "pagespeed", "exa", "tavily", "llm", "gmail"};
  }

  lemma SharesPlain(agent: Name, api: Name)
    requires agent in SHARES && api in SHARES[agent]
    ensures !Underscored(api)
  {
    RowsPlain(api);
  }

  lemma NothingOwned(t: Tables, agent: Name, api: Name)
    requires Daily(t, api) == 0 || Share(t, agent, api) == 0.0
    ensures Own(t, agent, api) == 0
  {
    assert Daily(t, api) as real * Share(t, agent, api) == 0.0;
  }

  lemma ShippedUnowned(agent: Name, api: Name)
    ensures Daily(SHIPPED, api) == 0 || Share(SHIPPED, agent, api) == 0.0
  {
    if api in DAILY {
      DailyUnderscored(api);
      if agent in SHARES && api in SHARES[agent] {
        SharesPlain(agent, api);
      }
    }
  }

  /** The shipped shares name no API that has a budget, so none of them reserves anything
      and every budget holds while no request is negative. */
  lemma ShippedCapsHold(api: Name)
    ensures NoShares(PlanOf(SHIPPED), api) && CapHolds(PlanOf(SHIPPED), api, false)
  {
    forall agent ensures PlanOf(SHIPPED).own(agent, api) <= 0 {
      ShippedUnowned(agent, api);
      NothingOwned(SHIPPED, agent, api);
    }
    CapHoldsIff(PlanOf(SHIPPED), api, false);
  }
}
