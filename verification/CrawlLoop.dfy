/** The crawl loop of `SentinelAgent.execute` in source_agents/crawler.py. */
module CrawlLoop {
  import opened Basics
  import opened Frontier

  /** What fetching a page gives: a status and the internal links. */
  datatype Visit = Visit(status: int, links: seq<Url>)

  /** The site as the crawler meets it; no page is fetched twice. */
  datatype Site = Site(fetch: Url -> Visit, allowed: Url -> bool)

  datatype Rules = Rules(normal: Normal, maxUrls: int, site: Site, maxDepth: int)

  datatype Found = Blocked(url: Url) | Crawled(url: Url, status: int)

  function FoundAt(site: Site, e: Entry): Found {
    if !site.allowed(e.url) then Blocked(e.url) else Crawled(e.url, site.fetch(e.url).status)
  }

  // ----- what crawling does to the frontier -----

  /** The pages seen and the entries waiting. */
  datatype Line = Line(seen: set<Url>, queue: seq<Entry>)

  function Offered(k: Rules, l: Line, e: Entry): Line {
    if k.normal(e.url) in l.seen || |l.seen| >= k.maxUrls then l
    else Line(l.seen + {k.normal(e.url)}, InsertAfter(l.queue, e))
  }

  function OfferedAll(k: Rules, l: Line, links: seq<Url>, depth: int): Line
    decreases |links|
  {
    if links == [] then l
    else Offered(k, OfferedAll(k, l, links[..|links| - 1], depth), Entry(links[|links| - 1], depth, depth + 2))
  }

  /** Links are followed above the depth limit only. */
  function Explored(k: Rules, l: Line, e: Entry): Line {
    if k.site.allowed(e.url) && e.depth < k.maxDepth then OfferedAll(k, l, k.site.fetch(e.url).links, e.depth + 1) else l
  }

  lemma ExploredOffers(k: Rules, l: Line, e: Entry, links: seq<Url>)
    requires links == k.site.fetch(e.url).links
    ensures Explored(k, l, e) ==
      if k.site.allowed(e.url) && e.depth < k.maxDepth then OfferedAll(k, l, links, e.depth + 1) else l
  {
  }

  function ExploredAll(k: Rules, l: Line, batch: seq<Entry>): Line
    decreases |batch|
  {
    if batch == [] then l else Explored(k, ExploredAll(k, l, batch[..|batch| - 1]), batch[|batch| - 1])
  }

  /** One result for each entry handed out, in order. */
  ghost predicate Reported(site: Site, entries: seq<Entry>, results: seq<Found>) {
    |results| == |entries| && forall i :: 0 <= i < |entries| ==> results[i] == FoundAt(site, entries[i])
  }

  lemma OneMore(k: Rules, l: Line, batch: seq<Entry>, i: nat, results: seq<Found>)
    requires i < |batch| && Reported(k.site, batch[..i], results)
    ensures ExploredAll(k, l, batch[..i + 1]) == Explored(k, ExploredAll(k, l, batch[..i]), batch[i])
    ensures Reported(k.site, batch[..i + 1], results + [FoundAt(k.site, batch[i])])
  {
    assert batch[..i + 1][..i] == batch[..i];
  }

  // ----- pages seen and work left -----

  /** l' comes after l: nothing seen is forgotten, and entries waiting grow only as pages
      seen do. */
  ghost predicate Grown(l: Line, l': Line) {
    l.seen <= l'.seen && |l'.queue| - |l.queue| == |l'.seen| - |l.seen|
  }

  ghost predicate AllSeen(k: Rules, links: seq<Url>, l: Line) {
    (forall i :: 0 <= i < |links| ==> k.normal(links[i]) in l.seen) || |l.seen| >= k.maxUrls
  }

  lemma SeenGrows(small: set<Url>, large: set<Url>)
    requires small <= large
    ensures |small| <= |large|
  {
    var more := large - small;
    assert large == small + more;
  }

  lemma {:induction false} OfferedAllSees(k: Rules, l: Line, links: seq<Url>, depth: int)
    ensures Grown(l, OfferedAll(k, l, links, depth)) && AllSeen(k, links, OfferedAll(k, l, links, depth))
    decreases |links|
  {
    if links != [] {
      OfferedAllSees(k, l, links[..|links| - 1], depth);
    }
  }

  /** The links of a page above the depth limit have all been seen, or the frontier is
      full. */
  ghost predicate Followed(k: Rules, e: Entry, l: Line) {
    k.site.allowed(e.url) && e.depth < k.maxDepth ==> AllSeen(k, k.site.fetch(e.url).links, l)
  }

  ghost predicate AllFollowed(k: Rules, entries: seq<Entry>, l: Line) {
    forall i :: 0 <= i < |entries| ==> Followed(k, entries[i], l)
  }

  lemma FollowedLater(k: Rules, entries: seq<Entry>, l: Line, l': Line)
    requires AllFollowed(k, entries, l) && Grown(l, l')
    ensures AllFollowed(k, entries, l')
  {
    SeenGrows(l.seen, l'.seen);
    forall i | 0 <= i < |entries| ensures Followed(k, entries[i], l') {
      assert Followed(k, entries[i], l);
    }
  }

  lemma {:induction false} ExploredAllFollows(k: Rules, l: Line, batch: seq<Entry>)
    ensures Grown(l, ExploredAll(k, l, batch)) && AllFollowed(k, batch, ExploredAll(k, l, batch))
    decreases |batch|
  {
    if batch != [] {
      var n := |batch| - 1;
      var before := ExploredAll(k, l, batch[..n]);
      var after := Explored(k, before, batch[n]);
      ExploredAllFollows(k, l, batch[..n]);
      OfferedAllSees(k, before, k.site.fetch(batch[n].url).links, batch[n].depth + 1);
      FollowedLater(k, batch[..n], before, after);
      forall i | 0 <= i <= n ensures Followed(k, batch[i], after) {
        assert i < n ==> batch[i] == batch[..n][i];
      }
    }
  }

  // ----- turns of the loop -----

  /** The entries that a turn takes: up to `burst` of them. */
  function BatchOf(l: Line, burst: nat): (batch: seq<Entry>)
    ensures batch <= l.queue && |batch| <= burst
  {
    if burst < |l.queue| then l.queue[..burst] else l.queue
  }

  function Turned(k: Rules, burst: nat, l: Line): Line {
    var n := |BatchOf(l, burst)|;
    ExploredAll(k, Line(l.seen, l.queue[n..]), BatchOf(l, burst))
  }

  /** ls are the pages seen and the entries waiting before and after each turn. */
  ghost predicate IsCrawl(k: Rules, burst: nat, ls: seq<Line>) {
    ls != [] && forall i {:trigger Turned(k, burst, ls[i])} :: 0 <= i < |ls| - 1 ==> ls[i + 1] == Turned(k, burst, ls[i])
  }

  /** What the first n turns take from the frontier. */
  ghost function Taken(ls: seq<Line>, burst: nat, n: nat): seq<Entry>
    requires n <= |ls|
  {
    if n == 0 then [] else Taken(ls, burst, n - 1) + BatchOf(ls[n - 1], burst)
  }

  /** Pages not seen yet that the frontier has room for, and entries waiting. */
  function Work(k: Rules, l: Line): int {
    Limit(k.maxUrls) - |l.seen| + |l.queue|
  }

  /** A turn lowers the work left by its batch. */
  lemma TurnWorks(k: Rules, burst: nat, l: Line)
    ensures Work(k, Turned(k, burst, l)) == Work(k, l) - |BatchOf(l, burst)|
    ensures l.seen <= Turned(k, burst, l).seen && AllFollowed(k, BatchOf(l, burst), Turned(k, burst, l))
  {
    ExploredAllFollows(k, Line(l.seen, l.queue[|BatchOf(l, burst)|..]), BatchOf(l, burst));
  }

  /** Without a burst a turn changes nothing, so the loop would never end. */
  lemma NoBurstNoProgress(k: Rules, l: Line)
    ensures Turned(k, 0, l) == l
  {
    assert l.queue[..0] == [] && l.queue[0..] == l.queue;
  }

  lemma FollowedJoined(k: Rules, entries: seq<Entry>, batch: seq<Entry>, l: Line, l': Line)
    requires AllFollowed(k, entries, l) && l.seen <= l'.seen && AllFollowed(k, batch, l')
    ensures AllFollowed(k, entries + batch, l')
  {
    SeenGrows(l.seen, l'.seen);
    forall i | 0 <= i < |entries| ensures Followed(k, entries[i], l') {
      assert Followed(k, entries[i], l);
    }
  }

  /** Throughout, the links of every entry taken have been followed. */
  lemma {:induction false} CrawlFollows(k: Rules, burst: nat, ls: seq<Line>, n: nat)
    requires IsCrawl(k, burst, ls) && n < |ls|
    ensures AllFollowed(k, Taken(ls, burst, n), ls[n])
    decreases n
  {
    if n > 0 {
      CrawlFollows(k, burst, ls, n - 1);
      assert ls[n] == Turned(k, burst, ls[n - 1]);
      TurnWorks(k, burst, ls[n - 1]);
      FollowedJoined(k, Taken(ls, burst, n - 1), BatchOf(ls[n - 1], burst), ls[n - 1], ls[n]);
    }
  }

  // ----- the order in which pages are crawled -----

  ghost predicate Sorted(queue: seq<Entry>) {
    forall i, j :: 0 <= i < j < |queue| ==> !Before(queue[j], queue[i])
  }

  /** Start pages have priority 0, 1 or 2, and a page found at depth d has d + 2. */
  ghost predicate Graded(e: Entry) {
    if e.depth == 0 then 0 <= e.priority <= 2 else e.depth > 0 && e.priority == e.depth + 2
  }

  /** A sorted queue of entries at depth d or one deeper. */
  ghost predicate Layered(queue: seq<Entry>, d: int) {
    Sorted(queue) && forall i :: 0 <= i < |queue| ==> InLayer(queue[i], d)
  }

  ghost predicate InLayer(e: Entry, d: int) {
    Graded(e) && d <= e.depth <= d + 1
  }

  lemma {:induction false} InsertLayered(queue: seq<Entry>, e: Entry, d: int)
    requires Layered(queue, d) && InLayer(e, d)
    ensures Layered(InsertAfter(queue, e), d)
    decreases |queue|
  {
    var n := |queue|;
    if n > 0 && Before(e, queue[n - 1]) {
      InsertLayered(queue[..n - 1], e, d);
      InsertMembers(queue[..n - 1], e);
      var r := InsertAfter(queue[..n - 1], e);
      forall i | 0 <= i < n ensures !Before(queue[n - 1], r[i]) {
        assert r[i] in r;
      }
    } else {
      forall i | 0 <= i < n ensures !Before(e, queue[i]) {
        assert i < n - 1 ==> !Before(queue[n - 1], queue[i]);
      }
    }
  }

  lemma {:induction false} OfferedAllLayered(k: Rules, l: Line, links: seq<Url>, depth: int, d: int)
    requires Layered(l.queue, d) && d <= depth <= d + 1 && depth > 0
    ensures Layered(OfferedAll(k, l, links, depth).queue, d)
    decreases |links|
  {
    if links != [] {
      var n := |links| - 1;
      OfferedAllLayered(k, l, links[..n], depth, d);
      InsertLayered(OfferedAll(k, l, links[..n], depth).queue, Entry(links[n], depth, depth + 2), d);
    }
  }

  lemma {:induction false} ExploredAllLayered(k: Rules, l: Line, batch: seq<Entry>, d: int)
    requires Layered(l.queue, d) && forall i :: 0 <= i < |batch| ==> d <= batch[i].depth + 1 <= d + 1 && batch[i].depth >= 0
    ensures Layered(ExploredAll(k, l, batch).queue, d)
    decreases |batch|
  {
    if batch != [] {
      var n := |batch| - 1;
      var before := ExploredAll(k, l, batch[..n]);
      ExploredAllLayered(k, l, batch[..n], d);
      OfferedAllLayered(k, before, k.site.fetch(batch[n].url).links, batch[n].depth + 1, d);
    }
  }

  /** A turn takes entries at depths up to some d', and leaves a queue from d' on. */
  lemma TurnLayered(k: Rules, burst: nat, l: Line, d: int) returns (d': int)
    requires Layered(l.queue, d) && burst >= 1
    ensures d <= d' && Layered(Turned(k, burst, l).queue, d')
    ensures forall i :: 0 <= i < |BatchOf(l, burst)| ==> d <= BatchOf(l, burst)[i].depth <= d'
    ensures forall i, j :: 0 <= i < j < |BatchOf(l, burst)| ==> BatchOf(l, burst)[i].depth <= BatchOf(l, burst)[j].depth
  {
    var batch := BatchOf(l, burst);
    var n := |batch|;
    forall i, j | 0 <= i < j < |l.queue| ensures l.queue[i].depth <= l.queue[j].depth {
      assert InLayer(l.queue[i], d) && InLayer(l.queue[j], d);
    }
    forall i | 0 <= i < |l.queue| ensures InLayer(l.queue[i], d) {
    }
    d' := if n == 0 then d else batch[n - 1].depth;
    var rest := l.queue[n..];
    forall i | 0 <= i < |rest| ensures InLayer(rest[i], d') {
      assert rest[i] == l.queue[n + i];
    }
    ExploredAllLayered(k, Line(l.seen, rest), batch, d');
  }

  /** From start pages alone, the crawl takes pages in order of depth. */
  lemma {:induction false} DepthsAscend(k: Rules, burst: nat, ls: seq<Line>, n: nat) returns (d: int)
    requires IsCrawl(k, burst, ls) && n < |ls| && burst >= 1 && Layered(ls[0].queue, 0)
    ensures Layered(ls[n].queue, d)
    ensures forall i :: 0 <= i < |Taken(ls, burst, n)| ==> Taken(ls, burst, n)[i].depth <= d
    ensures forall i, j :: 0 <= i < j < |Taken(ls, burst, n)| ==>
      Taken(ls, burst, n)[i].depth <= Taken(ls, burst, n)[j].depth
    decreases n
  {
    if n == 0 {
      d := 0;
    } else {
      var before := DepthsAscend(k, burst, ls, n - 1);
      assert ls[n] == Turned(k, burst, ls[n - 1]);
      d := TurnLayered(k, burst, ls[n - 1], before);
    }
  }

  /** When nothing is waiting and the frontier never filled up, the pages handed out are
      closed under links, down to the depth limit. */
  lemma LinksHandedOut(k: Rules, at: Arrivals, seen: set<Url>, handed: seq<Entry>, e: Entry, link: Url)
    requires Whole(k.normal, at, seen, handed, []) && |seen| < k.maxUrls && AllFollowed(k, handed, Line(seen, []))
    requires e in handed && k.site.allowed(e.url) && e.depth < k.maxDepth && link in k.site.fetch(e.url).links
    ensures Has(k.normal, handed, k.normal(link))
  {
    var i :| 0 <= i < |handed| && handed[i] == e;
    assert Followed(k, handed[i], Line(seen, []));
    assert k.normal(link) in seen;
  }

  class Crawler {
    const frontier: URLFrontier
    const site: Site
    const burst: int
    const maxDepth: int

    constructor (frontier: URLFrontier, site: Site, burst: int, maxDepth: int)
      ensures this.frontier == frontier && this.site == site && this.burst == burst && this.maxDepth == maxDepth
    {
      this.frontier, this.site, this.burst, this.maxDepth := frontier, site, burst, maxDepth;
    }

    ghost function K(): Rules {
      Rules(frontier.normal, frontier.maxUrls, site, maxDepth)
    }

    ghost function Now(): Line
      reads frontier
    {
      Line(frontier.seen, frontier.queue)
    }

    method AddLinks(links: seq<Url>, depth: int)
      requires frontier.Valid()
      modifies frontier
      ensures frontier.Valid() && frontier.handed == old(frontier.handed)
      ensures Now() == OfferedAll(K(), old(Now()), links, depth)
    {
      for i := 0 to |links|
        invariant frontier.Valid() && frontier.handed == old(frontier.handed)
        invariant Now() == OfferedAll(K(), old(Now()), links[..i], depth)
      {
        assert links[..i + 1][..i] == links[..i];
        var added := frontier.Add(links[i], depth, depth + 2);
      }
      assert links[..|links|] == links;
    }

    method CrawlOne(e: Entry) returns (r: Found)
      requires frontier.Valid()
      modifies frontier
      ensures frontier.Valid() && frontier.handed == old(frontier.handed)
      ensures r == FoundAt(site, e) && Now() == Explored(K(), old(Now()), e)
      ensures r == if site.allowed(e.url) then Crawled(e.url, site.fetch(e.url).status) else Blocked(e.url)
      ensures !site.allowed(e.url) || e.depth >= maxDepth ==> Now() == old(Now())
    {
      ExploredOffers(K(), Now(), e, site.fetch(e.url).links);
      if !site.allowed(e.url) {
        return Blocked(e.url);
      }
      var visit := site.fetch(e.url);
      r := Crawled(e.url, visit.status);
      if e.depth < maxDepth {
        AddLinks(visit.links, e.depth + 1);
      }
    }

    method CrawlBatch(batch: seq<Entry>) returns (results: seq<Found>)
      requires frontier.Valid()
      modifies frontier
      ensures frontier.Valid() && frontier.handed == old(frontier.handed)
      ensures Reported(site, batch, results) && Now() == ExploredAll(K(), old(Now()), batch)
    {
      ghost var k, start := K(), Now();
      results := [];
      for i := 0 to |batch|
        invariant frontier.Valid() && frontier.handed == old(frontier.handed)
        invariant Reported(site, batch[..i], results) && Now() == ExploredAll(k, start, batch[..i])
      {
        OneMore(k, start, batch, i, results);
        var r := CrawlOne(batch[i]);
        assert Now() == ExploredAll(k, start, batch[..i + 1]);
        results := results + [r];
      }
      assert batch[..|batch|] == batch;
    }

    /** One turn of the loop. */
    method Turn() returns (results: seq<Found>, ghost batch: seq<Entry>)
      requires frontier.Valid()
      modifies frontier
      ensures frontier.Valid() && frontier.handed == old(frontier.handed) + batch
      ensures batch == BatchOf(old(Now()), Limit(burst))
      ensures Now() == Turned(K(), Limit(burst), old(Now())) && Reported(site, batch, results)
    {
      var taken := frontier.NextBatch(burst);
      batch := taken;
      results := CrawlBatch(taken);
    }

    /** A turn, added to the record of a run. */
    method TurnOn(results: seq<Found>, ghost first: Line, ghost before: seq<Entry>, ghost ls: seq<Line>)
      returns (results': seq<Found>, ghost ls': seq<Line>)
      requires frontier.Valid() && burst >= 1 && frontier.queue != []
      requires Progress(K(), burst, first, before, ls, Now(), frontier.handed, results)
      modifies frontier
      ensures frontier.Valid() && Progress(K(), burst, first, before, ls', Now(), frontier.handed, results')
      ensures |results| < |results'| <= |results| + burst
      ensures Work(K(), Now()) < old(Work(K(), Now()))
    {
      ghost var k, l, handed := K(), Now(), frontier.handed;
      TurnWorks(k, burst, l);
      var more, batch := Turn();
      TurnDone(k, burst, first, before, ls, l, handed, results, Now(), batch, frontier.handed, more);
      results', ls' := results + more, ls + [Now()];
    }

    /** Crawl until nothing is waiting or there are `maxUrls` results.  If the loop is
        entered with a burst below one, it takes nothing from the frontier and never ends. */
    method Run(maxUrls: int) returns (results: seq<Found>, ghost ls: seq<Line>)
      requires frontier.Valid() && (burst >= 1 || frontier.queue == [] || maxUrls <= 0)
      modifies frontier
      ensures frontier.Valid()
      ensures Progress(K(), Limit(burst), old(Now()), old(frontier.handed), ls, Now(), frontier.handed, results)
      ensures |results| <= if maxUrls > 0 then maxUrls + Limit(burst) - 1 else 0
      ensures frontier.queue == [] || |results| >= maxUrls
    {
      ghost var first, before := Now(), frontier.handed;
      results, ls := [], [first];
      while frontier.queue != [] && |results| < maxUrls
        invariant frontier.Valid() && Progress(K(), Limit(burst), first, before, ls, Now(), frontier.handed, results)
        invariant |results| <= if maxUrls > 0 then maxUrls + Limit(burst) - 1 else 0
        invariant burst >= 1 || frontier.queue == [] || maxUrls <= 0
        decreases Work(K(), Now())
      {
        results, ls := TurnOn(results, first, before, ls);
      }
    }
  }

  /** The turns in ls lead from `first` to l; what they take is handed out after `before`
      and reported in order. */
  ghost predicate Progress(k: Rules, burst: nat, first: Line, before: seq<Entry>, ls: seq<Line>, l: Line,
                           handed: seq<Entry>, results: seq<Found>) {
    && IsCrawl(k, burst, ls) && ls[0] == first && ls[|ls| - 1] == l
    && handed == before + Taken(ls, burst, |ls| - 1)
    && Reported(k.site, Taken(ls, burst, |ls| - 1), results)
  }

  lemma TurnDone(k: Rules, burst: nat, first: Line, before: seq<Entry>, ls: seq<Line>, l: Line, handed: seq<Entry>,
                 results: seq<Found>, l': Line, batch: seq<Entry>, handed': seq<Entry>, more: seq<Found>)
    requires Progress(k, burst, first, before, ls, l, handed, results) && l' == Turned(k, burst, l)
    requires batch == BatchOf(l, burst) && handed' == handed + batch && Reported(k.site, batch, more)
    ensures Progress(k, burst, first, before, ls + [l'], l', handed', results + more)
  {
    CrawlGrows(k, burst, ls, l');
    ReportedJoined(k.site, before, Taken(ls, burst, |ls| - 1), batch, results, more);
  }

  lemma ReportedJoined(site: Site, before: seq<Entry>, taken: seq<Entry>, batch: seq<Entry>, results: seq<Found>,
                       more: seq<Found>)
    requires Reported(site, taken, results) && Reported(site, batch, more)
    ensures Reported(site, taken + batch, results + more) && (before + taken) + batch == before + (taken + batch)
  {
  }

  lemma {:induction false} TakenFrom(ls: seq<Line>, more: seq<Line>, burst: nat, n: nat)
    requires n <= |ls|
    ensures Taken(ls + more, burst, n) == Taken(ls, burst, n)
    decreases n
  {
    if n > 0 {
      TakenFrom(ls, more, burst, n - 1);
    }
  }

  lemma CrawlGrows(k: Rules, burst: nat, ls: seq<Line>, l: Line)
    requires IsCrawl(k, burst, ls) && l == Turned(k, burst, ls[|ls| - 1])
    ensures IsCrawl(k, burst, ls + [l])
    ensures Taken(ls + [l], burst, |ls|) == Taken(ls, burst, |ls| - 1) + BatchOf(ls[|ls| - 1], burst)
  {
    var ls' := ls + [l];
    TakenFrom(ls, [l], burst, |ls| - 1);
    forall i {:trigger Turned(k, burst, ls'[i])} | 0 <= i < |ls'| - 1 ensures ls'[i + 1] == Turned(k, burst, ls'[i]) {
      assert i < |ls| - 1 ==> ls[i + 1] == Turned(k, burst, ls[i]);
    }
  }
}
