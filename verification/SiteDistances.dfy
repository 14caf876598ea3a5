/** The crawl of source_agents/crawler.py against the links of the whole site: depths are
    distances from the start pages, also once the frontier has filled up. */
module SiteDistances {
  import opened Basics
  import opened CrawlDistances
  import opened CrawlLoop
  import opened Frontier

  /** The other pages that fetching u leads to. */
  function Out(k: Rules, u: Url): set<Url> {
    (if k.site.allowed(u) then Pages(k, k.site.fetch(u).links) else {}) - {k.normal(u)}
  }

  /** URLs of one page lead to the same other pages. */
  ghost predicate Uniform(k: Rules) {
    forall u, v {:trigger k.normal(u), k.normal(v)} :: k.normal(u) == k.normal(v) ==> Out(k, u) == Out(k, v)
  }

  /** The page p of the site may be crawled under some URL and links to q there. */
  ghost predicate Edge(k: Rules, p: Url, q: Url) {
    exists u :: k.normal(u) == p && k.site.allowed(u) && q in Pages(k, k.site.fetch(u).links)
  }

  /** A walk of n links of the site from a start page to `page`. */
  ghost predicate SiteWalk(k: Rules, starts: set<Url>, page: Url, n: nat)
    decreases n
  {
    if n == 0 then page in starts else exists p :: SiteWalk(k, starts, p, n - 1) && Edge(k, p, page)
  }

  ghost predicate SiteDistance(k: Rules, starts: set<Url>, page: Url, n: nat) {
    SiteWalk(k, starts, page, n) && forall m: nat :: m < n ==> !SiteWalk(k, starts, page, m)
  }

  lemma LinkIsEdge(k: Rules, a: Entry, page: Url)
    requires LinksTo(k, a, page)
    ensures Edge(k, k.normal(a.url), page)
  {
  }

  lemma EdgeIsLink(k: Rules, a: Entry, page: Url)
    requires Uniform(k) && Edge(k, k.normal(a.url), page) && a.depth < k.maxDepth && page != k.normal(a.url)
    ensures LinksTo(k, a, page)
  {
    var u :| k.normal(u) == k.normal(a.url) && k.site.allowed(u) && page in Pages(k, k.site.fetch(u).links);
    assert page in Out(k, u) && page in Out(k, a.url);
  }

  // ----- what exploring keeps -----

  ghost predicate Knows(k: Rules, known: set<Entry>, page: Url) {
    exists b :: b in known && k.normal(b.url) == page
  }

  ghost predicate NoneNearer(k: Rules, starts: set<Url>, b: Entry) {
    forall m: nat :: m < b.depth ==> !SiteWalk(k, starts, k.normal(b.url), m)
  }

  /** Pages seen are known, and known pages are no nearer than their depth, which is within
      the limit. */
  ghost predicate SiteKept(k: Rules, starts: set<Url>, known: set<Entry>, l: Line) {
    && (forall page :: page in l.seen ==> Knows(k, known, page))
    && (forall b {:trigger NoneNearer(k, starts, b)} :: b in known ==> NoneNearer(k, starts, b))
    && (forall b :: b in known ==> b.depth <= Limit(k.maxDepth))
  }

  /** All that is known nearer than d has been explored. */
  ghost predicate LayerDone(done: set<Entry>, known: set<Entry>, d: int) {
    forall b :: b in known && b.depth < d ==> b in done
  }

  /** With room in the frontier, every page within d links of a start page has been seen,
      at no greater depth. */
  lemma {:induction false} WithinSeen(k: Rules, starts: set<Url>, done: set<Entry>, known: set<Entry>, l: Line,
                                      page: Url, n: nat, d: int) returns (b: Entry)
    requires Uniform(k) && Exploring(k, starts, done, known, l) && SiteKept(k, starts, known, l)
    requires |l.seen| < k.maxUrls && LayerDone(done, known, d) && n <= d <= Limit(k.maxDepth)
    requires SiteWalk(k, starts, page, n)
    ensures page in l.seen && b in known && k.normal(b.url) == page && b.depth <= n
    decreases n
  {
    if n > 0 {
      var p :| SiteWalk(k, starts, p, n - 1) && Edge(k, p, page);
      var a := WithinSeen(k, starts, done, known, l, p, n - 1, d);
      if p == page {
        b := a;
      } else {
        EdgeIsLink(k, a, page);
        assert a in done && Followed(k, a, l);
        FollowedIsSeen(k, a, l, page);
        assert Knows(k, known, page);
        b :| b in known && k.normal(b.url) == page;
        assert LinksTo(k, a, k.normal(b.url));
      }
    } else {
      assert Knows(k, known, page);
      b :| b in known && k.normal(b.url) == page;
      assert Placed(k, starts, b);
    }
  }

  /** A page that exploring e adds is no nearer to the start pages than its depth. */
  lemma NewIsFar(k: Rules, starts: set<Url>, done: set<Entry>, known: set<Entry>, l: Line, e: Entry, x: Entry)
    requires Uniform(k) && Exploring(k, starts, done, known, l) && SiteKept(k, starts, known, l)
    requires e in known && LayerDone(done, known, e.depth) && e.depth < k.maxDepth
    requires IsNew(k, l, Pages(k, k.site.fetch(e.url).links), e.depth + 1, x)
    ensures NoneNearer(k, starts, x)
  {
    assert Placed(k, starts, e);
    forall m: nat | m < x.depth ensures !SiteWalk(k, starts, k.normal(x.url), m) {
      if SiteWalk(k, starts, k.normal(x.url), m) {
        var b := WithinSeen(k, starts, done, known, l, k.normal(x.url), m, e.depth);
        assert false;
      }
    }
  }

  lemma {:induction false} OfferedAllKnown(k: Rules, l: Line, links: seq<Url>, depth: int, page: Url)
    requires page in OfferedAll(k, l, links, depth).seen && page !in l.seen
    ensures exists x :: x in OfferedAll(k, l, links, depth).queue && k.normal(x.url) == page
    decreases |links|
  {
    if links != [] {
      var n := |links| - 1;
      var before := OfferedAll(k, l, links[..n], depth);
      var e := Entry(links[n], depth, depth + 2);
      InsertMembers(before.queue, e);
      if page in before.seen {
        OfferedAllKnown(k, l, links[..n], depth, page);
        var x :| x in before.queue && k.normal(x.url) == page;
        assert x in OfferedAll(k, l, links, depth).queue;
      } else {
        assert e in OfferedAll(k, l, links, depth).queue;
      }
    }
  }

  lemma SeenIsKnown(k: Rules, known: set<Entry>, l: Line, e: Entry, l': Line, known': set<Entry>, page: Url)
    requires l' == Explored(k, l, e) && known' == known + Members(l'.queue) && page in l'.seen
    requires page in l.seen ==> Knows(k, known, page)
    ensures Knows(k, known', page)
  {
    if page !in l.seen {
      OfferedAllKnown(k, l, k.site.fetch(e.url).links, e.depth + 1, page);
      var x :| x in l'.queue && k.normal(x.url) == page;
      assert x in known';
    } else {
      var b :| b in known && k.normal(b.url) == page;
      assert b in known';
    }
  }

  lemma ExploreKeepsSite(k: Rules, starts: set<Url>, done: set<Entry>, known: set<Entry>, l: Line, e: Entry, l': Line,
                         known': set<Entry>)
    requires Uniform(k) && Exploring(k, starts, done, known, l) && SiteKept(k, starts, known, l)
    requires e in known && LayerDone(done, known, e.depth)
    requires l' == Explored(k, l, e) && known' == known + Members(l'.queue)
    ensures SiteKept(k, starts, known', l')
  {
    OfferedAllAdds(k, l, k.site.fetch(e.url).links, e.depth + 1);
    forall page | page in l'.seen ensures Knows(k, known', page) {
      SeenIsKnown(k, known, l, e, l', known', page);
    }
    assert Placed(k, starts, e);
    forall x | x in known' ensures NoneNearer(k, starts, x) && x.depth <= Limit(k.maxDepth) {
      if x in known {
        assert NoneNearer(k, starts, x);
      } else {
        NewIsFar(k, starts, done, known, l, e, x);
      }
    }
  }

  // ----- a batch, a turn, a run -----

  /** What is known beyond the batch lies no nearer than any of the batch, and nothing is
      much deeper. */
  ghost predicate Front(done: set<Entry>, known: set<Entry>, batch: seq<Entry>) {
    && Ascending(batch) && Members(batch) <= known && (batch != [] ==> Near(known, batch[0].depth))
    && (forall b, i :: b in known && b !in done && b !in batch && 0 <= i < |batch| ==> batch[i].depth <= b.depth)
  }

  /** What the batch has added so far is a link deeper than its first page at least. */
  lemma {:induction false} AddedDeep(k: Rules, batch: seq<Entry>, mids: seq<Line>, i: nat)
    requires Steps(k, batch, mids) && Ascending(batch) && i <= |batch|
    ensures forall x :: x in mids[i].queue ==> x in mids[0].queue || (batch != [] && batch[0].depth + 1 <= x.depth)
    decreases i
  {
    if i > 0 {
      AddedDeep(k, batch, mids, i - 1);
      var e := batch[i - 1];
      assert mids[i] == Explored(k, mids[i - 1], e);
      OfferedAllAdds(k, mids[i - 1], k.site.fetch(e.url).links, e.depth + 1);
    }
  }

  lemma FrontDone(k: Rules, done: set<Entry>, known: set<Entry>, batch: seq<Entry>, mids: seq<Line>, i: nat)
    requires Steps(k, batch, mids) && Front(done, known, batch) && Members(mids[0].queue) <= known && i < |batch|
    ensures LayerDone(done + Members(batch[..i]), known + Members(mids[i].queue), batch[i].depth)
  {
    AddedDeep(k, batch, mids, i);
    forall b | b in known + Members(mids[i].queue) && b.depth < batch[i].depth ensures b in done + Members(batch[..i]) {
      assert batch[i] in known && batch[i].depth <= batch[0].depth + 1;
      if b in known && b !in done {
        var j :| 0 <= j < |batch| && batch[j] == b;
        assert j < i;
        assert batch[..i][j] == b;
      }
    }
  }

  lemma {:induction false} SiteUpTo(k: Rules, starts: set<Url>, done: set<Entry>, known: set<Entry>, batch: seq<Entry>,
                                    mids: seq<Line>, i: nat)
    requires Uniform(k) && Steps(k, batch, mids) && Exploring(k, starts, done, known, mids[0]) && i <= |batch|
    requires Front(done, known, batch) && SiteKept(k, starts, known, mids[0])
    ensures SiteKept(k, starts, known + Members(mids[i].queue), mids[i])
    decreases i
  {
    if i == 0 {
      assert known + Members(mids[0].queue) == known;
    } else {
      var e, between := batch[i - 1], known + Members(mids[i - 1].queue);
      SiteUpTo(k, starts, done, known, batch, mids, i - 1);
      ExploreUpTo(k, starts, done, known, batch, mids, i - 1);
      FrontDone(k, done, known, batch, mids, i - 1);
      QueueGrows(k, mids[i - 1], e);
      assert mids[i] == Explored(k, mids[i - 1], e);
      assert known + Members(mids[i].queue) == between + Members(mids[i].queue);
      ExploreKeepsSite(k, starts, done + Members(batch[..i - 1]), between, mids[i - 1], e, mids[i],
                       known + Members(mids[i].queue));
    }
  }

  lemma TurnFront(l: Line, burst: nat, done: set<Entry>, d: int, batch: seq<Entry>)
    requires batch == BatchOf(l, burst) && Layered(l.queue, d) && UpTo(done, d) && Ascending(l.queue)
    ensures Front(done, done + Members(l.queue), batch)
  {
    var known := done + Members(l.queue);
    forall b | b in known && b !in done ensures exists i :: 0 <= i < |l.queue| && l.queue[i] == b && InLayer(b, d) {
      var i :| 0 <= i < |l.queue| && l.queue[i] == b;
      assert InLayer(l.queue[i], d);
    }
    forall b, i | b in known && b !in done && b !in batch && 0 <= i < |batch| ensures batch[i].depth <= b.depth {
      var j :| 0 <= j < |l.queue| && l.queue[j] == b;
      assert j >= |batch| && batch[i] == l.queue[i];
    }
    if batch != [] {
      assert InLayer(l.queue[0], d);
    }
  }

  lemma LayeredAscends(queue: seq<Entry>, d: int)
    requires Layered(queue, d)
    ensures Ascending(queue)
  {
    forall i, j | 0 <= i < j < |queue| ensures queue[i].depth <= queue[j].depth {
      assert InLayer(queue[i], d) && InLayer(queue[j], d);
    }
  }

  /** Taking a batch leaves what is known as it was. */
  lemma WaitingExplores(k: Rules, starts: set<Url>, done: set<Entry>, l: Line, batch: seq<Entry>, waiting: Line,
                        known: set<Entry>)
    requires Exploring(k, starts, done, known, l) && SiteKept(k, starts, known, l) && known == done + Members(l.queue)
    requires batch <= l.queue && waiting == Line(l.seen, l.queue[|batch|..])
    ensures Exploring(k, starts, done, known, waiting) && SiteKept(k, starts, known, waiting)
  {
    assert batch + waiting.queue == l.queue;
    DoneFollowedLater(k, done, l, waiting);
  }

  lemma StillKnown(done: set<Entry>, queue: seq<Entry>, batch: seq<Entry>, queue': seq<Entry>)
    requires batch <= queue && Members(queue[|batch|..]) <= Members(queue')
    ensures (done + Members(queue)) + Members(queue') == (done + Members(batch)) + Members(queue')
  {
    assert batch + queue[|batch|..] == queue;
    assert Members(queue) == Members(batch) + Members(queue[|batch|..]);
  }

  lemma TurnKeepsSite(k: Rules, starts: set<Url>, burst: nat, done: set<Entry>, l: Line, d: int, batch: seq<Entry>,
                      l': Line)
    requires Uniform(k) && Exploring(k, starts, done, done + Members(l.queue), l) && Layered(l.queue, d) && UpTo(done, d)
    requires batch == BatchOf(l, burst) && l' == Turned(k, burst, l) && SiteKept(k, starts, done + Members(l.queue), l)
    ensures SiteKept(k, starts, (done + Members(batch)) + Members(l'.queue), l')
  {
    var known, waiting := done + Members(l.queue), Line(l.seen, l.queue[|batch|..]);
    WaitingExplores(k, starts, done, l, batch, waiting, known);
    LayeredAscends(l.queue, d);
    TurnFront(l, burst, done, d, batch);
    var mids := BatchSteps(k, waiting, batch);
    SiteUpTo(k, starts, done, known, batch, mids, |batch|);
    StepsGrow(k, batch, mids, |batch|);
    StillKnown(done, l.queue, batch, l'.queue);
  }

  /** A frontier that has seen nothing but the start pages, all of them waiting. */
  ghost predicate FreshStarts(k: Rules, starts: set<Url>, l: Line) {
    Starts(k, starts, l) && l.seen == starts && forall page :: page in starts ==> Knows(k, Members(l.queue), page)
  }

  lemma TakenMembers(taken: seq<Entry>, batch: seq<Entry>)
    ensures Members(taken + batch) == Members(taken) + Members(batch)
  {
  }

  lemma TurnAt(k: Rules, burst: nat, ls: seq<Line>, n: nat)
    requires IsCrawl(k, burst, ls) && n < |ls| - 1
    ensures ls[n + 1] == Turned(k, burst, ls[n])
  {
  }

  lemma FreshKept(k: Rules, starts: set<Url>, l: Line)
    requires FreshStarts(k, starts, l)
    ensures SiteKept(k, starts, Members([]) + Members(l.queue), l)
  {
    assert Members([]) + Members(l.queue) == Members(l.queue);
  }

  lemma {:induction false} CrawlKeepsSite(k: Rules, starts: set<Url>, burst: nat, ls: seq<Line>, n: nat)
    requires Uniform(k) && IsCrawl(k, burst, ls) && n < |ls| && burst >= 1 && FreshStarts(k, starts, ls[0])
    ensures SiteKept(k, starts, Members(Taken(ls, burst, n)) + Members(ls[n].queue), ls[n])
    decreases n
  {
    if n == 0 {
      FreshKept(k, starts, ls[0]);
    } else {
      var taken, l := Taken(ls, burst, n - 1), ls[n - 1];
      var batch := BatchOf(l, burst);
      CrawlKeepsSite(k, starts, burst, ls, n - 1);
      var d := CrawlExplores(k, starts, burst, ls, n - 1);
      TurnAt(k, burst, ls, n - 1);
      TurnKeepsSite(k, starts, burst, Members(taken), l, d, batch, ls[n]);
      TakenMembers(taken, batch);
    }
  }

  lemma {:induction false} WalkOfSite(k: Rules, starts: set<Url>, done: set<Entry>, known: set<Entry>, b: Entry)
    requires Shortest(k, starts, done, known) && b in known && b.depth >= 0
    ensures SiteWalk(k, starts, k.normal(b.url), b.depth)
    decreases b.depth
  {
    assert Placed(k, starts, b);
    if b.depth > 0 {
      assert HasParent(k, done, b);
      var a :| a in done && a.depth == b.depth - 1 && LinksTo(k, a, k.normal(b.url));
      WalkOfSite(k, starts, done, known, a);
      LinkIsEdge(k, a, k.normal(b.url));
    }
  }

  /** Whatever the links, an entry's depth is never below the distance of its page from the
      start pages in the whole site: a walk of that length leads there. */
  lemma NeverTooNear(k: Rules, starts: set<Url>, burst: nat, ls: seq<Line>, n: nat, e: Entry)
    requires IsCrawl(k, burst, ls) && n < |ls| && burst >= 1 && Starts(k, starts, ls[0])
    requires e in Taken(ls, burst, n) || e in ls[n].queue
    ensures e.depth >= 0 && SiteWalk(k, starts, k.normal(e.url), e.depth)
  {
    var d := CrawlExplores(k, starts, burst, ls, n);
    var done := Members(Taken(ls, burst, n));
    var known := done + Members(ls[n].queue);
    assert e in known && Placed(k, starts, e);
    WalkOfSite(k, starts, done, known, e);
  }

  /** At every turn of every run from start pages, each entry taken or waiting has the
      distance of its page from them in the whole site as its depth, whether or not the
      frontier has filled up. */
  lemma DepthIsSiteDistance(k: Rules, starts: set<Url>, burst: nat, ls: seq<Line>, n: nat, e: Entry)
    requires Uniform(k) && IsCrawl(k, burst, ls) && n < |ls| && burst >= 1 && FreshStarts(k, starts, ls[0])
    requires e in Taken(ls, burst, n) || e in ls[n].queue
    ensures 0 <= e.depth <= Limit(k.maxDepth) && SiteDistance(k, starts, k.normal(e.url), e.depth)
  {
    var d := CrawlExplores(k, starts, burst, ls, n);
    var done := Members(Taken(ls, burst, n));
    var known := done + Members(ls[n].queue);
    CrawlKeepsSite(k, starts, burst, ls, n);
    assert e in known && Placed(k, starts, e) && NoneNearer(k, starts, e);
    WalkOfSite(k, starts, done, known, e);
  }

  /** A walk within the depth limit leads to the page. */
  ghost predicate Within(k: Rules, starts: set<Url>, page: Url) {
    exists m: nat :: m <= Limit(k.maxDepth) && SiteWalk(k, starts, page, m)
  }

  /** A run that ends for want of entries, with room left in the frontier, has taken exactly
      the pages of the site within the depth limit. */
  lemma TakesAllWithin(k: Rules, starts: set<Url>, burst: nat, ls: seq<Line>, n: nat, page: Url)
    requires Uniform(k) && IsCrawl(k, burst, ls) && n < |ls| && burst >= 1 && FreshStarts(k, starts, ls[0])
    requires ls[n].queue == [] && |ls[n].seen| < k.maxUrls
    ensures Knows(k, Members(Taken(ls, burst, n)), page) <==> Within(k, starts, page)
  {
    var d := CrawlExplores(k, starts, burst, ls, n);
    var done := Members(Taken(ls, burst, n));
    assert done + Members(ls[n].queue) == done;
    CrawlKeepsSite(k, starts, burst, ls, n);
    if Knows(k, done, page) {
      var b :| b in done && k.normal(b.url) == page;
      assert b in Taken(ls, burst, n);
      DepthIsSiteDistance(k, starts, burst, ls, n, b);
      assert SiteWalk(k, starts, page, b.depth);
    }
    if m: nat :| m <= Limit(k.maxDepth) && SiteWalk(k, starts, page, m) {
      var b := WithinSeen(k, starts, done, done, ls[n], page, m, Limit(k.maxDepth));
    }
  }

  // ----- the sites that are crawled exactly -----

  /** A run from start pages that has ended for want of entries, with room in the frontier. */
  ghost predicate Exhausted(k: Rules, starts: set<Url>, burst: nat, ls: seq<Line>) {
    && burst >= 1 && IsCrawl(k, burst, ls) && FreshStarts(k, starts, ls[0])
    && ls[|ls| - 1].queue == [] && |ls[|ls| - 1].seen| < k.maxUrls
  }

  ghost predicate TakesExactly(k: Rules, starts: set<Url>, burst: nat, ls: seq<Line>)
    requires ls != []
  {
    forall page :: Knows(k, Members(Taken(ls, burst, |ls| - 1)), page) <==> Within(k, starts, page)
  }

  ghost predicate AlwaysExact(normal: Normal, site: Site) {
    forall k: Rules, starts: set<Url>, burst: nat, ls: seq<Line> {:trigger Exhausted(k, starts, burst, ls)} ::
      k.normal == normal && k.site == site && Exhausted(k, starts, burst, ls) ==> TakesExactly(k, starts, burst, ls)
  }

  lemma UniformIsExact(k: Rules, starts: set<Url>, burst: nat, ls: seq<Line>)
    requires Uniform(k) && Exhausted(k, starts, burst, ls)
    ensures TakesExactly(k, starts, burst, ls)
  {
    forall page ensures Knows(k, Members(Taken(ls, burst, |ls| - 1)), page) <==> Within(k, starts, page) {
      TakesAllWithin(k, starts, burst, ls, |ls| - 1, page);
    }
  }

  /** Rules that let one URL's links be taken, and no more. */
  function OneStep(normal: Normal, site: Site, u: Url): Rules {
    Rules(normal, 2 + |site.fetch(u).links|, site, 1)
  }

  lemma {:induction false} OfferedAllBounded(k: Rules, l: Line, links: seq<Url>, depth: int)
    ensures var l' := OfferedAll(k, l, links, depth);
      l'.seen <= l.seen + Pages(k, links) && |l'.seen| <= |l.seen| + |links| && |l'.queue| <= |l.queue| + |links|
    ensures forall e :: e in OfferedAll(k, l, links, depth).queue ==> e in l.queue || e.depth == depth
    decreases |links|
  {
    if links != [] {
      var n := |links| - 1;
      var before := OfferedAll(k, l, links[..n], depth);
      OfferedAllBounded(k, l, links[..n], depth);
      InsertMembers(before.queue, Entry(links[n], depth, depth + 2));
      assert Pages(k, links[..n]) <= Pages(k, links) && links[n] in links;
    }
  }

  /** Entries at the depth limit add nothing. */
  lemma {:induction false} DeepAddNothing(k: Rules, l: Line, batch: seq<Entry>)
    requires forall e :: e in batch ==> e.depth >= k.maxDepth
    ensures ExploredAll(k, l, batch) == l
    decreases |batch|
  {
    if batch != [] {
      DeepAddNothing(k, l, batch[..|batch| - 1]);
    }
  }

  /** The first turn of a crawl from u alone takes u and offers its links. */
  lemma FirstTurn(k: Rules, u: Url, burst: nat, l0: Line, l1: Line)
    requires k == OneStep(k.normal, k.site, u) && burst >= 1 && l0 == Line({k.normal(u)}, [Entry(u, 0, 0)])
    requires l1 == Explored(k, Line({k.normal(u)}, []), Entry(u, 0, 0))
    ensures BatchOf(l0, burst) == [Entry(u, 0, 0)] && Turned(k, burst, l0) == l1
  {
    var start, empty := Entry(u, 0, 0), Line({k.normal(u)}, []);
    assert BatchOf(l0, burst) == [start] && l0.queue[1..] == [];
    assert [start][..0] == [] && ExploredAll(k, empty, []) == empty;
    assert ExploredAll(k, empty, [start]) == l1;
  }

  /** What it has offered are other pages that u leads to, all of them at the depth limit. */
  lemma FirstLinks(k: Rules, u: Url, l1: Line)
    requires k == OneStep(k.normal, k.site, u)
    requires l1 == Explored(k, Line({k.normal(u)}, []), Entry(u, 0, 0))
    ensures |l1.seen| < k.maxUrls && |l1.queue| <= |k.site.fetch(u).links|
    ensures forall e :: e in l1.queue ==> e.depth >= k.maxDepth && k.normal(e.url) in Out(k, u)
  {
    OfferedAllBounded(k, Line({k.normal(u)}, []), k.site.fetch(u).links, 1);
    OfferedAllAdds(k, Line({k.normal(u)}, []), k.site.fetch(u).links, 1);
  }

  /** The second turn takes all that waits and adds nothing. */
  lemma LastTurn(k: Rules, burst: nat, l1: Line)
    requires |l1.queue| <= burst && forall e :: e in l1.queue ==> e.depth >= k.maxDepth
    ensures BatchOf(l1, burst) == l1.queue && Turned(k, burst, l1) == Line(l1.seen, [])
  {
    assert BatchOf(l1, burst) == l1.queue && l1.queue[|l1.queue|..] == [];
    DeepAddNothing(k, Line(l1.seen, []), l1.queue);
  }

  lemma TakenInTwo(ls: seq<Line>, burst: nat, first: seq<Entry>, rest: seq<Entry>)
    requires |ls| == 3 && BatchOf(ls[0], burst) == first && BatchOf(ls[1], burst) == rest
    ensures Taken(ls, burst, 2) == first + rest
  {
    assert Taken(ls, burst, 0) == [] && Taken(ls, burst, 1) == [] + first;
  }

  /** A crawl from u alone, one link deep: it is over in two turns. */
  lemma OneStepCrawl(k: Rules, u: Url, burst: nat) returns (ls: seq<Line>)
    requires k == OneStep(k.normal, k.site, u) && burst == 1 + |k.site.fetch(u).links|
    ensures Exhausted(k, {k.normal(u)}, burst, ls)
    ensures forall e :: e in Taken(ls, burst, |ls| - 1) ==> k.normal(e.url) in Out(k, u) + {k.normal(u)}
  {
    var start := Entry(u, 0, 0);
    var l0, l1 := Line({k.normal(u)}, [start]), Explored(k, Line({k.normal(u)}, []), start);
    FirstTurn(k, u, burst, l0, l1);
    FirstLinks(k, u, l1);
    LastTurn(k, burst, l1);
    StartsAlone(k, u, l0);
    ls := [l0, l1, Line(l1.seen, [])];
    TakenInTwo(ls, burst, [start], l1.queue);
  }

  lemma StartsAlone(k: Rules, u: Url, l: Line)
    requires l == Line({k.normal(u)}, [Entry(u, 0, 0)])
    ensures FreshStarts(k, {k.normal(u)}, l)
  {
    var start := Entry(u, 0, 0);
    assert InLayer(start, 0) && start in Members(l.queue);
  }

  /** Of two URLs of a page, only v leads to q: a crawl that meets u misses it. */
  lemma Missed(normal: Normal, site: Site, u: Url, v: Url, q: Url)
    requires normal(u) == normal(v)
    requires var k := OneStep(normal, site, u); q in Out(k, v) && q !in Out(k, u)
    ensures !AlwaysExact(normal, site)
  {
    var k, burst := OneStep(normal, site, u), 1 + |site.fetch(u).links|;
    var ls := OneStepCrawl(k, u, burst);
    var starts := {normal(u)};
    assert SiteWalk(k, starts, normal(u), 0) && Edge(k, normal(u), q);
    assert SiteWalk(k, starts, q, 1);
    assert Within(k, starts, q) && !Knows(k, Members(Taken(ls, burst, |ls| - 1)), q);
    assert !TakesExactly(k, starts, burst, ls);
  }

  lemma SameOut(k: Rules, k': Rules, u: Url)
    requires k.normal == k'.normal && k.site == k'.site
    ensures Out(k, u) == Out(k', u)
  {
    assert Pages(k, k.site.fetch(u).links) == Pages(k', k'.site.fetch(u).links);
  }

  /** A site is crawled exactly, from any start pages and within any limits, just when URLs
      that count as one page lead to the same other pages. */
  lemma AlwaysExactIff(k: Rules)
    ensures AlwaysExact(k.normal, k.site) <==> Uniform(k)
  {
    if Uniform(k) {
      forall k': Rules, starts: set<Url>, burst: nat, ls: seq<Line> {:trigger Exhausted(k', starts, burst, ls)} |
          k'.normal == k.normal && k'.site == k.site && Exhausted(k', starts, burst, ls)
        ensures TakesExactly(k', starts, burst, ls)
      {
        forall u, v {:trigger k'.normal(u), k'.normal(v)} | k'.normal(u) == k'.normal(v) ensures Out(k', u) == Out(k', v) {
          assert k.normal(u) == k.normal(v);
          SameOut(k, k', u);
          SameOut(k, k', v);
        }
        UniformIsExact(k', starts, burst, ls);
      }
    } else {
      var u, v :| k.normal(u) == k.normal(v) && Out(k, u) != Out(k, v);
      var x, y := if Out(k, v) <= Out(k, u) then v else u, if Out(k, v) <= Out(k, u) then u else v;
      var q :| q in Out(k, y) && q !in Out(k, x);
      SameOut(k, OneStep(k.normal, k.site, x), x);
      SameOut(k, OneStep(k.normal, k.site, x), y);
      Missed(k.normal, k.site, x, y, q);
    }
  }
}
