/** Depths in the crawl of source_agents/crawler.py are shortest link distances, although
    pages are marked when queued, taken in batches and ordered by priority. */
module CrawlDistances {
  import opened Basics
  import opened CrawlLoop
  import opened Frontier

  function Pages(k: Rules, links: seq<Url>): set<Url> {
    set u | u in links :: k.normal(u)
  }

  /** The page of e links to `page`, and the crawler follows its links. */
  ghost predicate LinksTo(k: Rules, e: Entry, page: Url) {
    k.site.allowed(e.url) && e.depth < k.maxDepth && page in Pages(k, k.site.fetch(e.url).links)
  }

  /** A walk of n links from a start page to `page`, over pages in `done`. */
  ghost predicate Walk(k: Rules, starts: set<Url>, done: set<Entry>, page: Url, n: nat)
    decreases n
  {
    if n == 0 then page in starts
    else exists a :: a in done && Walk(k, starts, done, k.normal(a.url), n - 1) && LinksTo(k, a, page)
  }

  ghost predicate Distance(k: Rules, starts: set<Url>, done: set<Entry>, page: Url, n: nat) {
    Walk(k, starts, done, page, n) && forall m: nat :: m < n ==> !Walk(k, starts, done, page, m)
  }

  ghost predicate HasParent(k: Rules, done: set<Entry>, e: Entry) {
    exists a :: a in done && a.depth == e.depth - 1 && LinksTo(k, a, k.normal(e.url))
  }

  ghost predicate NoShortcut(k: Rules, done: set<Entry>, known: set<Entry>) {
    forall a, b {:trigger LinksTo(k, a, k.normal(b.url))} ::
      a in done && b in known && LinksTo(k, a, k.normal(b.url)) ==> b.depth <= a.depth + 1
  }

  /** Exactly the start pages are at depth zero. */
  ghost predicate Placed(k: Rules, starts: set<Url>, b: Entry) {
    b.depth >= 0 && (b.depth == 0 <==> k.normal(b.url) in starts)
  }

  /** `done` have been explored and `known` queued at some time: no link skips a depth, and
      every page but a start page was found from one a link nearer. */
  ghost predicate Shortest(k: Rules, starts: set<Url>, done: set<Entry>, known: set<Entry>) {
    && done <= known && NoShortcut(k, done, known)
    && (forall b {:trigger Placed(k, starts, b)} :: b in known ==> Placed(k, starts, b))
    && (forall b {:trigger HasParent(k, done, b)} :: b in known && b.depth > 0 ==> HasParent(k, done, b))
  }

  lemma {:induction false} WalkExists(k: Rules, starts: set<Url>, done: set<Entry>, known: set<Entry>, b: Entry)
    requires Shortest(k, starts, done, known) && b in known && b.depth >= 0
    ensures Walk(k, starts, done, k.normal(b.url), b.depth)
    decreases b.depth
  {
    assert Placed(k, starts, b);
    if b.depth > 0 {
      assert HasParent(k, done, b);
      var a :| a in done && a.depth == b.depth - 1 && LinksTo(k, a, k.normal(b.url));
      WalkExists(k, starts, done, known, a);
    }
  }

  lemma {:induction false} NoneShorter(k: Rules, starts: set<Url>, done: set<Entry>, known: set<Entry>, b: Entry, n: nat)
    requires Shortest(k, starts, done, known) && b in known && Walk(k, starts, done, k.normal(b.url), n)
    ensures b.depth <= n
    decreases n
  {
    assert Placed(k, starts, b);
    if n > 0 {
      var a :| a in done && Walk(k, starts, done, k.normal(a.url), n - 1) && LinksTo(k, a, k.normal(b.url));
      NoneShorter(k, starts, done, known, a, n - 1);
    }
  }

  /** So its depth is the distance of a page from the start pages. */
  lemma ShortestIsDistance(k: Rules, starts: set<Url>, done: set<Entry>, known: set<Entry>, b: Entry)
    requires Shortest(k, starts, done, known) && b in known
    ensures b.depth >= 0 && Distance(k, starts, done, k.normal(b.url), b.depth)
  {
    assert Placed(k, starts, b);
    WalkExists(k, starts, done, known, b);
    forall m: nat | m < b.depth ensures !Walk(k, starts, done, k.normal(b.url), m) {
      if Walk(k, starts, done, k.normal(b.url), m) {
        NoneShorter(k, starts, done, known, b, m);
      }
    }
  }

  // ----- exploring one page -----

  function Members(queue: seq<Entry>): set<Entry> {
    set e | e in queue
  }

  /** An entry that offering links adds: of a linked page not seen before. */
  ghost predicate IsNew(k: Rules, l: Line, pages: set<Url>, depth: int, x: Entry) {
    x.depth == depth && k.normal(x.url) in pages && k.normal(x.url) !in l.seen && |l.seen| < k.maxUrls
  }

  ghost predicate Additions(k: Rules, l: Line, l': Line, pages: set<Url>, depth: int) {
    && (forall x :: x in l'.queue ==> x in l.queue || IsNew(k, l, pages, depth, x))
    && (forall x :: x in l.queue ==> x in l'.queue)
  }

  lemma {:induction false} OfferedAllAdds(k: Rules, l: Line, links: seq<Url>, depth: int)
    ensures Additions(k, l, OfferedAll(k, l, links, depth), Pages(k, links), depth)
    decreases |links|
  {
    if links != [] {
      var n := |links| - 1;
      var before := OfferedAll(k, l, links[..n], depth);
      var e := Entry(links[n], depth, depth + 2);
      OfferedAllAdds(k, l, links[..n], depth);
      OfferedAllSees(k, l, links[..n], depth);
      SeenGrows(l.seen, before.seen);
      InsertMembers(before.queue, e);
      assert Pages(k, links[..n]) <= Pages(k, links) && e.url in links;
    }
  }

  /** The links of explored pages have been seen, unless the frontier is full. */
  ghost predicate DoneFollowed(k: Rules, done: set<Entry>, l: Line) {
    forall a {:trigger Followed(k, a, l)} :: a in done ==> Followed(k, a, l)
  }

  lemma FollowedIsSeen(k: Rules, a: Entry, l: Line, page: Url)
    requires Followed(k, a, l) && LinksTo(k, a, page) && |l.seen| < k.maxUrls
    ensures page in l.seen
  {
  }

  lemma ExploreKeepsShortest(k: Rules, starts: set<Url>, done: set<Entry>, known: set<Entry>, l: Line, e: Entry,
                             l': Line, known': set<Entry>)
    requires Shortest(k, starts, done, known) && e in known && DoneFollowed(k, done, l) && starts <= l.seen
    requires forall b :: b in known ==> b.depth <= e.depth + 1
    requires l' == Explored(k, l, e) && known' == known + Members(l'.queue) && Members(l.queue) <= known
    ensures Shortest(k, starts, done + {e}, known')
  {
    var pages := Pages(k, k.site.fetch(e.url).links);
    OfferedAllAdds(k, l, k.site.fetch(e.url).links, e.depth + 1);
    forall x | x in known' && x !in known
      ensures IsNew(k, l, pages, e.depth + 1, x) && LinksTo(k, e, k.normal(x.url))
    {
      assert x in l'.queue && x !in l.queue;
    }
    assert Placed(k, starts, e);
    forall b | b in known' ensures Placed(k, starts, b) {
      assert b in known ==> Placed(k, starts, b);
    }
    forall a, b {:trigger LinksTo(k, a, k.normal(b.url))} |
        a in done + {e} && b in known' && LinksTo(k, a, k.normal(b.url))
      ensures b.depth <= a.depth + 1
    {
      if b !in known && a != e {
        assert Followed(k, a, l);
        FollowedIsSeen(k, a, l, k.normal(b.url));
      }
    }
    forall b | b in known' && b.depth > 0 ensures HasParent(k, done + {e}, b) {
      if b in known {
        assert HasParent(k, done, b);
      }
    }
  }

  lemma DoneFollowedLater(k: Rules, done: set<Entry>, l: Line, l': Line)
    requires DoneFollowed(k, done, l) && l.seen <= l'.seen
    ensures DoneFollowed(k, done, l')
  {
    SeenGrows(l.seen, l'.seen);
    forall a | a in done ensures Followed(k, a, l') {
      assert Followed(k, a, l);
    }
  }

  // ----- a batch, a turn, a run -----

  /** Everything known is at most one deeper than what is explored next. */
  ghost predicate Near(known: set<Entry>, depth: int) {
    forall b :: b in known ==> b.depth <= depth + 1
  }

  ghost predicate Exploring(k: Rules, starts: set<Url>, done: set<Entry>, known: set<Entry>, l: Line) {
    && Shortest(k, starts, done, known) && DoneFollowed(k, done, l)
    && starts <= l.seen && Members(l.queue) <= known
  }

  lemma ExploreOne(k: Rules, starts: set<Url>, done: set<Entry>, known: set<Entry>, l: Line, e: Entry,
                   l': Line, known': set<Entry>)
    requires Exploring(k, starts, done, known, l) && e in known && Near(known, e.depth)
    requires l' == Explored(k, l, e) && known' == known + Members(l'.queue)
    ensures Exploring(k, starts, done + {e}, known', l') && Near(known', e.depth)
  {
    ExploreKeepsShortest(k, starts, done, known, l, e, l', known');
    OfferedAllAdds(k, l, k.site.fetch(e.url).links, e.depth + 1);
    OfferedAllSees(k, l, k.site.fetch(e.url).links, e.depth + 1);
    DoneFollowedLater(k, done, l, l');
  }

  ghost predicate Ascending(batch: seq<Entry>) {
    forall i, j :: 0 <= i < j < |batch| ==> batch[i].depth <= batch[j].depth
  }

  lemma FirstMembers(batch: seq<Entry>, i: nat)
    requires i < |batch|
    ensures Members(batch[..i + 1]) == Members(batch[..i]) + {batch[i]}
  {
    assert batch[..i + 1] == batch[..i] + [batch[i]];
  }

  lemma QueueGrows(k: Rules, l: Line, e: Entry)
    ensures Members(l.queue) <= Members(Explored(k, l, e).queue)
  {
    OfferedAllAdds(k, l, k.site.fetch(e.url).links, e.depth + 1);
  }

  /** mids are the line before and after each page of a batch. */
  ghost predicate Steps(k: Rules, batch: seq<Entry>, mids: seq<Line>) {
    |mids| == |batch| + 1 && forall i {:trigger Explored(k, mids[i], batch[i])} :: 0 <= i < |batch| ==>
      mids[i + 1] == Explored(k, mids[i], batch[i])
  }

  lemma {:induction false} BatchSteps(k: Rules, l: Line, batch: seq<Entry>) returns (mids: seq<Line>)
    ensures Steps(k, batch, mids) && mids[0] == l && mids[|batch|] == ExploredAll(k, l, batch)
    decreases |batch|
  {
    if batch == [] {
      mids := [l];
    } else {
      var n := |batch| - 1;
      var before := BatchSteps(k, l, batch[..n]);
      mids := before + [ExploredAll(k, l, batch)];
      forall i {:trigger Explored(k, mids[i], batch[i])} | 0 <= i < |batch|
        ensures mids[i + 1] == Explored(k, mids[i], batch[i])
      {
        if i < n {
          assert before[i + 1] == Explored(k, before[i], batch[..n][i]);
        }
      }
    }
  }

  lemma {:induction false} ExploreUpTo(k: Rules, starts: set<Url>, done: set<Entry>, known: set<Entry>, batch: seq<Entry>,
                                       mids: seq<Line>, i: nat)
    requires Steps(k, batch, mids) && Exploring(k, starts, done, known, mids[0]) && i <= |batch|
    requires Members(batch) <= known && Ascending(batch) && (batch != [] ==> Near(known, batch[0].depth))
    ensures Exploring(k, starts, done + Members(batch[..i]), known + Members(mids[i].queue), mids[i])
    ensures i > 0 ==> Near(known + Members(mids[i].queue), batch[i - 1].depth)
    decreases i
  {
    if i == 0 {
      assert done + Members(batch[..0]) == done && known + Members(mids[0].queue) == known;
    } else {
      var e, between := batch[i - 1], known + Members(mids[i - 1].queue);
      ExploreUpTo(k, starts, done, known, batch, mids, i - 1);
      FirstMembers(batch, i - 1);
      QueueGrows(k, mids[i - 1], e);
      var known' := known + Members(mids[i].queue);
      assert mids[i] == Explored(k, mids[i - 1], e);
      assert known' == between + Members(mids[i].queue);
      assert i > 1 ==> batch[i - 2].depth <= e.depth;
      ExploreOne(k, starts, done + Members(batch[..i - 1]), between, mids[i - 1], e, mids[i], known');
      assert done + Members(batch[..i]) == done + Members(batch[..i - 1]) + {e};
    }
  }

  ghost predicate UpTo(done: set<Entry>, d: int) {
    forall b :: b in done ==> b.depth <= d
  }

  lemma ExploreBatch(k: Rules, starts: set<Url>, done: set<Entry>, known: set<Entry>, l: Line, batch: seq<Entry>, l': Line)
    requires Exploring(k, starts, done, known, l) && l' == ExploredAll(k, l, batch)
    requires Members(batch) <= known && Ascending(batch) && (batch != [] ==> Near(known, batch[0].depth))
    ensures Exploring(k, starts, done + Members(batch), known + Members(l'.queue), l')
    ensures Members(l.queue) <= Members(l'.queue)
  {
    var mids := BatchSteps(k, l, batch);
    ExploreUpTo(k, starts, done, known, batch, mids, |batch|);
    assert batch[..|batch|] == batch;
    StepsGrow(k, batch, mids, |batch|);
  }

  lemma {:induction false} StepsGrow(k: Rules, batch: seq<Entry>, mids: seq<Line>, i: nat)
    requires Steps(k, batch, mids) && i <= |batch|
    ensures Members(mids[0].queue) <= Members(mids[i].queue)
    decreases i
  {
    if i > 0 {
      StepsGrow(k, batch, mids, i - 1);
      QueueGrows(k, mids[i - 1], batch[i - 1]);
      assert mids[i] == Explored(k, mids[i - 1], batch[i - 1]);
    }
  }

  lemma ExploreTurn(k: Rules, starts: set<Url>, burst: nat, done: set<Entry>, l: Line, d: int, batch: seq<Entry>, l': Line)
    requires Exploring(k, starts, done, done + Members(l.queue), l) && Layered(l.queue, d) && UpTo(done, d)
    requires batch == BatchOf(l, burst) && l' == Turned(k, burst, l)
    requires Ascending(batch)
    ensures Exploring(k, starts, done + Members(batch), (done + Members(batch)) + Members(l'.queue), l')
  {
    var known, rest := done + Members(l.queue), l.queue[|batch|..];
    var waiting := Line(l.seen, rest);
    assert batch + rest == l.queue;
    assert Members(l.queue) == Members(batch) + Members(rest);
    assert DoneFollowed(k, done, waiting) by {
      DoneFollowedLater(k, done, l, waiting);
    }
    if batch != [] {
      assert InLayer(l.queue[0], d);
      forall b | b in known ensures b.depth <= batch[0].depth + 1 {
        if b !in done {
          var i :| 0 <= i < |l.queue| && l.queue[i] == b;
          assert InLayer(l.queue[i], d);
        }
      }
    }
    ExploreBatch(k, starts, done, known, waiting, batch, l');
    assert known + Members(l'.queue) == (done + Members(batch)) + Members(l'.queue);
  }

  /** The queue before the loop: start pages only, all of them seen. */
  ghost predicate Starts(k: Rules, starts: set<Url>, l: Line) {
    && Layered(l.queue, 0) && starts <= l.seen
    && (forall e :: e in l.queue ==> e.depth == 0 && k.normal(e.url) in starts)
  }

  lemma StartsExploring(k: Rules, starts: set<Url>, l: Line)
    requires Starts(k, starts, l)
    ensures Exploring(k, starts, {}, Members(l.queue), l)
  {
  }

  lemma {:induction false} CrawlExplores(k: Rules, starts: set<Url>, burst: nat, ls: seq<Line>, n: nat) returns (d: int)
    requires IsCrawl(k, burst, ls) && n < |ls| && burst >= 1 && Starts(k, starts, ls[0])
    ensures Layered(ls[n].queue, d) && UpTo(Members(Taken(ls, burst, n)), d)
    ensures var done := Members(Taken(ls, burst, n)); Exploring(k, starts, done, done + Members(ls[n].queue), ls[n])
    decreases n
  {
    if n == 0 {
      d := 0;
      StartsExploring(k, starts, ls[0]);
      assert {} + Members(ls[0].queue) == Members(ls[0].queue) && Members([]) == {};
    } else {
      var before := CrawlExplores(k, starts, burst, ls, n - 1);
      var taken, l := Taken(ls, burst, n - 1), ls[n - 1];
      var batch := BatchOf(l, burst);
      assert ls[n] == Turned(k, burst, l);
      d := TurnLayered(k, burst, l, before);
      ExploreTurn(k, starts, burst, Members(taken), l, before, batch, ls[n]);
      assert Members(taken + batch) == Members(taken) + Members(batch);
    }
  }

  /** At every turn of every run from start pages, each entry taken or waiting has the
      shortest link distance of its page as its depth, over the pages taken so far. */
  lemma DepthIsDistance(k: Rules, starts: set<Url>, burst: nat, ls: seq<Line>, n: nat, e: Entry)
    requires IsCrawl(k, burst, ls) && n < |ls| && burst >= 1 && Starts(k, starts, ls[0])
    requires e in Taken(ls, burst, n) || e in ls[n].queue
    ensures e.depth >= 0 && Distance(k, starts, Members(Taken(ls, burst, n)), k.normal(e.url), e.depth)
  {
    var d := CrawlExplores(k, starts, burst, ls, n);
    var done := Members(Taken(ls, burst, n));
    ShortestIsDistance(k, starts, done, done + Members(ls[n].queue), e);
  }
}
