/** The bounded same-origin crawl of `SentinelAgent.execute`
    (agents/implementations.py).  Fetching is a fixed function of the URL. */
module Crawl {
  import opened Basics
  import opened BreadthFirst
  import opened Wrappers

  /** What one GET yields: a response with the resolved, fragment-free link
      targets in document order, or a transport error. */
  datatype Fetched =
    | Response(status: nat, title: Option<string>, targets: seq<Url>)
    | TransportError

  datatype CrawledPage = CrawledPage(url: Url, status: nat, title: Option<string>, links: set<Url>, broken: bool)

  datatype CrawlOutput = CrawlOutput(pages: seq<CrawledPage>, brokenLinks: seq<Url>, totalDiscovered: nat)

  datatype Rejection = NotHttp | PrivateTarget

  function SetOf(urls: seq<Url>): set<Url> {
    set u | u in urls
  }

  /** Everything the crawl does not control: fetching and the same-origin test. */
  datatype Site = Site(fetch: Url -> Fetched, sameOrigin: Url -> bool)
  {
    function Kept(targets: seq<Url>): seq<Url> {
      if targets == [] then []
      else
        var last := targets[|targets| - 1];
        Kept(targets[..|targets| - 1]) + (if sameOrigin(last) then [last] else [])
    }

    lemma KeptStep(targets: seq<Url>, i: nat)
      requires i < |targets|
      ensures Kept(targets[..i + 1]) == Kept(targets[..i]) + if sameOrigin(targets[i]) then [targets[i]] else []
    {
      assert targets[..i + 1][..i] == targets[..i];
    }

    /** The same-origin link targets of a page, in document order, repeats included. */
    function LinksOf(u: Url): seq<Url> {
      match fetch(u)
      case Response(_, _, targets) => Kept(targets)
      case TransportError => []
    }

    /** The graph that the crawl explores. */
    function Graph(): Links {
      u => SetOf(LinksOf(u))
    }

    function PageOf(u: Url): CrawledPage {
      match fetch(u)
      case Response(status, title, targets) => CrawledPage(u, status, title, SetOf(LinksOf(u)), status >= 400)
      case TransportError => CrawledPage(u, 0, None, {}, true)
    }
  }

  /** The queue entries one page adds, in link order. */
  function Pushed(links: seq<Url>, seen: set<Url>, depth: nat): seq<Entry> {
    if links == [] then []
    else
      var last := links[|links| - 1];
      Pushed(links[..|links| - 1], seen, depth) + (if last in seen then [] else [Entry(last, depth)])
  }

  lemma PushedStep(links: seq<Url>, u: Url, seen: set<Url>, depth: nat)
    ensures Pushed(links + [u], seen, depth) == Pushed(links, seen, depth) + if u in seen then [] else [Entry(u, depth)]
  {
    assert (links + [u])[..|links|] == links;
  }

  lemma {:induction false} PushedEntries(links: seq<Url>, seen: set<Url>, depth: nat)
    ensures forall i :: 0 <= i < |Pushed(links, seen, depth)| ==>
      Pushed(links, seen, depth)[i].depth == depth && Pushed(links, seen, depth)[i].url in links
    ensures forall v :: v in links && v !in seen ==> Entry(v, depth) in Pushed(links, seen, depth)
  {
    if links != [] {
      PushedEntries(links[..|links| - 1], seen, depth);
    }
  }

  lemma PushedPushes(site: Site, maxDepth: nat, u: Url, d: nat, seen: set<Url>)
    ensures Pushes(site.Graph(), maxDepth, u, d, seen, Deeper(site.LinksOf(u), seen, d, maxDepth))
  {
    PushedEntries(site.LinksOf(u), seen, d + 1);
  }

  ghost predicate HasPage(pages: seq<CrawledPage>, u: Url) {
    exists i :: 0 <= i < |pages| && pages[i].url == u
  }

  function Broken(pages: seq<CrawledPage>): seq<Url> {
    if pages == [] then []
    else
      var last := pages[|pages| - 1];
      Broken(pages[..|pages| - 1]) + (if last.broken then [last.url] else [])
  }

  ghost predicate IsFetched(site: Site, page: CrawledPage) {
    page == site.PageOf(page.url)
  }

  /** The page is what fetching its URL has given: status and title of the response, its
      same-origin targets, and broken from 400 on; or status 0 and broken without one. */
  ghost predicate Reports(site: Site, page: CrawledPage) {
    match site.fetch(page.url)
    case Response(status, title, targets) =>
      && page.status == status && page.title == title && (page.broken <==> status >= 400)
      && (forall u :: u in page.links <==> u in targets && site.sameOrigin(u))
    case TransportError => page.status == 0 && page.title == None && page.links == {} && page.broken
  }

  lemma {:induction false} KeptTargets(site: Site, targets: seq<Url>)
    ensures forall u :: u in site.Kept(targets) <==> u in targets && site.sameOrigin(u)
    decreases |targets|
  {
    if targets != [] {
      KeptTargets(site, targets[..|targets| - 1]);
      assert targets == targets[..|targets| - 1] + [targets[|targets| - 1]];
    }
  }

  lemma FetchedReports(site: Site, page: CrawledPage)
    requires IsFetched(site, page)
    ensures Reports(site, page)
  {
    match site.fetch(page.url)
    case Response(_, _, targets) => KeptTargets(site, targets);
    case TransportError =>
  }

  /** The links of the graph are the same-origin targets of the responses. */
  lemma GraphLinks(site: Site, u: Url, v: Url)
    ensures v in site.Graph()(u) <==>
      site.fetch(u).Response? && v in site.fetch(u).targets && site.sameOrigin(v)
  {
    if site.fetch(u).Response? {
      KeptTargets(site, site.fetch(u).targets);
    }
  }

  ghost predicate AllReport(site: Site, pages: seq<CrawledPage>) {
    forall i {:trigger Reports(site, pages[i])} :: 0 <= i < |pages| ==> Reports(site, pages[i])
  }

  lemma RecordedReports(site: Site, pages: seq<CrawledPage>, depth: map<Url, nat>)
    requires Recorded(site, pages, depth)
    ensures AllReport(site, pages)
  {
    forall i | 0 <= i < |pages| ensures Reports(site, pages[i]) {
      assert IsFetched(site, pages[i]);
      FetchedReports(site, pages[i]);
    }
  }

  /** Each page is what fetching its URL gives. */
  ghost predicate Fetches(site: Site, pages: seq<CrawledPage>) {
    forall i {:trigger IsFetched(site, pages[i])} :: 0 <= i < |pages| ==> IsFetched(site, pages[i])
  }

  /** No URL has two pages, and depths ascend. */
  ghost predicate InDepthOrder(pages: seq<CrawledPage>, depth: map<Url, nat>) {
    && (forall i :: 0 <= i < |pages| ==> pages[i].url in depth)
    && (forall i, j :: 0 <= i < j < |pages| ==>
          pages[i].url != pages[j].url && depth[pages[i].url] <= depth[pages[j].url])
  }

  ghost predicate AllHavePages(pages: seq<CrawledPage>, depth: map<Url, nat>) {
    forall u {:trigger HasPage(pages, u)} :: u in depth ==> HasPage(pages, u)
  }

  /** The pages are the fetched pages of the URLs in `depth`, each once, and their
      depths ascend. */
  ghost predicate Recorded(site: Site, pages: seq<CrawledPage>, depth: map<Url, nat>) {
    && |pages| == |depth| && AllHavePages(pages, depth)
    && Fetches(site, pages) && InDepthOrder(pages, depth)
  }

  lemma OrderKeeps(pages: seq<CrawledPage>, depth: map<Url, nat>, page: CrawledPage, d: nat)
    requires InDepthOrder(pages, depth) && page.url !in depth
    requires forall v :: v in depth ==> depth[v] <= d
    ensures InDepthOrder(pages + [page], depth[page.url := d])
  {
  }

  lemma HasPageKeeps(pages: seq<CrawledPage>, page: CrawledPage, u: Url)
    ensures HasPage(pages + [page], u) <==> HasPage(pages, u) || page.url == u
  {
    var pages' := pages + [page];
    if HasPage(pages, u) {
      var i :| 0 <= i < |pages| && pages[i].url == u;
      assert pages'[i].url == u;
    }
    assert pages'[|pages|] == page;
  }

  lemma FetchesKeeps(site: Site, pages: seq<CrawledPage>, page: CrawledPage)
    requires Fetches(site, pages) && IsFetched(site, page)
    ensures Fetches(site, pages + [page])
  {
    forall i | 0 <= i <= |pages| ensures IsFetched(site, (pages + [page])[i]) {
      assert i < |pages| ==> IsFetched(site, pages[i]);
    }
  }

  lemma RecordKeeps(site: Site, pages: seq<CrawledPage>, depth: map<Url, nat>, page: CrawledPage, d: nat)
    requires Recorded(site, pages, depth) && IsFetched(site, page) && page.url !in depth
    requires forall v :: v in depth ==> depth[v] <= d
    ensures Recorded(site, pages + [page], depth[page.url := d])
  {
    OrderKeeps(pages, depth, page, d);
    FetchesKeeps(site, pages, page);
    forall u | u in depth[page.url := d] ensures HasPage(pages + [page], u) {
      HasPageKeeps(pages, page, u);
      assert u in depth ==> HasPage(pages, u);
    }
  }

  lemma {:induction false} BrokenPages(site: Site, pages: seq<CrawledPage>)
    requires Fetches(site, pages)
    ensures forall u :: u in Broken(pages) <==>
      HasPage(pages, u) && (site.fetch(u).TransportError? || site.fetch(u).status >= 400)
  {
    if pages != [] {
      var n := |pages| - 1;
      assert IsFetched(site, pages[n]);
      forall i | 0 <= i < n ensures IsFetched(site, pages[..n][i]) {
        assert IsFetched(site, pages[i]);
      }
      BrokenPages(site, pages[..n]);
      assert pages == pages[..n] + [pages[n]];
      forall u ensures HasPage(pages, u) <==> HasPage(pages[..n], u) || pages[n].url == u {
        HasPageKeeps(pages[..n], pages[n], u);
      }
    }
  }

  lemma CountsSeen(depth: map<Url, nat>, seen: set<Url>)
    requires depth.Keys == seen
    ensures |depth| == |seen|
  {
    assert |depth| == |depth.Keys|;
  }

  lemma BrokenRecorded(site: Site, pages: seq<CrawledPage>, depth: map<Url, nat>)
    requires Recorded(site, pages, depth)
    ensures forall u :: u in Broken(pages) <==> u in depth && (site.fetch(u).TransportError? || site.fetch(u).status >= 400)
  {
    BrokenPages(site, pages);
    forall u ensures u in depth <==> HasPage(pages, u) {
      assert u in depth ==> HasPage(pages, u);
    }
  }

  ghost predicate ListedInOrder(urls: seq<Url>, depth: map<Url, nat>) {
    forall i, j :: 0 <= i < j < |urls| ==>
      urls[i] in depth && urls[j] in depth && urls[i] != urls[j] && depth[urls[i]] <= depth[urls[j]]
  }

  /** Broken links are listed in the order of their pages, each once. */
  lemma {:induction false} BrokenInOrder(pages: seq<CrawledPage>, depth: map<Url, nat>)
    requires InDepthOrder(pages, depth)
    ensures forall u :: u in Broken(pages) ==> HasPage(pages, u)
    ensures ListedInOrder(Broken(pages), depth)
  {
    if pages != [] {
      var n := |pages| - 1;
      var before, last := Broken(pages[..n]), pages[n];
      BrokenInOrder(pages[..n], depth);
      assert pages == pages[..n] + [last];
      forall u | u in before ensures HasPage(pages, u) && u != last.url && u in depth && depth[u] <= depth[last.url] {
        var k :| 0 <= k < n && pages[..n][k].url == u;
        assert pages[k].url == u;
      }
      assert last.broken ==> pages[n].url == last.url && HasPage(pages, last.url);
    }
  }

  /** What the links of a page at depth d add to the queue. */
  function Deeper(links: seq<Url>, seen: set<Url>, d: nat, maxDepth: nat): seq<Entry> {
    if d < maxDepth then Pushed(links, seen, d + 1) else []
  }

  lemma DeeperStep(queue: seq<Entry>, links: seq<Url>, u: Url, seen: set<Url>, d: nat, maxDepth: nat)
    ensures queue + Deeper(links + [u], seen, d, maxDepth) ==
      (queue + Deeper(links, seen, d, maxDepth)) + if d < maxDepth && u !in seen then [Entry(u, d + 1)] else []
  {
    PushedStep(links, u, seen, d + 1);
  }

  /** Keep the links of one page and queue those not seen. */
  method TakeLinks(site: Site, targets: seq<Url>, d: nat, maxDepth: nat, queue: seq<Entry>, seen: set<Url>)
    returns (normalized: seq<Url>, queue': seq<Entry>)
    ensures normalized == site.Kept(targets) && queue' == queue + Deeper(normalized, seen, d, maxDepth)
  {
    normalized, queue' := [], queue;
    for i := 0 to |targets|
      invariant normalized == site.Kept(targets[..i])
      invariant queue' == queue + Deeper(normalized, seen, d, maxDepth)
    {
      var candidate := targets[i];
      site.KeptStep(targets, i);
      DeeperStep(queue, normalized, candidate, seen, d, maxDepth);
      if site.sameOrigin(candidate) {
        normalized := normalized + [candidate];
        if d < maxDepth && candidate !in seen {
          queue' := queue' + [Entry(candidate, d + 1)];
        }
      }
    }
    assert targets[..|targets|] == targets;
  }

  /** Fetch one page and queue its links. */
  method FetchPage(site: Site, current: Url, d: nat, maxDepth: nat, queue: seq<Entry>, seen: set<Url>)
    returns (page: CrawledPage, queue': seq<Entry>)
    ensures page == site.PageOf(current) && page.url == current && Reports(site, page)
    ensures queue' == queue + Deeper(site.LinksOf(current), seen, d, maxDepth)
  {
    match site.fetch(current) {
      case TransportError =>
        page, queue' := CrawledPage(current, 0, None, {}, true), queue;
      case Response(status, title, targets) =>
        var normalized;
        normalized, queue' := TakeLinks(site, targets, d, maxDepth, queue, seen);
        page := CrawledPage(current, status, title, SetOf(normalized), status >= 400);
    }
    FetchedReports(site, page);
  }

  /** Crawling the head of the queue keeps the search and the record. */
  lemma Crawled(site: Site, seed: Url, maxDepth: nat, before: seq<Entry>, queue: seq<Entry>, depth: map<Url, nat>,
                floor: nat, pages: seq<CrawledPage>, page: CrawledPage, d: nat)
    requires Searching(site.Graph(), seed, maxDepth, before, depth, floor) && Recorded(site, pages, depth)
    requires before != [] && before[0] == Entry(page.url, d) && page.url !in depth && IsFetched(site, page)
    requires queue == before[1..] + Deeper(site.LinksOf(page.url), depth.Keys + {page.url}, d, maxDepth)
    ensures Searching(site.Graph(), seed, maxDepth, queue, depth[page.url := d], d)
    ensures Recorded(site, pages + [page], depth[page.url := d])
  {
    var more := Deeper(site.LinksOf(page.url), depth.Keys + {page.url}, d, maxDepth);
    PushedPushes(site, maxDepth, page.url, d, depth.Keys + {page.url});
    Visit(site.Graph(), seed, maxDepth, before, depth, floor, more);
    RecordKeeps(site, pages, depth, page, d);
  }

  /** What holds when the loop stops. */
  lemma Concluded(site: Site, seed: Url, maxDepth: nat, queue: seq<Entry>, depth: map<Url, nat>, floor: nat,
                  pages: seq<CrawledPage>)
    requires Searching(site.Graph(), seed, maxDepth, queue, depth, floor) && Recorded(site, pages, depth)
    ensures NearestFirst(site.Graph(), seed, maxDepth, depth)
    ensures queue == [] ==> Exact(site.Graph(), seed, maxDepth, depth)
    ensures AllReport(site, pages) && ListedInOrder(Broken(pages), depth)
    ensures forall u ::
      u in Broken(pages) <==> u in depth && (site.fetch(u).TransportError? || site.fetch(u).status >= 400)
  {
    Stop(site.Graph(), seed, maxDepth, queue, depth, floor);
    BrokenRecorded(site, pages, depth);
    BrokenInOrder(pages, depth);
    RecordedReports(site, pages, depth);
  }

  /** `absolute` says that the seed is an absolute HTTP(S) URL and `permitted` that
      its host may be crawled; `depth` is the depth at which each page left the queue,
      and `waiting` what is in it at the end. */
  method Execute(site: Site, seed: Url, maxPages: nat, maxDepth: nat, absolute: bool, permitted: bool)
    returns (r: Result<CrawlOutput, Rejection>, ghost depth: map<Url, nat>, ghost waiting: seq<Entry>)
    ensures !absolute ==> r == Err(NotHttp)
    ensures absolute && !permitted ==> r == Err(PrivateTarget)
    ensures absolute && permitted ==> r.Ok?
    ensures r.Ok? ==> Recorded(site, r.value.pages, depth) && AllReport(site, r.value.pages)
    ensures r.Ok? ==> |r.value.pages| <= maxPages && r.value.totalDiscovered == |r.value.pages| + |waiting|
    ensures r.Ok? ==> NearestFirst(site.Graph(), seed, maxDepth, depth)
    ensures r.Ok? ==> Closed(site.Graph(), seed, maxDepth, waiting, depth) && Sound(site.Graph(), seed, waiting, depth)
    ensures r.Ok? && r.value.totalDiscovered == |r.value.pages| ==> Exact(site.Graph(), seed, maxDepth, depth)
    ensures r.Ok? && |r.value.pages| < maxPages ==> r.value.totalDiscovered == |r.value.pages|
    ensures r.Ok? ==> ListedInOrder(r.value.brokenLinks, depth) && forall u ::
      u in r.value.brokenLinks <==> u in depth && (site.fetch(u).TransportError? || site.fetch(u).status >= 400)
  {
    depth, waiting := map[], [];
    if !absolute {
      return Err(NotHttp), depth, waiting;
    }
    if !permitted {
      return Err(PrivateTarget), depth, waiting;
    }
    ghost var graph := site.Graph();
    var queue: seq<Entry>, seen: set<Url>, pages: seq<CrawledPage> := [Entry(seed, 0)], {}, [];
    ghost var floor: nat := 0;
    Start(graph, seed, maxDepth);
    assert Recorded(site, [], map[]);
    while queue != [] && |pages| < maxPages
      invariant Searching(graph, seed, maxDepth, queue, depth, floor)
      invariant Recorded(site, pages, depth) && depth.Keys == seen
      invariant |pages| <= maxPages
      decreases maxPages - |pages|, |queue|
    {
      ghost var before := queue;
      var Entry(current, d) := queue[0];
      queue := queue[1..];
      if current in seen {
        Skip(graph, seed, maxDepth, before, depth, floor);
      } else {
        seen := seen + {current};
        var page;
        page, queue := FetchPage(site, current, d, maxDepth, queue, seen);
        Crawled(site, seed, maxDepth, before, queue, depth, floor, pages, page, d);
        pages := pages + [page];
        depth := depth[current := d];
      }
      floor := d;
    }
    Concluded(site, seed, maxDepth, queue, depth, floor, pages);
    CountsSeen(depth, seen);
    waiting := queue;
    r := Ok(CrawlOutput(pages, Broken(pages), |seen| + |queue|));
  }
}
