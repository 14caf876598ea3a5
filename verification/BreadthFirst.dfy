/** Breadth-first search over a queue that may hold duplicates and that marks a
    node when the node leaves the queue. */
module BreadthFirst {
  import opened Basics

  /** The out-links of each URL. */
  type Links = Url -> set<Url>

  datatype Entry = Entry(url: Url, depth: nat)

  /** u is the end of a walk of exactly n links from the seed. */
  ghost predicate Walk(next: Links, seed: Url, u: Url, n: nat)
    decreases n
  {
    if n == 0 then u == seed else exists v :: Walk(next, seed, v, n - 1) && u in next(v)
  }

  /** n is the length of a shortest walk from the seed to u. */
  ghost predicate Distance(next: Links, seed: Url, u: Url, n: nat) {
    Walk(next, seed, u, n) && forall k: nat :: k < n ==> !Walk(next, seed, u, k)
  }

  /** u is at most n links away from the seed. */
  ghost predicate Within(next: Links, seed: Url, u: Url, n: nat) {
    exists k: nat :: k <= n && Walk(next, seed, u, k)
  }

  /** Depths in the queue ascend, span at most two values, and lie between
      `floor`, which bounds the depths already crawled, and maxDepth. */
  ghost predicate Layered(queue: seq<Entry>, depth: map<Url, nat>, maxDepth: nat, floor: nat) {
    && floor <= maxDepth
    && (forall i :: 0 <= i < |queue| ==> floor <= queue[i].depth <= maxDepth)
    && (forall i, j :: 0 <= i <= j < |queue| ==> queue[i].depth <= queue[j].depth <= queue[i].depth + 1)
    && (forall u :: u in depth ==> depth[u] <= floor)
  }

  /** Queued depths are lengths of walks, and recorded depths of shortest ones. */
  ghost predicate Sound(next: Links, seed: Url, queue: seq<Entry>, depth: map<Url, nat>) {
    && (forall i :: 0 <= i < |queue| ==> Walk(next, seed, queue[i].url, queue[i].depth))
    && (forall u :: u in depth ==> Distance(next, seed, u, depth[u]))
  }

  /** v has been crawled no deeper than n, or waits in the queue at depth n. */
  ghost predicate Covered(queue: seq<Entry>, depth: map<Url, nat>, v: Url, n: nat) {
    (v in depth && depth[v] <= n) || Entry(v, n) in queue
  }

  /** Every link of a crawled page above the depth limit is covered. */
  ghost predicate Closed(next: Links, seed: Url, maxDepth: nat, queue: seq<Entry>, depth: map<Url, nat>) {
    && Covered(queue, depth, seed, 0)
    && (forall u, v {:trigger v in next(u)} :: u in depth && depth[u] < maxDepth && v in next(u) ==>
          Covered(queue, depth, v, depth[u] + 1))
  }

  /** What holds before every step of the search. */
  ghost predicate Searching(next: Links, seed: Url, maxDepth: nat, queue: seq<Entry>, depth: map<Url, nat>,
                            floor: nat) {
    && Layered(queue, depth, maxDepth, floor)
    && Sound(next, seed, queue, depth)
    && Closed(next, seed, maxDepth, queue, depth)
  }

  lemma Start(next: Links, seed: Url, maxDepth: nat)
    ensures Searching(next, seed, maxDepth, [Entry(seed, 0)], map[], 0)
  {
    assert Entry(seed, 0) in [Entry(seed, 0)];
  }

  /** Every URL nearer than the frontier has been crawled, at no more than its
      walk length. */
  lemma {:induction false} NearerIsSeen(next: Links, seed: Url, maxDepth: nat, queue: seq<Entry>,
                                        depth: map<Url, nat>, u: Url, n: nat)
    requires Closed(next, seed, maxDepth, queue, depth)
    requires n <= maxDepth && forall i :: 0 <= i < |queue| ==> n < queue[i].depth
    requires Walk(next, seed, u, n)
    ensures u in depth && depth[u] <= n
    decreases n
  {
    if n == 0 {
      assert Covered(queue, depth, u, 0);
    } else {
      var v :| Walk(next, seed, v, n - 1) && u in next(v);
      NearerIsSeen(next, seed, maxDepth, queue, depth, v, n - 1);
      assert Covered(queue, depth, u, depth[v] + 1);
    }
  }

  /** Dropping a duplicate keeps its URL covered, and loses no other entry. */
  lemma SkipCovers(queue: seq<Entry>, depth: map<Url, nat>, maxDepth: nat, floor: nat, v: Url, n: nat)
    requires Layered(queue, depth, maxDepth, floor) && queue != [] && queue[0].url in depth
    requires Covered(queue, depth, v, n)
    ensures Covered(queue[1..], depth, v, n)
  {
    if Entry(v, n) in queue && Entry(v, n) != queue[0] {
      assert Entry(v, n) in queue[1..];
    }
  }

  lemma Skip(next: Links, seed: Url, maxDepth: nat, queue: seq<Entry>, depth: map<Url, nat>, floor: nat)
    requires Searching(next, seed, maxDepth, queue, depth, floor)
    requires queue != [] && queue[0].url in depth
    ensures Searching(next, seed, maxDepth, queue[1..], depth, queue[0].depth)
  {
    SkipCovers(queue, depth, maxDepth, floor, seed, 0);
    forall u, v | u in depth && depth[u] < maxDepth && v in next(u)
      ensures Covered(queue[1..], depth, v, depth[u] + 1)
    {
      SkipCovers(queue, depth, maxDepth, floor, v, depth[u] + 1);
    }
  }

  /** `more` is what crawling (u, d) adds to the queue, given what is seen by then. */
  ghost predicate Pushes(next: Links, maxDepth: nat, u: Url, d: nat, seen: set<Url>, more: seq<Entry>) {
    && (forall i :: 0 <= i < |more| ==> more[i].depth == d + 1 <= maxDepth && more[i].url in next(u))
    && (d < maxDepth ==> forall v :: v in next(u) && v !in seen ==> Entry(v, d + 1) in more)
  }

  /** The head of the queue, if new, sits at its distance from the seed. */
  lemma HeadDistance(next: Links, seed: Url, maxDepth: nat, queue: seq<Entry>, depth: map<Url, nat>, floor: nat)
    requires Searching(next, seed, maxDepth, queue, depth, floor)
    requires queue != [] && queue[0].url !in depth
    ensures Distance(next, seed, queue[0].url, queue[0].depth)
  {
    var Entry(u, d) := queue[0];
    forall k: nat | k < d ensures !Walk(next, seed, u, k) {
      if Walk(next, seed, u, k) {
        NearerIsSeen(next, seed, maxDepth, queue, depth, u, k);
      }
    }
  }

  lemma VisitCovers(queue: seq<Entry>, depth: map<Url, nat>, more: seq<Entry>, v: Url, n: nat)
    requires queue != [] && queue[0].url !in depth && Covered(queue, depth, v, n)
    ensures Covered(queue[1..] + more, depth[queue[0].url := queue[0].depth], v, n)
  {
    if Entry(v, n) in queue && Entry(v, n) != queue[0] {
      assert Entry(v, n) in queue[1..];
    }
  }

  lemma VisitCloses(next: Links, seed: Url, maxDepth: nat, queue: seq<Entry>, depth: map<Url, nat>, more: seq<Entry>)
    requires Closed(next, seed, maxDepth, queue, depth)
    requires queue != [] && queue[0].url !in depth && forall u :: u in depth ==> depth[u] <= queue[0].depth
    requires Pushes(next, maxDepth, queue[0].url, queue[0].depth, depth.Keys + {queue[0].url}, more)
    ensures Closed(next, seed, maxDepth, queue[1..] + more, depth[queue[0].url := queue[0].depth])
  {
    var Entry(u, d) := queue[0];
    var queue', depth' := queue[1..] + more, depth[u := d];
    VisitCovers(queue, depth, more, seed, 0);
    forall w, v | w in depth' && depth'[w] < maxDepth && v in next(w)
      ensures Covered(queue', depth', v, depth'[w] + 1)
    {
      if w != u {
        VisitCovers(queue, depth, more, v, depth[w] + 1);
      } else if v !in depth' {
        assert Entry(v, d + 1) in more;
      }
    }
  }

  /** The entries left in the queue and those added. */
  lemma RestAndMore(queue: seq<Entry>, more: seq<Entry>, i: nat)
    requires queue != [] && i < |queue| - 1 + |more|
    ensures (queue[1..] + more)[i] == if i < |queue| - 1 then queue[i + 1] else more[i - (|queue| - 1)]
  {
  }

  lemma VisitLayered(next: Links, queue: seq<Entry>, depth: map<Url, nat>, maxDepth: nat, floor: nat, more: seq<Entry>)
    requires Layered(queue, depth, maxDepth, floor) && queue != []
    requires Pushes(next, maxDepth, queue[0].url, queue[0].depth, depth.Keys + {queue[0].url}, more)
    ensures Layered(queue[1..] + more, depth[queue[0].url := queue[0].depth], maxDepth, queue[0].depth)
  {
    var queue' := queue[1..] + more;
    forall i | 0 <= i < |queue'|
      ensures if i < |queue| - 1 then queue'[i] == queue[i + 1] else queue'[i].depth == queue[0].depth + 1 <= maxDepth
    {
      RestAndMore(queue, more, i);
    }
  }

  lemma VisitSound(next: Links, seed: Url, maxDepth: nat, queue: seq<Entry>, depth: map<Url, nat>, more: seq<Entry>)
    requires Sound(next, seed, queue, depth) && queue != []
    requires Distance(next, seed, queue[0].url, queue[0].depth)
    requires Pushes(next, maxDepth, queue[0].url, queue[0].depth, depth.Keys + {queue[0].url}, more)
    ensures Sound(next, seed, queue[1..] + more, depth[queue[0].url := queue[0].depth])
  {
    var queue' := queue[1..] + more;
    forall i | 0 <= i < |queue'| ensures Walk(next, seed, queue'[i].url, queue'[i].depth) {
      RestAndMore(queue, more, i);
      if i >= |queue| - 1 {
        assert queue'[i].depth - 1 == queue[0].depth && queue'[i].url in next(queue[0].url);
      }
    }
  }

  /** Crawling a new head keeps the search going one entry on. */
  lemma Visit(next: Links, seed: Url, maxDepth: nat, queue: seq<Entry>, depth: map<Url, nat>, floor: nat,
              more: seq<Entry>)
    requires Searching(next, seed, maxDepth, queue, depth, floor)
    requires queue != [] && queue[0].url !in depth
    requires Pushes(next, maxDepth, queue[0].url, queue[0].depth, depth.Keys + {queue[0].url}, more)
    ensures Searching(next, seed, maxDepth, queue[1..] + more, depth[queue[0].url := queue[0].depth], queue[0].depth)
  {
    HeadDistance(next, seed, maxDepth, queue, depth, floor);
    VisitLayered(next, queue, depth, maxDepth, floor, more);
    VisitSound(next, seed, maxDepth, queue, depth, more);
    VisitCloses(next, seed, maxDepth, queue, depth, more);
  }

  /** However the search stops, every crawled URL sits at its distance from the
      seed and nothing nearer than a crawled one is missing. */
  ghost predicate NearestFirst(next: Links, seed: Url, maxDepth: nat, depth: map<Url, nat>) {
    && (forall u :: u in depth ==> depth[u] <= maxDepth && Distance(next, seed, u, depth[u]))
    && (forall p, u, n: nat :: p in depth && n < depth[p] && Walk(next, seed, u, n) ==> u in depth)
  }

  /** The crawled URLs are exactly those within maxDepth links of the seed. */
  ghost predicate Exact(next: Links, seed: Url, maxDepth: nat, depth: map<Url, nat>) {
    forall u :: u in depth <==> Within(next, seed, u, maxDepth)
  }

  lemma Stop(next: Links, seed: Url, maxDepth: nat, queue: seq<Entry>, depth: map<Url, nat>, floor: nat)
    requires Searching(next, seed, maxDepth, queue, depth, floor)
    ensures NearestFirst(next, seed, maxDepth, depth)
    ensures queue == [] ==> Exact(next, seed, maxDepth, depth)
  {
    forall u, n: nat | Walk(next, seed, u, n) && n <= maxDepth && (n < floor || queue == []) ensures u in depth {
      NearerIsSeen(next, seed, maxDepth, queue, depth, u, n);
    }
    forall u | u in depth ensures Within(next, seed, u, maxDepth) {
      assert Distance(next, seed, u, depth[u]);
    }
  }
}
