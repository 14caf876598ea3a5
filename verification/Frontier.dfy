/** The URL frontier of source_agents/crawler.py. */
module Frontier {
  import opened Basics

  /** What makes two URLs the same page. */
  type Normal = Url -> Url

  datatype Entry = Entry(url: Url, depth: int, priority: int)

  /** The sort key: priority, then depth. */
  predicate Before(a: Entry, b: Entry) {
    a.priority < b.priority || (a.priority == b.priority && a.depth < b.depth)
  }

  /** Insert after all entries that do not come later. */
  function InsertAfter(queue: seq<Entry>, e: Entry): (r: seq<Entry>)
    ensures |r| == |queue| + 1
  {
    var n := |queue|;
    if n == 0 || !Before(e, queue[n - 1]) then queue + [e]
    else InsertAfter(queue[..n - 1], e) + [queue[n - 1]]
  }

  /** A stable sort by the key. */
  function StableSort(queue: seq<Entry>): seq<Entry> {
    if queue == [] then [] else InsertAfter(StableSort(queue[..|queue| - 1]), queue[|queue| - 1])
  }

  lemma {:induction false} SortsSorted(queue: seq<Entry>)
    requires forall i, j :: 0 <= i < j < |queue| ==> !Before(queue[j], queue[i])
    ensures StableSort(queue) == queue
  {
    if queue != [] {
      SortsSorted(queue[..|queue| - 1]);
      assert |queue| > 1 ==> !Before(queue[|queue| - 1], queue[|queue| - 2]);
    }
  }

  // ----- the order of the queue -----

  /** When each page was added. */
  type Arrivals = map<Url, nat>

  /** a is handed out before b: a smaller key, or the same one and added earlier. */
  ghost predicate Precedes(normal: Normal, at: Arrivals, a: Entry, b: Entry) {
    && normal(a.url) in at && normal(b.url) in at && normal(a.url) != normal(b.url)
    && (Before(a, b) || (!Before(b, a) && at[normal(a.url)] < at[normal(b.url)]))
  }

  ghost predicate InOrder(normal: Normal, at: Arrivals, queue: seq<Entry>) {
    forall i, j :: 0 <= i < j < |queue| ==> Precedes(normal, at, queue[i], queue[j])
  }

  ghost predicate Known(normal: Normal, at: Arrivals, queue: seq<Entry>) {
    forall i :: 0 <= i < |queue| ==> normal(queue[i].url) in at
  }

  ghost predicate Earlier(at: Arrivals, n: nat) {
    forall page :: page in at ==> at[page] < n
  }

  lemma {:induction false} InsertMembers(queue: seq<Entry>, e: Entry)
    ensures forall x :: x in InsertAfter(queue, e) <==> x == e || x in queue
  {
    var n := |queue|;
    if n > 0 && Before(e, queue[n - 1]) {
      InsertMembers(queue[..n - 1], e);
      assert queue == queue[..n - 1] + [queue[n - 1]];
    }
  }

  /** A new page goes behind all entries with its key. */
  lemma {:induction false} InsertInOrder(normal: Normal, at: Arrivals, queue: seq<Entry>, e: Entry, n: nat,
                                         at': Arrivals)
    requires InOrder(normal, at, queue) && Known(normal, at, queue) && Earlier(at, n)
    requires normal(e.url) !in at && at' == at[normal(e.url) := n]
    ensures InOrder(normal, at', InsertAfter(queue, e))
    decreases |queue|
  {
    var k := |queue| - 1;
    if k < 0 {
    } else if Before(e, queue[k]) {
      var r := InsertAfter(queue[..k], e);
      InsertInOrder(normal, at, queue[..k], e, n, at');
      InsertMembers(queue[..k], e);
      forall i | 0 <= i <= k ensures Precedes(normal, at', r[i], queue[k]) {
        assert r[i] in r;
        if r[i] != e {
          var j :| 0 <= j < k && queue[j] == r[i];
          assert Precedes(normal, at, queue[j], queue[k]);
        }
      }
    } else {
      forall i | 0 <= i <= k ensures Precedes(normal, at', queue[i], e) {
        assert i < k ==> Precedes(normal, at, queue[i], queue[k]);
      }
      forall i, j | 0 <= i < j <= k ensures Precedes(normal, at', queue[i], queue[j]) {
        assert Precedes(normal, at, queue[i], queue[j]);
      }
    }
  }

  /** Sorting the queue with an entry appended inserts the entry. */
  lemma SortsAppended(normal: Normal, at: Arrivals, queue: seq<Entry>, e: Entry)
    requires InOrder(normal, at, queue)
    ensures StableSort(queue + [e]) == InsertAfter(queue, e)
  {
    forall i, j | 0 <= i < j < |queue| ensures !Before(queue[j], queue[i]) {
      assert Precedes(normal, at, queue[i], queue[j]);
    }
    SortsSorted(queue);
    assert (queue + [e])[..|queue|] == queue;
  }

  // ----- a whole life -----

  function Limit(maxUrls: int): nat {
    if maxUrls > 0 then maxUrls else 0
  }

  /** Pages handed out, each once. */
  ghost predicate Once(normal: Normal, handed: seq<Entry>) {
    forall i, j :: 0 <= i < j < |handed| ==> normal(handed[i].url) != normal(handed[j].url)
  }

  ghost predicate Apart(normal: Normal, handed: seq<Entry>, queue: seq<Entry>) {
    forall i, j :: 0 <= i < |handed| && 0 <= j < |queue| ==> normal(handed[i].url) != normal(queue[j].url)
  }

  ghost predicate Has(normal: Normal, entries: seq<Entry>, page: Url) {
    exists i :: 0 <= i < |entries| && normal(entries[i].url) == page
  }

  /** The pages seen are those handed out and those in the queue, none twice. */
  ghost predicate Whole(normal: Normal, at: Arrivals, seen: set<Url>, handed: seq<Entry>, queue: seq<Entry>) {
    && at.Keys == seen && Earlier(at, |seen|) && |seen| == |handed| + |queue|
    && InOrder(normal, at, queue) && Known(normal, at, queue) && Known(normal, at, handed)
    && Once(normal, handed) && Apart(normal, handed, queue)
    && (forall page :: page in seen ==> Has(normal, handed, page) || Has(normal, queue, page))
  }

  lemma AddKeeps(normal: Normal, at: Arrivals, seen: set<Url>, handed: seq<Entry>, queue: seq<Entry>, e: Entry,
                 at': Arrivals, seen': set<Url>, queue': seq<Entry>)
    requires Whole(normal, at, seen, handed, queue) && normal(e.url) !in seen
    requires at' == at[normal(e.url) := |seen|] && seen' == seen + {normal(e.url)} && queue' == InsertAfter(queue, e)
    ensures Whole(normal, at', seen', handed, queue')
  {
    InsertInOrder(normal, at, queue, e, |seen|, at');
    InsertMembers(queue, e);
    forall i | 0 <= i < |queue'|
      ensures normal(queue'[i].url) in at'
      ensures forall h :: 0 <= h < |handed| ==> normal(handed[h].url) != normal(queue'[i].url)
    {
      assert queue'[i] in queue';
      if queue'[i] != e {
        var j :| 0 <= j < |queue| && queue[j] == queue'[i];
      }
    }
    forall page | page in seen' ensures Has(normal, handed, page) || Has(normal, queue', page) {
      HasMore(normal, queue, e, queue', page);
    }
  }

  lemma HasMore(normal: Normal, queue: seq<Entry>, e: Entry, queue': seq<Entry>, page: Url)
    requires queue' == InsertAfter(queue, e)
    ensures Has(normal, queue, page) || page == normal(e.url) ==> Has(normal, queue', page)
  {
    InsertMembers(queue, e);
    if Has(normal, queue, page) {
      var i :| 0 <= i < |queue| && normal(queue[i].url) == page;
      assert queue[i] in queue';
    } else if page == normal(e.url) {
      assert e in queue';
    }
  }

  /** The head of the queue has the smallest key, and was added first among its equals. */
  lemma HeadIsFirst(normal: Normal, at: Arrivals, seen: set<Url>, handed: seq<Entry>, queue: seq<Entry>, i: nat)
    requires Whole(normal, at, seen, handed, queue) && 0 < i < |queue|
    ensures queue[0].priority <= queue[i].priority
    ensures queue[0].priority == queue[i].priority ==> queue[0].depth <= queue[i].depth
    ensures queue[0].priority == queue[i].priority && queue[0].depth == queue[i].depth ==>
      at[normal(queue[0].url)] < at[normal(queue[i].url)]
  {
    assert Precedes(normal, at, queue[0], queue[i]);
  }

  lemma PopKeeps(normal: Normal, at: Arrivals, seen: set<Url>, handed: seq<Entry>, queue: seq<Entry>,
                 handed': seq<Entry>, queue': seq<Entry>)
    requires Whole(normal, at, seen, handed, queue) && queue != []
    requires handed' == handed + [queue[0]] && queue' == queue[1..]
    ensures Whole(normal, at, seen, handed', queue')
  {
    forall page | page in seen ensures Has(normal, handed', page) || Has(normal, queue', page) {
      if Has(normal, handed, page) {
        var i :| 0 <= i < |handed| && normal(handed[i].url) == page;
        assert handed'[i] == handed[i];
      } else {
        var i :| 0 <= i < |queue| && normal(queue[i].url) == page;
        assert if i == 0 then handed'[|handed|] == queue[0] else queue'[i - 1] == queue[i];
      }
    }
  }

  /** Over a whole life each page is handed out at most once, and none that is waiting has
      been. */
  lemma HandedOnce(normal: Normal, at: Arrivals, seen: set<Url>, handed: seq<Entry>, queue: seq<Entry>, i: nat, j: nat)
    requires Whole(normal, at, seen, handed, queue) && i < j < |handed| + |queue|
    ensures normal((handed + queue)[i].url) != normal((handed + queue)[j].url)
  {
    if i >= |handed| {
      assert Precedes(normal, at, queue[i - |handed|], queue[j - |handed|]);
    }
  }

  lemma MoveOne(before: seq<Entry>, all: seq<Entry>, i: nat)
    requires i < |all|
    ensures all[i..][0] == all[i] && all[i..][1..] == all[i + 1..]
    ensures all[..i] + [all[i]] == all[..i + 1] && (before + all[..i]) + [all[i]] == before + all[..i + 1]
  {
  }

  class URLFrontier {
    const normal: Normal
    const maxUrls: int
    var queue: seq<Entry>
    var seen: set<Url>
    ghost var arrivals: Arrivals
    ghost var handed: seq<Entry>

    ghost predicate Valid()
      reads this
    {
      Whole(normal, arrivals, seen, handed, queue) && |seen| <= Limit(maxUrls)
    }

    constructor (normal: Normal, maxUrls: int)
      ensures Valid() && this.normal == normal && this.maxUrls == maxUrls
      ensures queue == [] && seen == {} && handed == []
    {
      this.normal, this.maxUrls, queue, seen, arrivals, handed := normal, maxUrls, [], {}, map[], [];
    }

    method Add(url: Url, depth: int, priority: int) returns (added: bool)
      requires Valid()
      modifies this
      ensures Valid() && handed == old(handed)
      ensures added <==> normal(url) !in old(seen) && |old(seen)| < maxUrls
      ensures seen == if added then old(seen) + {normal(url)} else old(seen)
      ensures queue == if added then InsertAfter(old(queue), Entry(url, depth, priority)) else old(queue)
    {
      var page := normal(url);
      if page in seen || |seen| >= maxUrls {
        return false;
      }
      var e := Entry(url, depth, priority);
      var queue' := StableSort(queue + [e]);
      SortsAppended(normal, arrivals, queue, e);
      AddKeeps(normal, arrivals, seen, handed, queue, e, arrivals[page := |seen|], seen + {page}, queue');
      arrivals := arrivals[page := |seen|];
      seen, queue := seen + {page}, queue';
      return true;
    }

    /** Hand out the smallest entry by key, the one added first among equals. */
    method Pop() returns (e: Entry)
      requires Valid() && queue != []
      modifies `queue, `handed
      ensures Valid() && e == old(queue[0]) && queue == old(queue[1..]) && handed == old(handed) + [e]
      ensures forall x :: x in queue ==> e.priority < x.priority || (e.priority == x.priority && e.depth <= x.depth)
    {
      PopKeeps(normal, arrivals, seen, handed, queue, handed + [queue[0]], queue[1..]);
      forall i | 0 < i < |queue| ensures queue[0].priority <= queue[i].priority
        ensures queue[0].priority == queue[i].priority ==> queue[0].depth <= queue[i].depth
      {
        HeadIsFirst(normal, arrivals, seen, handed, queue, i);
      }
      e := queue[0];
      handed, queue := handed + [e], queue[1..];
    }

    method NextBatch(size: int) returns (batch: seq<Entry>)
      requires Valid()
      modifies `queue, `handed
      ensures Valid() && |batch| == (if size < |old(queue)| then Limit(size) else |old(queue)|)
      ensures batch == old(queue)[..|batch|] && queue == old(queue)[|batch|..] && handed == old(handed) + batch
    {
      var n := Limit(if size < |queue| then size else |queue|);
      ghost var all, before := queue, handed;
      batch := [];
      for i := 0 to n
        invariant Valid() && batch == all[..i] && queue == all[i..] && handed == before + all[..i]
      {
        MoveOne(before, all, i);
        var e := Pop();
        batch := batch + [e];
      }
    }
  }
}
