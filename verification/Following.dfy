/** Following the cursors of `_select_page` in api/app.py from page to page. */
module Following {
  import opened Basics
  import opened Keyset
  import opened Pagination
  import opened Wrappers

  ghost const BY_ID: Order<Text> := (a, b) => Less(a, b)

  lemma ByIdTransitive()
    ensures Transitive(BY_ID)
  {
    forall a, b, c ensures Composes(BY_ID, a, b, c) {
      if Less(a, b) && Less(b, c) {
        LessTransitive(a, b, c);
      }
    }
  }

  // ----- one page among others -----

  ghost function Ids(page: Page): Shown<Text> {
    Shown(seq(|page.items|, i requires 0 <= i < |page.items| => page.items[i].Id()), page.next.Some?)
  }

  /** p shows the first `size` ids of `rest`. */
  ghost predicate Truncates(p: Shown<Text>, rest: seq<Item>, size: int) {
    && |p.keys| == (if |rest| > size then size else |rest|)
    && p.more == (|rest| > size)
    && (forall i :: 0 <= i < |p.keys| ==> p.keys[i] == rest[i].Id())
  }

  lemma CutTruncates(rest: seq<Item>, size: int, fields: set<Text>, page: Page)
    requires size >= 1 && page == Cut(rest, size, fields)
    ensures Truncates(Ids(page), rest, size)
  {
    CutIds(rest, size, fields);
  }

  /** The ids of the matching items of a list. */
  ghost function Held(items: seq<Item>, filters: seq<Filter>): iset<Text> {
    iset x: Item | x in items && Matches(x, filters) :: x.Id()
  }

  ghost predicate Onwards(rest: seq<Item>, bound: Option<Text>) {
    Ascending(rest) && forall i :: 0 <= i < |rest| ==> rest[i].Id() != [] && Beyond(BY_ID, bound, rest[i].Id())
  }

  ghost predicate Reaches(rest: seq<Item>, bound: Option<Text>, held: iset<Text>) {
    forall id :: id in held && Beyond(BY_ID, bound, id) ==> At(rest, id)
  }

  ghost predicate At(rest: seq<Item>, id: Text) {
    exists i :: 0 <= i < |rest| && rest[i].Id() == id
  }

  lemma RestIsOnwards(items: seq<Item>, filters: seq<Filter>, bound: Option<Text>, rest: seq<Item>)
    requires Proper(items) && rest == Rest(items, filters, bound)
    ensures Onwards(rest, bound)
  {
    RestAscends(items, filters, bound);
    forall i | 0 <= i < |rest| ensures rest[i].Id() != [] && Beyond(BY_ID, bound, rest[i].Id()) {
      assert rest[i] in rest;
    }
  }

  lemma RestReaches(items: seq<Item>, filters: seq<Filter>, bound: Option<Text>, rest: seq<Item>)
    requires Proper(items) && rest == Rest(items, filters, bound)
    ensures Reaches(rest, bound, Held(items, filters))
  {
    RestAscends(items, filters, bound);
    forall id | id in Held(items, filters) && Beyond(BY_ID, bound, id) ensures At(rest, id) {
      var x :| x in items && Matches(x, filters) && x.Id() == id;
      assert x in rest;
    }
  }

  lemma TruncatedOnward(p: Shown<Text>, rest: seq<Item>, size: int, bound: Option<Text>)
    requires size >= 1 && Truncates(p, rest, size) && Onwards(rest, bound)
    ensures Onward(BY_ID, p, bound)
  {
  }

  lemma TruncatedCovers(p: Shown<Text>, rest: seq<Item>, size: int, bound: Option<Text>, held: iset<Text>)
    requires size >= 1 && Truncates(p, rest, size) && Onwards(rest, bound) && Reaches(rest, bound, held)
    ensures Covers(BY_ID, p, bound, held)
  {
    forall id | id in held && Beyond(BY_ID, bound, id) ensures ShownOrAhead(BY_ID, p, id) {
      assert At(rest, id);
      var i :| 0 <= i < |rest| && rest[i].Id() == id;
      if i < |p.keys| {
        assert p.keys[i] == id;
      } else {
        assert p.keys[size - 1] == rest[size - 1].Id();
      }
    }
  }

  /** The cursor of a page, if there is one, is made of its last id, which is not empty. */
  ghost predicate PointsAtLast(page: Page) {
    page.next.Some? ==> page.items != [] && Last(page) != [] && page.next.value == CursorFor(Last(page))
  }

  lemma OnwardsPoints(rest: seq<Item>, bound: Option<Text>, size: int, fields: set<Text>, page: Page)
    requires size >= 1 && Onwards(rest, bound) && page == Cut(rest, size, fields)
    ensures PointsAtLast(page)
  {
    CutIds(rest, size, fields);
  }

  lemma CutPoints(items: seq<Item>, filters: seq<Filter>, bound: Option<Text>, rest: seq<Item>, size: int,
                  fields: set<Text>, page: Page)
    requires size >= 1 && Proper(items) && rest == Rest(items, filters, bound) && page == Cut(rest, size, fields)
    ensures PointsAtLast(page)
  {
    RestIsOnwards(items, filters, bound, rest);
    OnwardsPoints(rest, bound, size, fields, page);
  }

  /** A page among others: its ids ascend from after the bound, and it shows or leaves
      ahead every matching id from there. */
  ghost predicate Continues(page: Page, bound: Option<Text>, held: iset<Text>) {
    Onward(BY_ID, Ids(page), bound) && Covers(BY_ID, Ids(page), bound, held)
  }

  lemma PageContinues(items: seq<Item>, filters: seq<Filter>, bound: Option<Text>, size: int, fields: set<Text>,
                      page: Page)
    requires size >= 1 && Proper(items) && page == Cut(Rest(items, filters, bound), size, fields)
    ensures Continues(page, bound, Held(items, filters))
  {
    var rest := Rest(items, filters, bound);
    RestIsOnwards(items, filters, bound, rest);
    RestReaches(items, filters, bound, rest);
    CutTruncates(rest, size, fields, page);
    TruncatedOnward(Ids(page), rest, size, bound);
    TruncatedCovers(Ids(page), rest, size, bound, Held(items, filters));
  }

  // ----- any sequence of fetches -----

  /** One fetch: the list as it stood then, and the page it gave. */
  datatype Fetch = Fetch(items: seq<Item>, page: Page)

  ghost function CursorBefore(fs: seq<Fetch>, k: nat): Option<string>
    requires k < |fs|
  {
    if k == 0 then None else fs[k - 1].page.next
  }

  ghost predicate Fetched(f: Fetch, q: Query, cursor: Option<string>) {
    Proper(f.items) && SelectPage(f.items, q.(cursor := cursor)) == Ok(f.page)
  }

  /** The fetches of a client that starts without a cursor and follows the cursor of each
      page to the next; the lists may differ from fetch to fetch. */
  ghost predicate Follows(fs: seq<Fetch>, q: Query) {
    && (forall k {:trigger Fetched(fs[k], q, CursorBefore(fs, k))} :: 0 <= k < |fs| ==>
          Fetched(fs[k], q, CursorBefore(fs, k)))
    && (forall k :: 0 <= k < |fs| - 1 ==> fs[k].page.next.Some?)
  }

  ghost function Bound(fs: seq<Fetch>, k: nat): Option<Text>
    requires k < |fs|
  {
    if k == 0 || fs[k - 1].page.items == [] then None else Some(Last(fs[k - 1].page))
  }

  lemma EmptyCursorInvalid()
    ensures DecodeCursor("").Err?
  {
    CursorRoundTrip([]);
    assert CursorFor([]) == "";
  }

  lemma FetchedProper(fs: seq<Fetch>, q: Query, k: nat)
    requires Follows(fs, q) && k < |fs|
    ensures Proper(fs[k].items) && PageSize(q.limit).Ok?
  {
    assert Fetched(fs[k], q, CursorBefore(fs, k));
  }

  lemma FirstPage(fs: seq<Fetch>, q: Query)
    requires Follows(fs, q) && fs != []
    ensures PageSize(q.limit).Ok?
    ensures fs[0].page == Cut(Rest(fs[0].items, q.filters, None), PageSize(q.limit).value, q.fields)
  {
    assert Fetched(fs[0], q, CursorBefore(fs, 0));
  }

  /** A page requested with the cursor of another starts after the id in it. */
  lemma NextPage(fs: seq<Fetch>, q: Query, k: nat, id: Text)
    requires Follows(fs, q) && 0 < k < |fs| && fs[k - 1].page.next == Some(CursorFor(id)) && id != []
    ensures PageSize(q.limit).Ok?
    ensures fs[k].page == Cut(Rest(fs[k].items, q.filters, Some(id)), PageSize(q.limit).value, q.fields)
  {
    CursorRoundTrip(id);
    EmptyCursorInvalid();
    assert Fetched(fs[k], q, CursorBefore(fs, k));
  }

  /** A page as a function of the list and the bound. */
  type Selection = (seq<Item>, Option<Text>) -> Page

  ghost function Select(q: Query): Selection {
    (items, bound) =>
      if PageSize(q.limit).Err? then Page([], None, false)
      else Cut(Rest(items, q.filters, bound), PageSize(q.limit).value, q.fields)
  }

  ghost predicate Selected(fs: seq<Fetch>, select: Selection, k: nat)
    requires k < |fs|
  {
    fs[k].page == select(fs[k].items, Bound(fs, k))
  }

  ghost predicate KeepsSelecting(fs: seq<Fetch>, select: Selection, k: nat)
    requires 0 < k < |fs|
  {
    Selected(fs, select, k - 1) ==> Selected(fs, select, k)
  }

  lemma {:induction false} AllSelected(fs: seq<Fetch>, select: Selection, k: nat)
    requires k < |fs| && Selected(fs, select, 0) && forall l :: 0 < l < |fs| ==> KeepsSelecting(fs, select, l)
    ensures Selected(fs, select, k)
    decreases k
  {
    if k > 0 {
      AllSelected(fs, select, k - 1);
      assert KeepsSelecting(fs, select, k);
    }
  }

  lemma SelectedPoints(f: Fetch, q: Query, bound: Option<Text>)
    requires Proper(f.items) && PageSize(q.limit).Ok? && f.page == Select(q)(f.items, bound)
    ensures PointsAtLast(f.page)
  {
    CutPoints(f.items, q.filters, bound, Rest(f.items, q.filters, bound), PageSize(q.limit).value, q.fields, f.page);
  }

  lemma SelectCuts(q: Query, items: seq<Item>, bound: Option<Text>)
    requires PageSize(q.limit).Ok?
    ensures Select(q)(items, bound) == Cut(Rest(items, q.filters, bound), PageSize(q.limit).value, q.fields)
  {
  }

  lemma HasNext(fs: seq<Fetch>, q: Query, k: nat)
    requires Follows(fs, q) && k + 1 < |fs|
    ensures fs[k].page.next.Some?
  {
  }

  lemma SelectedAt(f: Fetch, select: Selection, bound: Option<Text>, q: Query)
    requires select == Select(q) && Proper(f.items) && PageSize(q.limit).Ok? && f.page == select(f.items, bound)
    ensures PointsAtLast(f.page)
  {
    SelectedPoints(f, q, bound);
  }

  lemma PointsBefore(fs: seq<Fetch>, q: Query, k: nat, f: Fetch, bound: Option<Text>)
    requires Follows(fs, q) && k < |fs| && f == fs[k] && bound == Bound(fs, k) && Selected(fs, Select(q), k)
    ensures PointsAtLast(f.page)
  {
    FetchedProper(fs, q, k);
    SelectedAt(f, Select(q), bound, q);
  }

  lemma SelectedAfter(fs: seq<Fetch>, q: Query, k: nat, id: Text)
    requires Follows(fs, q) && 0 < k < |fs| && fs[k - 1].page.next == Some(CursorFor(id)) && id != []
    requires Bound(fs, k) == Some(id)
    ensures Selected(fs, Select(q), k)
  {
    NextPage(fs, q, k, id);
    SelectCuts(q, fs[k].items, Some(id));
  }

  lemma NextSelected(fs: seq<Fetch>, q: Query, k: nat)
    requires Follows(fs, q) && 0 < k < |fs| && Selected(fs, Select(q), k - 1)
    ensures Selected(fs, Select(q), k)
  {
    HasNext(fs, q, k - 1);
    PointsBefore(fs, q, k - 1, fs[k - 1], Bound(fs, k - 1));
    SelectedAfter(fs, q, k, Last(fs[k - 1].page));
  }

  /** Every page is the first of what lies after the last id of the page before. */
  lemma EveryPage(fs: seq<Fetch>, q: Query, k: nat)
    requires Follows(fs, q) && k < |fs|
    ensures Selected(fs, Select(q), k)
  {
    FirstPage(fs, q);
    forall l | 0 < l < |fs| ensures KeepsSelecting(fs, Select(q), l) {
      if Selected(fs, Select(q), l - 1) {
        NextSelected(fs, q, l);
      }
    }
    AllSelected(fs, Select(q), k);
  }

  /** So its items are the first of the matching ones that lie there, in the list as it then
      stands, with the fields asked for. */
  lemma EveryPageTrims(fs: seq<Fetch>, q: Query, k: nat)
    requires Follows(fs, q) && k < |fs|
    ensures PageSize(q.limit).Ok?
    ensures var rest, size := Rest(fs[k].items, q.filters, Bound(fs, k)), PageSize(q.limit).value;
      && |fs[k].page.items| == Min(size, |rest|)
      && (forall i :: 0 <= i < |fs[k].page.items| ==> Trims(fs[k].page.items[i], rest[i], q.fields))
  {
    EveryPage(fs, q, k);
    FetchedProper(fs, q, k);
    var rest := Rest(fs[k].items, q.filters, Bound(fs, k));
    forall i | 0 <= i < |fs[k].page.items| ensures Trims(fs[k].page.items[i], rest[i], q.fields) {
      ProjectTrims(rest[i], q.fields);
    }
  }

  lemma EveryPageContinues(fs: seq<Fetch>, q: Query, k: nat)
    requires Follows(fs, q) && k < |fs|
    ensures Continues(fs[k].page, Bound(fs, k), Held(fs[k].items, q.filters))
    ensures fs[k].page.hasMore == fs[k].page.next.Some?
  {
    EveryPage(fs, q, k);
    FetchedProper(fs, q, k);
    PageContinues(fs[k].items, q.filters, Bound(fs, k), PageSize(q.limit).value, q.fields, fs[k].page);
  }

  ghost function Pages(fs: seq<Fetch>): (ps: seq<Shown<Text>>)
    ensures |ps| == |fs| && forall k :: 0 <= k < |fs| ==> ps[k] == Ids(fs[k].page)
  {
    seq(|fs|, k requires 0 <= k < |fs| => Ids(fs[k].page))
  }

  ghost function Lists(fs: seq<Fetch>, q: Query): (ls: seq<iset<Text>>)
    ensures |ls| == |fs| && forall k :: 0 <= k < |fs| ==> ls[k] == Held(fs[k].items, q.filters)
  {
    seq(|fs|, k requires 0 <= k < |fs| => Held(fs[k].items, q.filters))
  }

  lemma SameBound(fs: seq<Fetch>, ps: seq<Shown<Text>>, k: nat)
    requires ps == Pages(fs) && k < |fs|
    ensures BoundBefore(ps, k) == Bound(fs, k)
  {
  }

  lemma FollowingIsChain(fs: seq<Fetch>, q: Query, ps: seq<Shown<Text>>)
    requires Follows(fs, q) && ps == Pages(fs)
    ensures Chain(BY_ID, ps) && ChainOver(BY_ID, ps, Lists(fs, q))
  {
    forall k | 0 <= k < |fs|
      ensures Onward(BY_ID, ps[k], BoundBefore(ps, k)) && Covers(BY_ID, ps[k], BoundBefore(ps, k), Lists(fs, q)[k])
    {
      EveryPageContinues(fs, q, k);
      SameBound(fs, ps, k);
    }
  }

  /** Whatever is inserted or deleted between fetches, ids ascend from page to page, so
      none is ever returned twice. */
  lemma NeverTwice(fs: seq<Fetch>, q: Query, k: nat, l: nat, i: nat, j: nat)
    requires Follows(fs, q)
    requires k <= l < |fs| && i < |fs[k].page.items| && j < |fs[l].page.items| && (k == l ==> i < j)
    ensures Less(fs[k].page.items[i].Id(), fs[l].page.items[j].Id())
    ensures fs[k].page.items[i].Id() != fs[l].page.items[j].Id()
  {
    var ps := Pages(fs);
    FollowingIsChain(fs, q, ps);
    ByIdTransitive();
    ChainAscends(BY_ID, ps, k, l, i, j);
    LessIrreflexive(fs[k].page.items[i].Id());
  }

  ghost predicate Shows(page: Page, id: Text) {
    exists i :: 0 <= i < |page.items| && page.items[i].Id() == id
  }

  /** A matching item present at every fetch is returned by the time the last page says
      there is no more. */
  lemma NothingMissed(fs: seq<Fetch>, q: Query, id: Text)
    requires Follows(fs, q) && fs != [] && !fs[|fs| - 1].page.hasMore
    requires forall k :: 0 <= k < |fs| ==> id in Held(fs[k].items, q.filters)
    ensures exists k :: 0 <= k < |fs| && Shows(fs[k].page, id)
  {
    var ps, n := Pages(fs), |fs| - 1;
    FollowingIsChain(fs, q, ps);
    EveryPageContinues(fs, q, n);
    ChainComplete(BY_ID, ps, Lists(fs, q), id);
    var k :| 0 <= k < |ps| && id in ps[k].keys;
    var i :| 0 <= i < |ps[k].keys| && ps[k].keys[i] == id;
    assert fs[k].page.items[i].Id() == id;
    assert Shows(fs[k].page, id);
  }

  // ----- an unchanging list -----

  /** The items that the first k pages return, in order. */
  ghost function Returned(fs: seq<Fetch>, k: nat): seq<Item>
    requires k <= |fs|
  {
    if k == 0 then [] else Returned(fs, k - 1) + fs[k - 1].page.items
  }

  /** Of an ascending list, what comes after its item i is the rest from i + 1 on. */
  lemma AfterItem(sorted: seq<Item>, i: nat, bound: Text)
    requires Ascending(sorted) && i < |sorted| && bound == sorted[i].Id()
    ensures After(sorted, bound) == sorted[i + 1..]
  {
    var m := AfterIsSuffix(sorted, bound);
    LessIrreflexive(bound);
    assert i < m;
    assert i + 1 < |sorted| ==> Less(bound, sorted[i + 1].Id());
  }

  /** Where page k starts if every page before it was full. */
  ghost function Start(size: nat, k: nat): nat {
    if k == 0 then 0 else Start(size, k - 1) + size
  }

  /** The part of `all` from a up to b, or up to its end. */
  ghost predicate IsSlice(page: Page, all: seq<Item>, a: int, b: int, fields: set<Text>) {
    && 0 <= a <= |all| && a <= b
    && page.items == Projected(all[a..Min(b, |all|)], fields)
    && (page.next.Some? <==> b < |all|)
    && (page.hasMore <==> b < |all|)
  }

  lemma CutIsSlice(all: seq<Item>, a: int, rest: seq<Item>, size: int, fields: set<Text>, page: Page)
    requires 0 <= a <= |all| && rest == all[a..] && size >= 1 && page == Cut(rest, size, fields)
    ensures IsSlice(page, all, a, a + size, fields)
  {
    assert |all| - a > size ==> rest[..size] == all[a..a + size];
    assert all[a..|all|] == all[a..];
  }

  lemma SliceLast(page: Page, all: seq<Item>, a: int, size: int, fields: set<Text>)
    requires size >= 1 && IsSlice(page, all, a, a + size, fields) && page.next.Some?
    ensures page.items != [] && Last(page) == all[a + size - 1].Id()
  {
    assert page.items[size - 1] == Project(all[a..a + size][size - 1], fields);
    ProjectKeepsId(all[a + size - 1], fields);
  }

  ghost function BoundAt(all: seq<Item>, i: nat): Option<Text>
    requires i <= |all|
  {
    if i == 0 then None else Some(all[i - 1].Id())
  }

  ghost predicate SliceFrom(select: Selection, items: seq<Item>, all: seq<Item>, i: nat, size: nat, fields: set<Text>)
    requires i <= |all|
  {
    IsSlice(select(items, BoundAt(all, i)), all, i, i + size, fields)
  }

  /** A selection that slices `all` into pages of `size`: what it selects after item
      i - 1 is the slice from i on. */
  ghost predicate Slices(select: Selection, items: seq<Item>, all: seq<Item>, size: nat, fields: set<Text>) {
    forall i: nat {:trigger SliceFrom(select, items, all, i, size, fields)} :: i <= |all| ==>
      SliceFrom(select, items, all, i, size, fields)
  }

  lemma RestIsSlice(items: seq<Item>, filters: seq<Filter>, all: seq<Item>, i: nat, rest: seq<Item>)
    requires all == Sorted(Matching(items, filters)) && Ascending(all) && i <= |all|
    requires rest == Rest(items, filters, BoundAt(all, i))
    ensures rest == all[i..]
  {
    if i > 0 {
      AfterItem(all, i - 1, all[i - 1].Id());
    }
  }

  lemma SelectsSlice(q: Query, items: seq<Item>, all: seq<Item>, size: nat, i: nat)
    requires PageSize(q.limit) == Ok(size) && all == Sorted(Matching(items, q.filters)) && Ascending(all) && i <= |all|
    ensures SliceFrom(Select(q), items, all, i, size, q.fields)
  {
    var bound := BoundAt(all, i);
    var rest := Rest(items, q.filters, bound);
    RestIsSlice(items, q.filters, all, i, rest);
    CutIsSlice(all, i, rest, size, q.fields, Select(q)(items, bound));
  }

  lemma SelectSlices(q: Query, items: seq<Item>, all: seq<Item>, size: nat)
    requires Proper(items) && PageSize(q.limit) == Ok(size) && all == Sorted(Matching(items, q.filters))
    ensures Slices(Select(q), items, all, size, q.fields)
  {
    MatchingDistinct(items, q.filters);
    SortedAscending(Matching(items, q.filters));
    forall i: nat | i <= |all| ensures SliceFrom(Select(q), items, all, i, size, q.fields) {
      SelectsSlice(q, items, all, size, i);
    }
  }

  ghost predicate Static(fs: seq<Fetch>, select: Selection, items: seq<Item>) {
    && (forall k :: 0 <= k < |fs| ==> fs[k].items == items)
    && (forall k {:trigger Selected(fs, select, k)} :: 0 <= k < |fs| ==> Selected(fs, select, k))
    && (forall k :: 0 <= k < |fs| - 1 ==> fs[k].page.next.Some?)
  }

  ghost predicate StartsAt(f: Fetch, select: Selection, all: seq<Item>, i: nat) {
    i <= |all| && f.page == select(f.items, BoundAt(all, i))
  }

  /** The page after a slice starts where that one ends. */
  lemma NextStart(f: Fetch, select: Selection, items: seq<Item>, all: seq<Item>, i: nat, size: nat, fields: set<Text>)
    requires Slices(select, items, all, size, fields) && size >= 1 && f.items == items
    requires StartsAt(f, select, all, i) && f.page.next.Some?
    ensures f.page.items != [] && i + size <= |all| && BoundAt(all, i + size) == Some(Last(f.page))
  {
    assert SliceFrom(select, items, all, i, size, fields);
    SliceLast(f.page, all, i, size, fields);
  }

  /** Page k starts with item Start(k). */
  lemma {:induction false} StaticPage(fs: seq<Fetch>, select: Selection, items: seq<Item>, all: seq<Item>, size: nat,
                                      fields: set<Text>, k: nat)
    requires Static(fs, select, items) && Slices(select, items, all, size, fields) && k < |fs| && size >= 1
    ensures StartsAt(fs[k], select, all, Start(size, k))
    decreases k
  {
    assert Selected(fs, select, k);
    if k > 0 {
      StaticPage(fs, select, items, all, size, fields, k - 1);
      NextStart(fs[k - 1], select, items, all, Start(size, k - 1), size, fields);
    }
  }

  lemma StaticMore(fs: seq<Fetch>, select: Selection, items: seq<Item>, all: seq<Item>, size: nat, fields: set<Text>,
                   k: nat)
    requires Static(fs, select, items) && Slices(select, items, all, size, fields) && k < |fs| && size >= 1
    ensures Start(size, k) <= |all| && Start(size, k + 1) == Start(size, k) + size
    ensures fs[k].page.hasMore == fs[k].page.next.Some? == (Start(size, k + 1) < |all|)
  {
    StaticPage(fs, select, items, all, size, fields, k);
    assert SliceFrom(select, items, all, Start(size, k), size, fields);
  }

  lemma StaticItems(fs: seq<Fetch>, select: Selection, items: seq<Item>, all: seq<Item>, size: nat,
                    fields: set<Text>, k: nat)
    requires Static(fs, select, items) && Slices(select, items, all, size, fields) && k < |fs| && size >= 1
    ensures Start(size, k) <= |all|
    ensures fs[k].page.items == Projected(all[Start(size, k)..Min(Start(size, k) + size, |all|)], fields)
  {
    StaticPage(fs, select, items, all, size, fields, k);
    assert SliceFrom(select, items, all, Start(size, k), size, fields);
  }

  lemma SlicesJoin(all: seq<Item>, a: int, b: int, fields: set<Text>)
    requires 0 <= a <= b <= |all|
    ensures Projected(all[..a], fields) + Projected(all[a..b], fields) == Projected(all[..b], fields)
  {
  }

  lemma {:induction false} StaticReturned(fs: seq<Fetch>, select: Selection, items: seq<Item>, all: seq<Item>,
                                          size: nat,
                                          fields: set<Text>, k: nat)
    requires Static(fs, select, items) && Slices(select, items, all, size, fields) && 0 < k <= |fs| && size >= 1
    ensures Start(size, k - 1) <= |all| && Start(size, k) == Start(size, k - 1) + size
    ensures Returned(fs, k) == Projected(all[..Min(Start(size, k), |all|)], fields)
    decreases k
  {
    StaticItems(fs, select, items, all, size, fields, k - 1);
    StaticMore(fs, select, items, all, size, fields, k - 1);
    if k > 1 {
      StaticReturned(fs, select, items, all, size, fields, k - 1);
      StaticMore(fs, select, items, all, size, fields, k - 2);
    }
    SlicesJoin(all, Start(size, k - 1), Min(Start(size, k), |all|), fields);
  }

  /** ceil(n / size), but at least one. */
  ghost function FetchesFor(n: nat, size: int): int
    requires size >= 1
  {
    if n == 0 then 1 else (n + size - 1) / size
  }

  lemma {:induction false} StartIsMultiple(size: int, k: nat)
    requires size >= 1
    ensures Start(size, k) == size * k
  {
    if k > 0 {
      StartIsMultiple(size, k - 1);
    }
  }

  lemma Quotient(x: int, size: int, k: int)
    requires size >= 1 && size * k <= x < size * k + size
    ensures x / size == k
  {
    var q, r := x / size, x % size;
    assert x == size * q + r && 0 <= r < size;
    if q < k {
      Multiples(size, q + 1, k);
    } else if q > k {
      Multiples(size, k + 1, q);
    }
  }

  lemma Multiples(size: int, a: int, b: int)
    requires size >= 1 && a <= b
    ensures size * (a - 1) + size == size * a <= size * b
  {
    assert size * (b - a) >= 0;
  }

  /** The last page starts inside the list, or the list is empty. */
  lemma StaticEnd(fs: seq<Fetch>, select: Selection, items: seq<Item>, all: seq<Item>, size: nat, fields: set<Text>,
                  k: nat)
    requires Static(fs, select, items) && Slices(select, items, all, size, fields) && size >= 1
    requires k == |fs| > 0 && !fs[k - 1].page.hasMore
    ensures |all| <= Start(size, k) && (k > 1 ==> Start(size, k - 1) < |all|)
  {
    StaticMore(fs, select, items, all, size, fields, k - 1);
    if k > 1 {
      StaticMore(fs, select, items, all, size, fields, k - 2);
    }
  }

  lemma FetchesNeeded(n: nat, size: nat, k: nat)
    requires size >= 1 && k >= 1 && n <= Start(size, k) && (k > 1 ==> Start(size, k - 1) < n)
    ensures k == FetchesFor(n, size)
  {
    StartIsMultiple(size, k);
    StartIsMultiple(size, k - 1);
    if n > 0 {
      Quotient(n + size - 1, size, k);
    }
  }

  lemma SameLength(items: seq<Item>)
    ensures |Sorted(items)| == |items|
  {
    assert |multiset(Sorted(items))| == |multiset(items)|;
  }

  lemma FollowsStatically(fs: seq<Fetch>, q: Query, items: seq<Item>)
    requires Follows(fs, q) && fs != [] && forall k :: 0 <= k < |fs| ==> fs[k].items == items
    ensures PageSize(q.limit).Ok?
    ensures Static(fs, Select(q), items)
    ensures Slices(Select(q), items, Sorted(Matching(items, q.filters)), PageSize(q.limit).value, q.fields)
  {
    forall k | 0 <= k < |fs| ensures Selected(fs, Select(q), k) {
      EveryPage(fs, q, k);
    }
    FetchedProper(fs, q, 0);
    SelectSlices(q, items, Sorted(Matching(items, q.filters)), PageSize(q.limit).value);
  }

  /** The pages of an unchanging list, up to the one that says there is no more. */
  lemma AllSlices(fs: seq<Fetch>, select: Selection, items: seq<Item>, all: seq<Item>, size: nat, fields: set<Text>)
    requires Static(fs, select, items) && Slices(select, items, all, size, fields) && size >= 1
    requires fs != [] && !fs[|fs| - 1].page.hasMore
    ensures Returned(fs, |fs|) == Projected(all, fields)
    ensures |fs| == FetchesFor(|all|, size)
  {
    StaticEnd(fs, select, items, all, size, fields, |fs|);
    StaticReturned(fs, select, items, all, size, fields, |fs|);
    FetchesNeeded(|all|, size, |fs|);
    assert all[..|all|] == all;
  }

  /** On a list that does not change, the pages up to the one that says there is no more
      return exactly the matching items in id order, each with the fields asked for, in
      max(1, ceil(n / limit)) fetches. */
  lemma StaticPages(fs: seq<Fetch>, q: Query, items: seq<Item>)
    requires Follows(fs, q) && fs != [] && !fs[|fs| - 1].page.hasMore
    requires forall k :: 0 <= k < |fs| ==> fs[k].items == items
    ensures PageSize(q.limit).Ok?
    ensures var all := Sorted(Matching(items, q.filters));
      && |Returned(fs, |fs|)| == |all|
      && (forall i :: 0 <= i < |all| ==> Trims(Returned(fs, |fs|)[i], all[i], q.fields))
    ensures |fs| == FetchesFor(|Matching(items, q.filters)|, PageSize(q.limit).value)
  {
    FollowsStatically(fs, q, items);
    var all := Sorted(Matching(items, q.filters));
    AllSlices(fs, Select(q), items, all, PageSize(q.limit).value, q.fields);
    forall i | 0 <= i < |all| ensures Trims(Returned(fs, |fs|)[i], all[i], q.fields) {
      ProjectTrims(all[i], q.fields);
    }
    SameLength(Matching(items, q.filters));
  }
}
