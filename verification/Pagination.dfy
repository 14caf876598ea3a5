/** Keyset pagination (`_select_page`, `_cursor_for`, `_decode_cursor` in api/app.py).

    Texts are taken as their UTF-8 bytes, whose order is that of the code points. */
module Pagination {
  import opened Base64Url
  import opened Wrappers

  type Text = seq<Byte>

  // ----- the order of ids -----

  predicate Less(a: Text, b: Text) {
    b != [] && (a == [] || a[0] < b[0] || (a[0] == b[0] && Less(a[1..], b[1..])))
  }

  lemma {:induction false} LessTransitive(a: Text, b: Text, c: Text)
    requires Less(a, b) && Less(b, c)
    ensures Less(a, c)
  {
    if a != [] && a[0] == b[0] == c[0] {
      LessTransitive(a[1..], b[1..], c[1..]);
    }
  }

  lemma {:induction false} LessTotal(a: Text, b: Text)
    ensures a == b || Less(a, b) || Less(b, a)
  {
    if a != [] && b != [] {
      LessTotal(a[1..], b[1..]);
      assert a == [a[0]] + a[1..] && b == [b[0]] + b[1..];
    }
  }

  lemma {:induction false} LessIrreflexive(a: Text)
    ensures !Less(a, a)
  {
    if a != [] {
      LessIrreflexive(a[1..]);
    }
  }

  /** a and b agree up to n, where a ends or has the smaller byte. */
  ghost predicate PartsAt(a: Text, b: Text, n: nat) {
    n <= |a| && n < |b| && a[..n] == b[..n] && (n == |a| || a[n] < b[n])
  }

  lemma SameStart(a: Text, b: Text, n: nat)
    requires n > 0 && PartsAt(a, b, n)
    ensures a[0] == b[0]
  {
    assert a[..n][0] == b[..n][0];
  }

  /** The order is the lexicographic one of bytes. */
  lemma {:induction false} LessIsLexicographic(a: Text, b: Text)
    ensures Less(a, b) <==> exists n :: PartsAt(a, b, n)
  {
    if a != [] && b != [] && a[0] == b[0] {
      LessIsLexicographic(a[1..], b[1..]);
      if n: nat :| PartsAt(a, b, n) {
        assert n > 0 && a[1..][..n - 1] == a[..n][1..] && b[1..][..n - 1] == b[..n][1..];
        assert PartsAt(a[1..], b[1..], n - 1);
      }
      if n: nat :| PartsAt(a[1..], b[1..], n) {
        assert a[..n + 1] == [a[0]] + a[1..][..n] && b[..n + 1] == [b[0]] + b[1..][..n];
        assert PartsAt(a, b, n + 1);
      }
    } else if b != [] && (a == [] || a[0] < b[0]) {
      assert PartsAt(a, b, 0);
    } else {
      forall n: nat | 0 < n ensures !PartsAt(a, b, n) {
        if PartsAt(a, b, n) {
          SameStart(a, b, n);
        }
      }
    }
  }

  // ----- items -----

  const ID: Text := [105, 100]

  /** A record as `str` renders its values; a missing field reads as empty. */
  datatype Item = Item(fields: map<Text, Text>)
  {
    function Get(key: Text): Text {
      if key in fields then fields[key] else []
    }

    function Id(): Text {
      Get(ID)
    }
  }

  datatype Filter = Filter(key: Text, value: Text)

  predicate Matches(item: Item, filters: seq<Filter>) {
    forall i :: 0 <= i < |filters| ==> item.Get(filters[i].key) == filters[i].value
  }

  function Matching(items: seq<Item>, filters: seq<Filter>): (r: seq<Item>)
    ensures forall x :: x in r <==> x in items && Matches(x, filters)
  {
    if items == [] then []
    else (if Matches(items[0], filters) then [items[0]] else []) + Matching(items[1..], filters)
  }

  /** An item is left out just for a field whose value is not the one asked for, a missing
      field counting as empty. */
  lemma LeftOutIff(items: seq<Item>, filters: seq<Filter>, x: Item)
    requires x in items
    ensures x !in Matching(items, filters) <==> exists f ::
      f in filters && if f.key in x.fields then x.fields[f.key] != f.value else f.value != []
  {
    if i :| 0 <= i < |filters| && x.Get(filters[i].key) != filters[i].value {
      assert filters[i] in filters;
    }
  }

  function After(items: seq<Item>, bound: Text): seq<Item> {
    if items == [] then []
    else (if Less(bound, items[0].Id()) then [items[0]] else []) + After(items[1..], bound)
  }

  function Inserted(x: Item, sorted: seq<Item>): (r: seq<Item>)
    ensures multiset(r) == multiset(sorted) + multiset{x}
  {
    if sorted == [] then [x]
    else if Less(x.Id(), sorted[0].Id()) then
      [x] + sorted
    else
      assert sorted == [sorted[0]] + sorted[1..];
      [sorted[0]] + Inserted(x, sorted[1..])
  }

  /** A stable sort by id. */
  function Sorted(items: seq<Item>): (r: seq<Item>)
    ensures multiset(r) == multiset(items)
  {
    if items == [] then []
    else
      var n := |items| - 1;
      assert items == items[..n] + [items[n]];
      Inserted(items[n], Sorted(items[..n]))
  }

  ghost predicate Ascending(items: seq<Item>) {
    forall i, j :: 0 <= i < j < |items| ==> Less(items[i].Id(), items[j].Id())
  }

  ghost predicate DistinctIds(items: seq<Item>) {
    forall i, j :: 0 <= i < j < |items| ==> items[i].Id() != items[j].Id()
  }

  lemma {:induction false} InsertedAscending(x: Item, sorted: seq<Item>)
    requires Ascending(sorted) && forall i :: 0 <= i < |sorted| ==> sorted[i].Id() != x.Id()
    ensures Ascending(Inserted(x, sorted))
  {
    if sorted != [] {
      var first, rest := sorted[0], sorted[1..];
      if Less(x.Id(), first.Id()) {
        forall i | 0 < i < |sorted| ensures Less(x.Id(), sorted[i].Id()) {
          LessTransitive(x.Id(), first.Id(), sorted[i].Id());
        }
      } else {
        LessTotal(x.Id(), first.Id());
        InsertedAscending(x, rest);
        InsertedMembers(x, rest);
        var r := Inserted(x, rest);
        forall i | 0 <= i < |r| ensures Less(first.Id(), r[i].Id()) {
          assert r[i] in r;
        }
        assert Inserted(x, sorted) == [first] + r;
      }
    }
  }

  lemma InsertedMembers(x: Item, sorted: seq<Item>)
    ensures forall y :: y in Inserted(x, sorted) <==> y == x || y in sorted
  {
    var r := Inserted(x, sorted);
    forall y ensures y in r <==> y == x || y in sorted {
      assert y in multiset(r) <==> y in multiset(sorted) + multiset{x};
    }
  }

  lemma SortedMembers(items: seq<Item>)
    ensures forall y :: y in Sorted(items) <==> y in items
  {
    forall y ensures y in Sorted(items) <==> y in items {
      assert y in multiset(Sorted(items)) <==> y in multiset(items);
    }
  }

  lemma {:induction false} SortedAscending(items: seq<Item>)
    requires DistinctIds(items)
    ensures Ascending(Sorted(items))
  {
    if items != [] {
      var n := |items| - 1;
      SortedAscending(items[..n]);
      SortedMembers(items[..n]);
      var sorted := Sorted(items[..n]);
      forall i | 0 <= i < |sorted| ensures sorted[i].Id() != items[n].Id() {
        assert sorted[i] in sorted && sorted[i] in items[..n];
        var j :| 0 <= j < n && items[..n][j] == sorted[i];
        assert items[j].Id() != items[n].Id();
      }
      InsertedAscending(items[n], sorted);
    }
  }

  lemma {:induction false} MatchingDistinct(items: seq<Item>, filters: seq<Filter>)
    requires DistinctIds(items)
    ensures DistinctIds(Matching(items, filters))
  {
    if items != [] {
      var rest := Matching(items[1..], filters);
      MatchingDistinct(items[1..], filters);
      forall i | 0 <= i < |rest| ensures rest[i].Id() != items[0].Id() {
        assert rest[i] in rest && rest[i] in items[1..];
        var j :| 0 <= j < |items| - 1 && items[1..][j] == rest[i];
        assert items[j + 1].Id() != items[0].Id();
      }
    }
  }

  /** Of an ascending list the ids after a bound are a suffix. */
  lemma {:induction false} AfterIsSuffix(sorted: seq<Item>, bound: Text) returns (m: nat)
    requires Ascending(sorted)
    ensures m <= |sorted| && After(sorted, bound) == sorted[m..]
    ensures forall i :: 0 <= i < |sorted| ==> (Less(bound, sorted[i].Id()) <==> m <= i)
  {
    if sorted == [] {
      m := 0;
    } else {
      m := AfterIsSuffix(sorted[1..], bound);
      assert forall i :: 0 < i < |sorted| ==> sorted[i] == sorted[1..][i - 1];
      if Less(bound, sorted[0].Id()) {
        if m > 0 {
          LessTransitive(bound, sorted[0].Id(), sorted[1].Id());
        }
        assert [sorted[0]] + sorted[1..] == sorted;
      } else {
        assert sorted[m + 1..] == sorted[1..][m..];
        m := m + 1;
      }
    }
  }

  // ----- one page -----

  /** The limit parameter: missing, a number, or text that is none. */
  datatype LimitParam = Absent | Number(n: int) | NotANumber

  /** The reserved query parameters, and the others as equality filters. */
  datatype Query = Query(filters: seq<Filter>, cursor: Option<string>, limit: LimitParam, fields: set<Text>)

  datatype Page = Page(items: seq<Item>, next: Option<string>, hasMore: bool)

  datatype BadRequest = InvalidCursor

  function CursorFor(id: Text): string {
    Encode(id)
  }

  function DecodeCursor(cursor: string): Result<Text, BadRequest> {
    match DecodeStrictly(cursor)
    case None => Err(InvalidCursor)
    case Some(id) => if id == [] then Err(InvalidCursor) else Ok(id)
  }

  /** Cursors round-trip for every id but the empty one. */
  lemma CursorRoundTrip(id: Text)
    ensures DecodeCursor(CursorFor(id)) == if id == [] then Err(InvalidCursor) else Ok(id)
  {
    StrictDecodeEncode(id);
  }

  /** A cursor that decodes is the one made of its id if and only if it is canonical. */
  lemma CursorIffCanonical(cursor: string, id: Text)
    requires DecodeCursor(cursor) == Ok(id)
    ensures cursor == CursorFor(id) <==> Canonical(cursor)
  {
    DecodedIffCanonical(cursor, id);
  }

  function Apart(a: int, b: int): nat {
    if a < b then b - a else a - b
  }

  /** Fifty if no limit is given; else the number from 1 to 100 nearest to it. */
  function PageSize(limit: LimitParam): (r: Result<int, BadRequest>)
    ensures r.Err? <==> limit == NotANumber
    ensures r.Ok? ==> 1 <= r.value <= 100
    ensures limit == Absent ==> r == Ok(50)
    ensures limit.Number? && 1 <= limit.n <= 100 ==> r.value == limit.n
  {
    match limit
    case Absent => Ok(50)
    case Number(n) => Ok(if n < 1 then 1 else if n > 100 then 100 else n)
    case NotANumber => Err(InvalidCursor)
  }

  /** Any other number gives the nearest size allowed. */
  lemma NearestSize(n: int, size: int)
    requires 1 <= size <= 100
    ensures Apart(n, PageSize(Number(n)).value) <= Apart(n, size)
  {
  }

  function Project(item: Item, fields: set<Text>): Item {
    if fields == {} then item
    else Item(map k | k in item.fields && k in fields + {ID} :: item.fields[k])
  }

  function Projected(items: seq<Item>, fields: set<Text>): (r: seq<Item>)
    ensures |r| == |items| && forall i :: 0 <= i < |items| ==> r[i] == Project(items[i], fields)
  {
    seq(|items|, i requires 0 <= i < |items| => Project(items[i], fields))
  }

  /** `shown` has exactly the fields of x that were asked for, and its id, or all of them if
      none was asked for, each with its own value. */
  ghost predicate Trims(shown: Item, x: Item, fields: set<Text>) {
    && (forall k :: k in shown.fields <==> k in x.fields && (fields == {} || k in fields || k == [105, 100]))
    && (forall k :: k in shown.fields ==> shown.fields[k] == x.fields[k])
  }

  lemma ProjectTrims(item: Item, fields: set<Text>)
    ensures Trims(Project(item, fields), item, fields)
  {
  }

  lemma ProjectKeepsId(item: Item, fields: set<Text>)
    ensures Project(item, fields).Id() == item.Id()
  {
  }

  /** The matching items in id order, from after the bound on. */
  function Rest(items: seq<Item>, filters: seq<Filter>, bound: Option<Text>): seq<Item> {
    var sorted := Sorted(Matching(items, filters));
    if bound.None? then sorted else After(sorted, bound.value)
  }

  function Cut(rest: seq<Item>, size: int, fields: set<Text>): Page
    requires size >= 1
  {
    var hasMore := |rest| > size;
    Page(Projected(if hasMore then rest[..size] else rest, fields),
         if hasMore then Some(CursorFor(rest[size - 1].Id())) else None,
         hasMore)
  }

  function SelectPage(items: seq<Item>, q: Query): Result<Page, BadRequest> {
    var bound := if q.cursor.None? || q.cursor.value == "" then Ok(None)
                 else match DecodeCursor(q.cursor.value)
                      case Err(e) => Err(e)
                      case Ok(id) => Ok(Some(id));
    if bound.Err? then Err(bound.error)
    else if PageSize(q.limit).Err? then Err(PageSize(q.limit).error)
    else Ok(Cut(Rest(items, q.filters, bound.value), PageSize(q.limit).value, q.fields))
  }

  // ----- what a page shows -----

  /** Where a page starts: at the beginning, or after the id in the cursor. */
  function BoundOf(q: Query): Option<Text>
    requires q.cursor.None? || q.cursor.value == "" || DecodeCursor(q.cursor.value).Ok?
  {
    if q.cursor.None? || q.cursor.value == "" then None else Some(DecodeCursor(q.cursor.value).value)
  }

  /** Item i of a page is item i of what remains, with the fields asked for. */
  lemma PageTrims(items: seq<Item>, q: Query, page: Page)
    requires SelectPage(items, q) == Ok(page)
    ensures q.cursor.None? || q.cursor.value == "" || DecodeCursor(q.cursor.value).Ok?
    ensures PageSize(q.limit).Ok?
    ensures var rest, size := Rest(items, q.filters, BoundOf(q)), PageSize(q.limit).value;
      && |page.items| == (if |rest| > size then size else |rest|)
      && (forall i :: 0 <= i < |page.items| ==> Trims(page.items[i], rest[i], q.fields))
  {
    var rest := Rest(items, q.filters, BoundOf(q));
    forall i | 0 <= i < |page.items| ensures Trims(page.items[i], rest[i], q.fields) {
      ProjectTrims(rest[i], q.fields);
    }
  }

  /** A page is refused just for a cursor that does not decode, or a limit that is no
      number: a malformed cursor is never a first page. */
  lemma RefusedIff(items: seq<Item>, q: Query)
    ensures SelectPage(items, q).Err? <==>
      (q.cursor.Some? && q.cursor.value != "" && DecodeCursor(q.cursor.value).Err?) || q.limit == NotANumber
  {
  }

  /** A character that is no letter, of either alphabet, and no padding. */
  predicate Foreign(c: char) {
    !('A' <= c <= 'Z' || 'a' <= c <= 'z' || '0' <= c <= '9') && c !in "-_+/="
  }

  lemma ForeignIsOther(c: char)
    ensures Classify(c) == Other <==> Foreign(c)
  {
    assert "-_+/="[0] == '-' && "-_+/="[1] == '_' && "-_+/="[2] == '+' && "-_+/="[3] == '/' && "-_+/="[4] == '=';
  }

  /** So a cursor with a character outside the alphabet is refused, and one with a letter
      too many. */
  lemma MalformedRefused(items: seq<Item>, q: Query, cursor: string)
    requires q.cursor == Some(cursor)
    requires (exists i :: 0 <= i < |cursor| && Foreign(cursor[i]))
      || (|cursor| % 4 == 1 && forall i :: 0 <= i < |cursor| ==> cursor[i] != '=')
    ensures SelectPage(items, q).Err?
  {
    if i :| 0 <= i < |cursor| && Foreign(cursor[i]) {
      ForeignIsOther(cursor[i]);
      ForeignMalformed(cursor, i);
    } else {
      LoneMalformed(cursor);
    }
  }

  /** Lists as the store keeps them. */
  ghost predicate Proper(items: seq<Item>) {
    DistinctIds(items) && forall i :: 0 <= i < |items| ==> items[i].Id() != []
  }

  ghost function Last(page: Page): Text
    requires page.items != []
  {
    page.items[|page.items| - 1].Id()
  }

  lemma RestAscends(items: seq<Item>, filters: seq<Filter>, bound: Option<Text>)
    requires Proper(items)
    ensures var rest := Rest(items, filters, bound);
      && Ascending(rest)
      && (forall x :: x in rest <==> x in items && Matches(x, filters) && (bound.Some? ==> Less(bound.value, x.Id())))
  {
    var sorted := Sorted(Matching(items, filters));
    MatchingDistinct(items, filters);
    SortedAscending(Matching(items, filters));
    SortedMembers(Matching(items, filters));
    if bound.Some? {
      var m := AfterIsSuffix(sorted, bound.value);
      SuffixMembers(sorted, bound.value, m);
    }
  }

  lemma SuffixMembers(sorted: seq<Item>, bound: Text, m: nat)
    requires m <= |sorted| && forall i :: 0 <= i < |sorted| ==> (Less(bound, sorted[i].Id()) <==> m <= i)
    ensures forall x :: x in sorted[m..] <==> x in sorted && Less(bound, x.Id())
  {
    forall x | x in sorted && Less(bound, x.Id()) ensures x in sorted[m..] {
      var i :| 0 <= i < |sorted| && sorted[i] == x;
      assert sorted[m..][i - m] == x;
    }
  }

  /** The ids of a page are the first ids of the rest. */
  lemma CutIds(rest: seq<Item>, size: int, fields: set<Text>)
    requires size >= 1
    ensures var page := Cut(rest, size, fields);
      && |page.items| == (if |rest| > size then size else |rest|)
      && (forall i :: 0 <= i < |page.items| ==> page.items[i].Id() == rest[i].Id())
  {
    forall i | 0 <= i < |rest| ensures Project(rest[i], fields).Id() == rest[i].Id() {
      ProjectKeepsId(rest[i], fields);
    }
  }
}
