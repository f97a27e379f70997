/** CursorPaginate (odm/pagination.go) and whole walks through its pages, each
    page a separate find over whatever the collection then holds. */
module Pagination {
  import opened Bson
  import opened Filter
  import opened Queries
  import opened Cursor
  import Int64
  import Sorting

  // ---- The server's find ----

  /** A collection in its natural order: every document has an _id, all different. */
  type Store = seq<Doc>

  predicate ValidStore(store: Store) {
    && (forall d | d in store :: ID in d)
    && (forall i, j :: 0 <= i < j < |store| ==> DifferentIds(store[i], store[j]))
  }

  function Matching(store: Store, f: Filter): (r: Store)
    ensures forall d :: d in r <==> d in store && Matches(f, d)
  {
    if store == [] then []
    else
      var rest := Matching(store[1..], f);
      if Matches(f, store[0]) then [store[0]] + rest else rest
  }

  function Sorted(sorts: seq<SortField>, rows: seq<Doc>): (r: seq<Doc>)
    ensures forall e :: e in r <==> e in rows
    ensures |r| == |rows|
  {
    Sorting.Sort(rows, (d, e) => Before(sorts, d, e))
  }

  function Repeat<T>(x: T, n: nat): (r: seq<T>)
    ensures |r| == n
  {
    seq(n, _ => x)
  }

  function Take(rows: seq<Doc>, n: int): seq<Doc> {
    if n < |rows| then (if n < 0 then [] else rows[..n]) else rows
  }

  /** Does the projection leave this field in the documents returned? An inclusion
      keeps what it names and _id, an exclusion what it does not name; _id may be
      excluded beside either. */
  predicate Kept(projection: seq<Projected>, field: string) {
    match Projection(projection, field)
    case Some(v) => v != 0
    case None => field == ID || forall p | p in projection :: p.value == 0
  }

  function Project(projection: seq<Projected>, d: Doc): Doc {
    map k | k in d && Kept(projection, k) :: d[k]
  }

  function ProjectAll(projection: seq<Projected>, rows: seq<Doc>): (r: seq<Doc>)
    ensures |r| == |rows|
  {
    seq(|rows|, i requires 0 <= i < |rows| => Project(projection, rows[i]))
  }

  /** One atomic find: filter, sort and limit on whole documents, then the projection. */
  function Find(store: Store, f: Filter, sorts: seq<SortField>, projection: seq<Projected>, limit: int): seq<Doc> {
    ProjectAll(projection, Take(Sorted(sorts, Matching(store, f)), limit))
  }

  predicate Increasing(sorts: seq<SortField>, rows: seq<Doc>) {
    forall i, j :: 0 <= i < j < |rows| ==> Before(sorts, rows[i], rows[j])
  }

  predicate AllDifferent(rows: seq<Doc>) {
    forall i, j :: 0 <= i < j < |rows| ==> DifferentIds(rows[i], rows[j])
  }

  /** A sort that decides every pair of documents with different ids. */
  predicate Deciding(sorts: seq<SortField>) {
    SortsOn(sorts, ID)
  }

  lemma Transitive(sorts: seq<SortField>, d: Doc, e: Doc, f: Doc)
    requires Before(sorts, d, e) && Before(sorts, e, f)
    ensures Before(sorts, d, f)
  {
    TupleChain(sorts, KeysOf(sorts, d), KeysOf(sorts, e), KeysOf(sorts, f));
  }

  lemma Asymmetric(sorts: seq<SortField>, d: Doc, e: Doc)
    ensures !(Before(sorts, d, e) && Before(sorts, e, d))
  {
    TupleOpposite(sorts, KeysOf(sorts, d), KeysOf(sorts, e));
  }

  lemma Decided(sorts: seq<SortField>, d: Doc, e: Doc)
    requires Deciding(sorts) && DifferentIds(d, e)
    ensures Before(sorts, d, e) || Before(sorts, e, d)
  {
    TupleOpposite(sorts, KeysOf(sorts, d), KeysOf(sorts, e));
    TupleTie(sorts, KeysOf(sorts, d), KeysOf(sorts, e));
    var s :| s in sorts && s.key == ID;
    var i :| 0 <= i < |sorts| && sorts[i] == s;
    assert Compare(KeysOf(sorts, d)[i], KeysOf(sorts, e)[i]) != 0;
  }

  lemma SortedIncreasing(sorts: seq<SortField>, rows: seq<Doc>)
    requires Deciding(sorts) && AllDifferent(rows)
    ensures Increasing(sorts, Sorted(sorts, rows))
  {
    var before := (d: Doc, e: Doc) => Before(sorts, d, e);
    forall d, e, f | before(d, e) && before(e, f) ensures before(d, f) { Transitive(sorts, d, e, f); }
    forall i, j | 0 <= i < j < |rows| ensures before(rows[i], rows[j]) || before(rows[j], rows[i]) {
      Decided(sorts, rows[i], rows[j]);
    }
    Sorting.SortOrdered(rows, before);
    var r := Sorting.Sort(rows, before);
    assert forall i, j :: 0 <= i < j < |r| ==> before(r[i], r[j]);
    assert r == Sorted(sorts, rows);
  }

  lemma {:induction false} MatchingDifferent(store: Store, f: Filter)
    requires AllDifferent(store)
    ensures AllDifferent(Matching(store, f))
  {
    if store != [] {
      MatchingDifferent(store[1..], f);
      var rest := Matching(store[1..], f);
      forall j | 0 <= j < |rest| ensures DifferentIds(store[0], rest[j]) {
        assert rest[j] in rest;
        var k :| 0 <= k < |store[1..]| && store[1..][k] == rest[j];
        assert store[k + 1] == rest[j];
      }
    }
  }

  lemma BothEmpty(a: seq<Doc>, b: seq<Doc>)
    requires forall d :: d in a <==> d in b
    ensures a == [] <==> b == []
  {
    if |a| > 0 { assert a[0] in b; }
    if |b| > 0 { assert b[0] in a; }
  }

  /** An increasing sequence is determined by what it holds. */
  lemma {:induction false} IncreasingUnique(sorts: seq<SortField>, a: seq<Doc>, b: seq<Doc>)
    requires Increasing(sorts, a) && Increasing(sorts, b)
    requires forall d :: d in a <==> d in b
    ensures a == b
  {
    BothEmpty(a, b);
    if a != [] {
      SameFirst(sorts, a, b);
      forall d ensures d in a[1..] <==> d in b[1..] {
        if d in a[1..] { BehindFirst(sorts, a, b, d); }
        if d in b[1..] { BehindFirst(sorts, b, a, d); }
      }
      IncreasingUnique(sorts, a[1..], b[1..]);
      assert a == [a[0]] + a[1..] && b == [b[0]] + b[1..];
    }
  }

  lemma SameFirst(sorts: seq<SortField>, a: seq<Doc>, b: seq<Doc>)
    requires Increasing(sorts, a) && Increasing(sorts, b) && a != [] && b != [] && a[0] in b && b[0] in a
    ensures a[0] == b[0]
  {
    var i :| 0 <= i < |b| && b[i] == a[0];
    var j :| 0 <= j < |a| && a[j] == b[0];
    Asymmetric(sorts, a[0], b[0]);
  }

  lemma BehindFirst(sorts: seq<SortField>, a: seq<Doc>, b: seq<Doc>, d: Doc)
    requires Increasing(sorts, a) && a != [] && b != [] && a[0] == b[0] && d in a[1..] && (d in a ==> d in b)
    ensures d in b[1..]
  {
    var k :| 0 <= k < |a[1..]| && a[1..][k] == d;
    assert a[k + 1] == d;
    Asymmetric(sorts, a[0], a[0]);
    var i :| 0 <= i < |b| && b[i] == d;
    assert b[1..][i - 1] == d;
  }

  // ---- One page ----

  datatype Page = Page(data: seq<Doc>, next: CursorText, hasMore: bool)

  /** seekQuery */
  function SeekQuery(q: Query, sorts: seq<SortField>, cursor: CursorText): Result<Query> {
    if cursor.NoCursor? then Ok(q)
    else match DecodeCursor(cursor, sorts)
      case Err(e) => Err(e)
      case Ok(keys) => Ok(WithFilter(q, KeysetFilterOf(sorts, keys)))
  }

  /** finishPage, without the eager loading and the snapshots. The keys are read off
      the returned row, which is what the projection left of the document. */
  function FinishPage(data: seq<Doc>, sorts: seq<SortField>, hasMore: bool): Result<Page> {
    if !hasMore || data == [] then Ok(Page(data, NoCursor, hasMore))
    else
      var last := data[|data| - 1];
      if HasKeys(sorts, last) then Ok(Page(data, EncodeCursor(sorts, RowKeys(sorts, last)), true))
      else Err(InvalidQuery("CursorPaginate"))
  }

  /** The limits whose successor is still an int64. */
  type PageLimit = n: int | Int64.MIN <= n < Int64.MAX witness 1

  /** Only those: of the positive int64 limits, the largest alone sends the server a
      wrapped, negative limit. */
  lemma LimitWrapsIff(limit: int)
    requires 0 < limit <= Int64.MAX
    ensures Int64.Wrap(limit + 1) == limit + 1 <==> limit < Int64.MAX
    ensures limit == Int64.MAX ==> Int64.Wrap(limit + 1) == Int64.MIN
  {
  }

  function PageOf(q: Query, store: Store, limit: PageLimit, cursor: CursorText): Result<Page> {
    if q.err.Some? then Err(q.err.value)
    else if limit <= 0 then Err(InvalidQuery("CursorPaginate"))
    else
      var sorts := PageSorts(q.sorts);
      match SeekQuery(q, sorts, cursor)
      case Err(e) => Err(e)
      case Ok(seek) =>
        var found := Find(store, CompileFilter(seek, seek.trashed), sorts, seek.projection, limit + 1);
        FinishPage(Take(found, limit), sorts, |found| > limit)
  }

  method Seek(q: Query, sorts: seq<SortField>, cursor: CursorText) returns (r: Result<Query>)
    ensures r == SeekQuery(q, sorts, cursor)
  {
    if cursor.NoCursor? {
      return Ok(q);
    }
    var keys := DecodeCursor(cursor, sorts);
    if keys.Err? {
      return Err(keys.error);
    }
    var keyset := KeysetFilter(sorts, keys.value);
    return Ok(WithFilter(q, keyset));
  }

  /** The loop over the driver's cursor: at most limit rows are kept, and seeing one
      beyond them ends it early. */
  method ReadPage(found: seq<Doc>, limit: int) returns (models: seq<Doc>, hasMore: bool)
    requires limit > 0
    ensures models == Take(found, limit) && (hasMore <==> |found| > limit)
  {
    models, hasMore := [], false;
    for i := 0 to |found|
      invariant i <= limit && models == found[..i]
    {
      if |models| == limit {
        return models, true;
      }
      models := models + [found[i]];
    }
  }

  method Finish(models: seq<Doc>, sorts: seq<SortField>, hasMore: bool) returns (r: Result<Page>)
    ensures r == FinishPage(models, sorts, hasMore)
  {
    if !hasMore || models == [] {
      return Ok(Page(models, NoCursor, hasMore));
    }
    var keys := CursorKeys(models[|models| - 1], sorts);
    if keys.Err? {
      return Err(keys.error);
    }
    return Ok(Page(models, EncodeCursor(sorts, keys.value), true));
  }

  /** CursorPaginate: one find of limit + 1 rows per page. */
  method CursorPaginate(q: Query, store: Store, limit: PageLimit, cursor: CursorText) returns (r: Result<Page>)
    ensures r == PageOf(q, store, limit, cursor)
  {
    if q.err.Some? {
      return Err(q.err.value);
    }
    if limit <= 0 {
      return Err(InvalidQuery("CursorPaginate"));
    }
    var sorts := PaginationSorts(q.sorts);
    var seek := Seek(q, sorts, cursor);
    if seek.Err? {
      return Err(seek.error);
    }
    var next := seek.value;
    var found := Find(store, CompileFilter(next, next.trashed), sorts, next.projection, Int64.Wrap(limit + 1));
    var models, hasMore := ReadPage(found, limit);
    r := Finish(models, sorts, hasMore);
  }

  /** What the query matches, before any seeking. */
  function Base(q: Query): Filter {
    CompileFilter(q, q.trashed)
  }

  /** Where a cursor points: the start, or just after a key tuple. */
  datatype Position = Start | Past(keys: seq<Value>)

  predicate PositionFits(sorts: seq<SortField>, at: Position) {
    at.Past? ==> |at.keys| == |sorts|
  }

  /** The cursor is one the query accepts, and it points there. */
  predicate PointsAt(sorts: seq<SortField>, cursor: CursorText, at: Position) {
    if cursor.NoCursor? then at == Start
    else DecodeCursor(cursor, sorts).Ok? && at == Past(Values(DecodeCursor(cursor, sorts).value))
  }

  predicate After(sorts: seq<SortField>, at: Position, d: Doc)
    requires PositionFits(sorts, at)
  {
    at.Start? || TupleCompare(sorts, at.keys, KeysOf(sorts, d)) < 0
  }

  /** Not across a type bracket from the position. */
  predicate InReach(sorts: seq<SortField>, at: Position, d: Doc)
    requires PositionFits(sorts, at)
  {
    at.Start? || Comparable(sorts, at.keys, KeysOf(sorts, d))
  }

  /** Seeking narrows the query to what comes after the cursor within reach, under
      the same conditions and the same soft-delete scope. */
  lemma SeekedTest(q: Query, cursor: CursorText, at: Position, d: Doc)
    requires PointsAt(PageSorts(q.sorts), cursor, at)
    requires Matches(Base(q), d) ==> ScalarKeys(PageSorts(q.sorts), d)
    ensures Matches(Base(SeekQuery(q, PageSorts(q.sorts), cursor).value), d) <==>
            Matches(Base(q), d) && After(PageSorts(q.sorts), at, d) && InReach(PageSorts(q.sorts), at, d)
  {
    var sorts := PageSorts(q.sorts);
    if !cursor.NoCursor? {
      var keys := DecodeCursor(cursor, sorts).value;
      var keyset := KeysetFilterOf(sorts, keys);
      if Matches(Base(q), d) { KeysetExact(sorts, keys, d); }
      BuildFilterIsConjunction(q.filters, d);
      BuildFilterIsConjunction(q.filters + [keyset], d);
      if q.meta.softDeletes && SoftDeleteFilter(q.trashed).Some? {
        var scope := SoftDeleteFilter(q.trashed).value;
        BuildFilterIsConjunction(q.filters + [scope], d);
        BuildFilterIsConjunction(q.filters + [keyset] + [scope], d);
      }
    }
  }

  /** The store is one MongoDB can hold, and every document the query matches has
      scalar (possibly null or missing) values in the sort fields. */
  predicate Walkable(q: Query, store: Store) {
    ValidStore(store) && forall d | d in store && Matches(Base(q), d) :: ScalarKeys(PageSorts(q.sorts), d)
  }

  lemma PageSortsDecides(sorts: seq<SortField>)
    ensures Deciding(PageSorts(sorts))
  {
    if !SortsOn(sorts, ID) { assert PageSorts(sorts)[|sorts|].key == ID; }
  }

  /** Everything a page could return: the matches after the cursor within reach. */
  function Rows(q: Query, store: Store, cursor: CursorText): seq<Doc>
    requires SeekQuery(q, PageSorts(q.sorts), cursor).Ok?
  {
    Sorted(PageSorts(q.sorts), Matching(store, Base(SeekQuery(q, PageSorts(q.sorts), cursor).value)))
  }

  lemma RowsHold(q: Query, store: Store, cursor: CursorText, at: Position)
    requires PointsAt(PageSorts(q.sorts), cursor, at) && Walkable(q, store)
    ensures var sorts, rows := PageSorts(q.sorts), Rows(q, store, cursor);
            && Increasing(sorts, rows)
            && (forall d :: d in rows <==>
                  d in store && Matches(Base(q), d) && After(sorts, at, d) && InReach(sorts, at, d))
  {
    var sorts := PageSorts(q.sorts);
    var seeked := Base(SeekQuery(q, sorts, cursor).value);
    PageSortsDecides(q.sorts);
    MatchingDifferent(store, seeked);
    SortedIncreasing(sorts, Matching(store, seeked));
    forall d | d in store
      ensures Matches(seeked, d) <==> Matches(Base(q), d) && After(sorts, at, d) && InReach(sorts, at, d)
    {
      SeekedTest(q, cursor, at, d);
    }
  }

  /** A page in terms of the rows it could return. */
  predicate IsPageOfRows(sorts: seq<SortField>, rows: seq<Doc>, limit: int, p: Page) {
    if |rows| <= limit then p == Page(rows, NoCursor, false)
    else limit > 0 && p == Page(rows[..limit], EncodeCursor(sorts, RowKeys(sorts, rows[limit - 1])), true)
  }

  lemma PageIsOfRows(q: Query, store: Store, limit: PageLimit, cursor: CursorText)
    requires q.projection == []
    requires PageOf(q, store, limit, cursor).Ok?
    ensures limit > 0 && SeekQuery(q, PageSorts(q.sorts), cursor).Ok?
    ensures IsPageOfRows(PageSorts(q.sorts), Rows(q, store, cursor), limit, PageOf(q, store, limit, cursor).value)
  {
    var sorts, rows := PageSorts(q.sorts), Rows(q, store, cursor);
    assert q.err.None? && limit > 0 && SeekQuery(q, sorts, cursor).Ok?;
    var found := Take(rows, limit + 1);
    PageFinishes(q, store, limit, cursor);
    WholeRows(Take(found, limit));
    FinishedRows(sorts, rows, limit);
  }

  lemma FinishedRows(sorts: seq<SortField>, rows: seq<Doc>, limit: int)
    requires limit > 0
    ensures var found := Take(rows, limit + 1);
            var r := FinishPage(Take(found, limit), sorts, |found| > limit);
            r.Ok? ==> IsPageOfRows(sorts, rows, limit, r.value)
  {
    var found := Take(rows, limit + 1);
    if |rows| > limit {
      assert Take(found, limit) == rows[..limit] && rows[..limit][limit - 1] == rows[limit - 1];
    }
  }

  // ---- A query's projection and its pages ----

  /** The query without its projection. */
  function Whole(q: Query): Query {
    q.(projection := [])
  }

  /** The projection keeps every field the page order sorts on. */
  predicate KeepsSort(q: Query) {
    forall s | s in PageSorts(q.sorts) :: Kept(q.projection, s.key)
  }

  lemma WholeRows(rows: seq<Doc>)
    ensures ProjectAll([], rows) == rows
  {
    forall i | 0 <= i < |rows| ensures Project([], rows[i]) == rows[i] {
      assert forall k :: Kept([], k);
    }
  }

  function ProjectPage(q: Query, p: Page): Page {
    p.(data := ProjectAll(q.projection, p.data))
  }

  function ProjectPages(q: Query, pages: seq<Page>): (r: seq<Page>)
    ensures |r| == |pages|
  {
    seq(|pages|, i requires 0 <= i < |pages| => ProjectPage(q, pages[i]))
  }

  /** What a projection does to the keys read off a row: nothing when it keeps the
      sort fields, and otherwise some are missing whatever the document. */
  lemma ProjectedKeys(q: Query, d: Doc)
    ensures var sorts, e := PageSorts(q.sorts), Project(q.projection, d);
            && (HasKeys(sorts, e) <==> HasKeys(sorts, d) && KeepsSort(q))
            && (KeepsSort(q) ==> RowKeys(sorts, e) == RowKeys(sorts, d))
  {
    var sorts, e := PageSorts(q.sorts), Project(q.projection, d);
    forall s | s in sorts ensures s.key in e <==> s.key in d && Kept(q.projection, s.key) {}
    if HasKeys(sorts, e) {
      forall s | s in sorts ensures s.key in d && Kept(q.projection, s.key) { assert s.key in e; }
    }
    if KeepsSort(q) {
      forall i | 0 <= i < |sorts| ensures SortKey(e, sorts[i].key) == SortKey(d, sorts[i].key) {
        assert sorts[i] in sorts;
      }
    }
  }

  lemma ProjectedFinish(q: Query, rows: seq<Doc>, hasMore: bool)
    ensures var sorts := PageSorts(q.sorts);
            var whole := FinishPage(rows, sorts, hasMore);
            FinishPage(ProjectAll(q.projection, rows), sorts, hasMore) ==
            if hasMore && rows != [] && !KeepsSort(q) then Err(InvalidQuery("CursorPaginate"))
            else if whole.Err? then whole else Ok(ProjectPage(q, whole.value))
  {
    if rows != [] { ProjectedKeys(q, rows[|rows| - 1]); }
  }

  lemma ProjectTake(projection: seq<Projected>, rows: seq<Doc>, n: int)
    requires n >= 0
    ensures Take(ProjectAll(projection, rows), n) == ProjectAll(projection, Take(rows, n))
  {
  }

  /** A page of a query is the projected page of the whole documents, refused exactly
      when it says there is more while the projection drops a sort field. */
  lemma ProjectedPage(q: Query, store: Store, limit: PageLimit, cursor: CursorText)
    ensures var whole := PageOf(Whole(q), store, limit, cursor);
            PageOf(q, store, limit, cursor) ==
            if whole.Err? then whole
            else if whole.value.hasMore && !KeepsSort(q) then Err(InvalidQuery("CursorPaginate"))
            else Ok(ProjectPage(q, whole.value))
  {
    var sorts := PageSorts(q.sorts);
    if q.err.None? && limit > 0 && SeekQuery(q, sorts, cursor).Ok? {
      PageFinishes(q, store, limit, cursor);
      PageFinishes(Whole(q), store, limit, cursor);
      var rows := Take(Rows(q, store, cursor), limit + 1);
      WholeRows(Take(rows, limit));
      ProjectedFinish(q, Take(rows, limit), |rows| > limit);
    }
  }

  lemma PageFinishes(q: Query, store: Store, limit: PageLimit, cursor: CursorText)
    requires q.err.None? && limit > 0 && SeekQuery(q, PageSorts(q.sorts), cursor).Ok?
    ensures var rows := Take(Rows(q, store, cursor), limit + 1);
            && PageOf(q, store, limit, cursor) ==
               FinishPage(ProjectAll(q.projection, Take(rows, limit)), PageSorts(q.sorts), |rows| > limit)
            && Rows(Whole(q), store, cursor) == Rows(q, store, cursor)
  {
    ProjectTake(q.projection, Take(Rows(q, store, cursor), limit + 1), limit);
  }

  /** A minted cursor is one the same query accepts, and it points just past the row. */
  lemma MintedCursor(sorts: seq<SortField>, d: Doc)
    ensures PointsAt(sorts, EncodeCursor(sorts, RowKeys(sorts, d)), Past(KeysOf(sorts, d)))
  {
    CursorRoundTrip(sorts, RowKeys(sorts, d), sorts, NoCursor);
    assert Values(RowKeys(sorts, d)) == KeysOf(sorts, d);
  }

  // ---- Walks over a changing collection ----

  datatype Outcome = Finished | Unfinished | Failed(e: Error)
  datatype Walk = Walk(pages: seq<Page>, outcome: Outcome)

  /** One page per version of the collection, each with its own limit, each
      following the last page's cursor until HasMore is false. */
  function WalkFrom(q: Query, stores: seq<Store>, limits: seq<PageLimit>, cursor: CursorText): Walk
    requires |limits| == |stores|
  {
    if stores == [] then Walk([], Unfinished)
    else match PageOf(q, stores[0], limits[0], cursor)
      case Err(e) => Walk([], Failed(e))
      case Ok(p) =>
        if !p.hasMore then Walk([p], Finished)
        else
          var rest := WalkFrom(q, stores[1..], limits[1..], p.next);
          Walk([p] + rest.pages, rest.outcome)
  }

  function Data(pages: seq<Page>): seq<Doc> {
    if pages == [] then [] else pages[0].data + Data(pages[1..])
  }

  function Last(p: Page): Doc
    requires p.data != []
  {
    p.data[|p.data| - 1]
  }

  /** What a page owes the walk: matches after the position and within its reach, in
      order, and no such match left out except behind its last row. */
  predicate PageGood(q: Query, store: Store, at: Position, p: Page)
    requires PositionFits(PageSorts(q.sorts), at)
  {
    var sorts := PageSorts(q.sorts);
    && Increasing(sorts, p.data)
    && (p.hasMore ==> p.data != [])
    && (forall d | d in p.data :: d in store && Matches(Base(q), d) && After(sorts, at, d) && InReach(sorts, at, d))
    && (forall d | d in store && Matches(Base(q), d) && After(sorts, at, d) && InReach(sorts, at, d) ::
          d in p.data || (p.hasMore && Before(sorts, Last(p), d)))
  }

  predicate WalkGood(q: Query, stores: seq<Store>, at: Position, pages: seq<Page>)
    requires PositionFits(PageSorts(q.sorts), at)
  {
    pages == [] ||
    (&& stores != []
     && PageGood(q, stores[0], at, pages[0])
     && if pages[0].hasMore then WalkGood(q, stores[1..], Past(KeysOf(PageSorts(q.sorts), Last(pages[0]))), pages[1..])
        else |pages| == 1)
  }

  lemma PageIsGood(q: Query, store: Store, limit: int, cursor: CursorText, at: Position, p: Page)
    requires PointsAt(PageSorts(q.sorts), cursor, at) && Walkable(q, store)
    requires IsPageOfRows(PageSorts(q.sorts), Rows(q, store, cursor), limit, p)
    ensures PageGood(q, store, at, p)
    ensures p.hasMore ==> PointsAt(PageSorts(q.sorts), p.next, Past(KeysOf(PageSorts(q.sorts), Last(p))))
  {
    RowsHold(q, store, cursor, at);
    RowsMakePage(PageSorts(q.sorts), Rows(q, store, cursor), limit, p);
  }

  lemma RowsMakePage(sorts: seq<SortField>, rows: seq<Doc>, limit: int, p: Page)
    requires Increasing(sorts, rows) && IsPageOfRows(sorts, rows, limit, p)
    ensures Increasing(sorts, p.data) && (p.hasMore ==> p.data != [])
    ensures forall d | d in p.data :: d in rows
    ensures forall d | d in rows :: d in p.data || (p.hasMore && Before(sorts, Last(p), d))
    ensures p.hasMore ==> PointsAt(sorts, p.next, Past(KeysOf(sorts, Last(p))))
  {
    if p.hasMore {
      MintedCursor(sorts, Last(p));
      forall d | d in rows && d !in p.data ensures Before(sorts, Last(p), d) { BehindPage(sorts, rows, limit, d); }
    }
  }

  lemma BehindPage(sorts: seq<SortField>, rows: seq<Doc>, limit: int, d: Doc)
    requires 0 < limit < |rows| && Increasing(sorts, rows) && d in rows && d !in rows[..limit]
    ensures Before(sorts, rows[limit - 1], d)
  {
    var i :| 0 <= i < |rows| && rows[i] == d;
    assert forall k :: 0 <= k < limit ==> rows[..limit][k] == rows[k];
    assert i >= limit;
  }

  /** The pages a walk over whole documents returns, before the query's projection. */
  function WholeWalk(q: Query, stores: seq<Store>, limits: seq<PageLimit>, cursor: CursorText): Walk
    requires |limits| == |stores|
  {
    WalkFrom(Whole(q), stores, limits, cursor)
  }

  /** The projection drops a sort field and the first page has more behind it. */
  predicate Refused(q: Query, whole: Walk) {
    !KeepsSort(q) && whole.pages != [] && whole.pages[0].hasMore
  }

  function ProjectWalk(q: Query, whole: Walk): Walk {
    if Refused(q, whole) then Walk([], Failed(InvalidQuery("CursorPaginate")))
    else Walk(ProjectPages(q, whole.pages), whole.outcome)
  }

  /** Every query's walk is the walk over whole documents, projected page by page, or
      refused on its first page. */
  lemma {:induction false} ProjectedWalk(q: Query, stores: seq<Store>, limits: seq<PageLimit>, cursor: CursorText)
    requires |limits| == |stores|
    ensures WalkFrom(q, stores, limits, cursor) == ProjectWalk(q, WholeWalk(q, stores, limits, cursor))
  {
    if stores != [] {
      ProjectedPage(q, stores[0], limits[0], cursor);
      WalkUnfolds(q, stores, limits, cursor);
      WalkUnfolds(Whole(q), stores, limits, cursor);
      var page := PageOf(Whole(q), stores[0], limits[0], cursor);
      if page.Ok? && page.value.hasMore && KeepsSort(q) {
        ProjectedWalk(q, stores[1..], limits[1..], page.value.next);
        ProjectCons(q, page.value, WholeWalk(q, stores[1..], limits[1..], page.value.next));
      }
    }
  }

  lemma ProjectCons(q: Query, p: Page, rest: Walk)
    requires KeepsSort(q)
    ensures ProjectWalk(q, Walk([p] + rest.pages, rest.outcome)) ==
            Walk([ProjectPage(q, p)] + ProjectWalk(q, rest).pages, ProjectWalk(q, rest).outcome)
  {
  }

  lemma WalkUnfolds(q: Query, stores: seq<Store>, limits: seq<PageLimit>, cursor: CursorText)
    requires |limits| == |stores| && stores != []
    ensures var r := PageOf(q, stores[0], limits[0], cursor);
            WalkFrom(q, stores, limits, cursor) ==
            if r.Err? then Walk([], Failed(r.error))
            else if !r.value.hasMore then Walk([r.value], Finished)
            else
              var rest := WalkFrom(q, stores[1..], limits[1..], r.value.next);
              Walk([r.value] + rest.pages, rest.outcome)
  {
  }

  /** The whole documents behind the pages a walk returned. */
  function Behind(q: Query, stores: seq<Store>, limits: seq<PageLimit>): (pages: seq<Page>)
    requires |limits| == |stores|
  {
    var whole := WholeWalk(q, stores, limits, NoCursor);
    if Refused(q, whole) then [] else whole.pages
  }

  lemma {:induction false} DataProjected(q: Query, pages: seq<Page>)
    ensures Data(ProjectPages(q, pages)) == ProjectAll(q.projection, Data(pages))
  {
    if pages != [] {
      DataProjected(q, pages[1..]);
      assert ProjectPages(q, pages)[1..] == ProjectPages(q, pages[1..]);
    }
  }

  /** A walk's rows are the projections of those documents, in order. */
  lemma WalkProjects(q: Query, stores: seq<Store>, limits: seq<PageLimit>)
    requires |limits| == |stores|
    ensures var w, behind := WalkFrom(q, stores, limits, NoCursor), Behind(q, stores, limits);
            && w.pages == ProjectPages(q, behind)
            && Data(w.pages) == ProjectAll(q.projection, Data(behind))
            && (w.outcome.Finished? ==>
                  var whole := WholeWalk(q, stores, limits, NoCursor);
                  whole.outcome.Finished? && behind == whole.pages)
  {
    ProjectedWalk(q, stores, limits, NoCursor);
    DataProjected(q, Behind(q, stores, limits));
  }

  lemma {:induction false} WalkIsGood(q: Query, stores: seq<Store>, limits: seq<PageLimit>, cursor: CursorText,
        at: Position)
    requires q.projection == []
    requires |limits| == |stores| && PointsAt(PageSorts(q.sorts), cursor, at)
    requires forall s | s in stores :: Walkable(q, s)
    ensures WalkGood(q, stores, at, WalkFrom(q, stores, limits, cursor).pages)
  {
    if stores != [] && PageOf(q, stores[0], limits[0], cursor).Ok? {
      var p := PageOf(q, stores[0], limits[0], cursor).value;
      assert stores[0] in stores;
      PageIsOfRows(q, stores[0], limits[0], cursor);
      PageIsGood(q, stores[0], limits[0], cursor, at, p);
      if p.hasMore {
        WalkIsGood(q, stores[1..], limits[1..], p.next, Past(KeysOf(PageSorts(q.sorts), Last(p))));
        var rest := WalkFrom(q, stores[1..], limits[1..], p.next);
        assert ([p] + rest.pages)[1..] == rest.pages;
      }
    }
  }

  lemma {:induction false} GoodIncreasing(q: Query, stores: seq<Store>, at: Position, pages: seq<Page>)
    requires PositionFits(PageSorts(q.sorts), at) && WalkGood(q, stores, at, pages)
    ensures Increasing(PageSorts(q.sorts), Data(pages))
    ensures forall d | d in Data(pages) :: After(PageSorts(q.sorts), at, d)
  {
    if pages != [] {
      var sorts := PageSorts(q.sorts);
      if !pages[0].hasMore {
        assert Data(pages) == pages[0].data;
      } else {
        var keys := KeysOf(sorts, Last(pages[0]));
        GoodIncreasing(q, stores[1..], Past(keys), pages[1..]);
        JoinIncreasing(sorts, pages[0].data, Data(pages[1..]));
        assert Last(pages[0]) in pages[0].data;
        forall d | d in Data(pages[1..]) ensures After(sorts, at, d) {
          if at.Past? { TupleChain(sorts, at.keys, keys, KeysOf(sorts, d)); }
        }
      }
    }
  }

  lemma JoinIncreasing(sorts: seq<SortField>, a: seq<Doc>, b: seq<Doc>)
    requires a != [] && Increasing(sorts, a) && Increasing(sorts, b)
    requires forall d | d in b :: Before(sorts, a[|a| - 1], d)
    ensures Increasing(sorts, a + b)
  {
    forall i, j | 0 <= i < |a| <= j < |a| + |b| ensures Before(sorts, (a + b)[i], (a + b)[j]) {
      var e := b[j - |a|];
      assert e in b;
      if i < |a| - 1 { Transitive(sorts, a[i], a[|a| - 1], e); }
    }
  }

  predicate FromStore(q: Query, store: Store, p: Page) {
    forall d | d in p.data :: d in store && Matches(Base(q), d)
  }

  /** Each page's rows matched in the version of the collection it ran against. */
  predicate PagesMatch(q: Query, stores: seq<Store>, pages: seq<Page>) {
    |pages| <= |stores| && forall k :: 0 <= k < |pages| ==> FromStore(q, stores[k], pages[k])
  }

  lemma {:induction false} GoodPagesMatch(q: Query, stores: seq<Store>, at: Position, pages: seq<Page>)
    requires PositionFits(PageSorts(q.sorts), at) && WalkGood(q, stores, at, pages)
    ensures PagesMatch(q, stores, pages)
    decreases pages
  {
    if pages != [] && pages[0].hasMore {
      GoodPagesMatch(q, stores[1..], Past(KeysOf(PageSorts(q.sorts), Last(pages[0]))), pages[1..]);
      forall k | 0 < k < |pages| ensures FromStore(q, stores[k], pages[k]) {
        assert FromStore(q, stores[1..][k - 1], pages[1..][k - 1]);
      }
    }
  }

  /** Whatever is inserted, deleted or changed between pages, the documents behind
      the rows a walk returns are strictly increasing in the page order, and each was
      a match in the version of the collection its page ran against. */
  lemma WalkIncreasing(q: Query, stores: seq<Store>, limits: seq<PageLimit>)
    requires |limits| == |stores| && forall s | s in stores :: Walkable(q, s)
    ensures var behind := Behind(q, stores, limits);
            && WalkFrom(q, stores, limits, NoCursor).pages == ProjectPages(q, behind)
            && Increasing(PageSorts(q.sorts), Data(behind)) && PagesMatch(q, stores, behind)
  {
    WalkProjects(q, stores, limits);
    WholeIncreasing(q, stores, limits);
  }

  lemma WholeIncreasing(q: Query, stores: seq<Store>, limits: seq<PageLimit>)
    requires |limits| == |stores| && forall s | s in stores :: Walkable(q, s)
    ensures var pages := WholeWalk(q, stores, limits, NoCursor).pages;
            WalkGood(q, stores, Start, pages) && Increasing(PageSorts(q.sorts), Data(pages)) &&
                PagesMatch(q, stores, pages)
  {
    var pages := WholeWalk(q, stores, limits, NoCursor).pages;
    forall s | s in stores ensures Walkable(Whole(q), s) {}
    WalkIsGood(Whole(q), stores, limits, NoCursor, Start);
    WholeGood(q, stores, Start, pages);
    GoodIncreasing(q, stores, Start, pages);
    GoodPagesMatch(q, stores, Start, pages);
  }

  /** What pages owe a walk does not involve the projection. */
  lemma {:induction false} WholeGood(q: Query, stores: seq<Store>, at: Position, pages: seq<Page>)
    requires PositionFits(PageSorts(q.sorts), at) && WalkGood(Whole(q), stores, at, pages)
    ensures WalkGood(q, stores, at, pages)
    decreases pages
  {
    if pages != [] && pages[0].hasMore {
      assert PageGood(q, stores[0], at, pages[0]);
      WholeGood(q, stores[1..], Past(KeysOf(PageSorts(q.sorts), Last(pages[0]))), pages[1..]);
    }
  }

  predicate Has(q: Query, d: Doc, id: Value, keys: seq<Value>) {
    ID in d && d[ID] == id && Matches(Base(q), d) && KeysOf(PageSorts(q.sorts), d) == keys
  }

  /** In this version of the collection there is a match with these keys under this id. */
  predicate Holds(q: Query, store: Store, id: Value, keys: seq<Value>) {
    exists d :: d in store && Has(q, d, id, keys)
  }

  /** If the page ends before these keys with more to come, its last row is not across
      a type bracket from them. */
  predicate BoundaryReaches(sorts: seq<SortField>, p: Page, keys: seq<Value>)
    requires |keys| == |sorts|
  {
    p.hasMore && p.data != [] && TupleCompare(sorts, KeysOf(sorts, Last(p)), keys) < 0 ==>
      Comparable(sorts, KeysOf(sorts, Last(p)), keys)
  }

  predicate BoundariesReach(sorts: seq<SortField>, pages: seq<Page>, keys: seq<Value>)
    requires |keys| == |sorts|
  {
    forall p | p in pages :: BoundaryReaches(sorts, p, keys)
  }

  predicate Ahead(sorts: seq<SortField>, at: Position, keys: seq<Value>)
    requires PositionFits(sorts, at) && |keys| == |sorts|
  {
    at.Start? || (TupleCompare(sorts, at.keys, keys) < 0 && Comparable(sorts, at.keys, keys))
  }

  /** The document is on this page, or still ahead of where the next one starts. */
  lemma PageReaches(q: Query, store: Store, at: Position, p: Page, id: Value, keys: seq<Value>) returns (r: Option<Doc>)
    requires PositionFits(PageSorts(q.sorts), at) && PageGood(q, store, at, p)
    requires |keys| == |PageSorts(q.sorts)| && Ahead(PageSorts(q.sorts), at, keys)
    requires Holds(q, store, id, keys) && BoundaryReaches(PageSorts(q.sorts), p, keys)
    ensures r.Some? ==> r.value in p.data && Has(q, r.value, id, keys)
    ensures r.None? ==> p.hasMore && Ahead(PageSorts(q.sorts), Past(KeysOf(PageSorts(q.sorts), Last(p))), keys)
  {
    var d :| d in store && Has(q, d, id, keys);
    if d in p.data {
      r := Some(d);
    } else {
      r := None;
      assert Last(p) in p.data;
    }
  }

  lemma {:induction false} GoodReaches(q: Query, stores: seq<Store>, at: Position, pages: seq<Page>, id: Value,
        keys: seq<Value>)
      returns (r: Doc)
    requires PositionFits(PageSorts(q.sorts), at) && WalkGood(q, stores, at, pages)
    requires pages != [] && !pages[|pages| - 1].hasMore
    requires |keys| == |PageSorts(q.sorts)| && Ahead(PageSorts(q.sorts), at, keys)
    requires forall s | s in stores :: Holds(q, s, id, keys)
    requires BoundariesReach(PageSorts(q.sorts), pages, keys)
    ensures r in Data(pages) && Has(q, r, id, keys)
    decreases pages
  {
    var p, rest := pages[0], pages[1..];
    assert stores[0] in stores && p in pages;
    assert Data(pages) == p.data + Data(rest);
    var found := PageReaches(q, stores[0], at, p, id, keys);
    if found.Some? {
      r := found.value;
    } else {
      assert rest != [] && rest[|rest| - 1] == pages[|pages| - 1];
      r := GoodReaches(q, stores[1..], Past(KeysOf(PageSorts(q.sorts), Last(p))), rest, id, keys);
    }
  }

  lemma {:induction false} PageHolding(pages: seq<Page>, d: Doc) returns (k: nat)
    requires d in Data(pages)
    ensures k < |pages| && d in pages[k].data
  {
    if d in pages[0].data {
      k := 0;
    } else {
      k := PageHolding(pages[1..], d);
      k := k + 1;
    }
  }

  lemma SameIdSameKeys(q: Query, store: Store, d: Doc, id: Value, keys: seq<Value>)
    requires ValidStore(store) && Holds(q, store, id, keys)
    requires d in store && ID in d && d[ID] == id
    ensures KeysOf(PageSorts(q.sorts), d) == keys
  {
    var e :| e in store && Has(q, e, id, keys);
    var i :| 0 <= i < |store| && store[i] == d;
    var j :| 0 <= j < |store| && store[j] == e;
    CompareSelf(id);
    assert i == j;
  }

  /** A finished walk ends on the page that says so. */
  lemma {:induction false} FinishedEnds(q: Query, stores: seq<Store>, limits: seq<PageLimit>, cursor: CursorText)
    requires |limits| == |stores| && WalkFrom(q, stores, limits, cursor).outcome.Finished?
    ensures var pages := WalkFrom(q, stores, limits, cursor).pages; pages != [] && !pages[|pages| - 1].hasMore
  {
    var p := PageOf(q, stores[0], limits[0], cursor).value;
    if p.hasMore { FinishedEnds(q, stores[1..], limits[1..], p.next); }
  }

  /** Rows under one id all have the same keys, so an increasing walk holds one. */
  lemma OnlyOnce(q: Query, stores: seq<Store>, pages: seq<Page>, i: nat, j: nat, id: Value, keys: seq<Value>)
    requires PagesMatch(q, stores, pages) && forall s | s in stores :: ValidStore(s) && Holds(q, s, id, keys)
    requires Increasing(PageSorts(q.sorts), Data(pages))
    requires i < |Data(pages)| && Has(q, Data(pages)[i], id, keys)
    requires j < |Data(pages)| && ID in Data(pages)[j] && Data(pages)[j][ID] == id
    ensures i == j
  {
    var d := Data(pages)[j];
    SameKeysBehind(q, stores, pages, d, id, keys);
    TupleOpposite(PageSorts(q.sorts), keys, keys);
    assert !Before(PageSorts(q.sorts), Data(pages)[i], d) && !Before(PageSorts(q.sorts), d, Data(pages)[i]);
  }

  lemma GoodReturnsOnce(q: Query, stores: seq<Store>, pages: seq<Page>, id: Value, keys: seq<Value>)
    requires WalkGood(q, stores, Start, pages) && pages != [] && !pages[|pages| - 1].hasMore
    requires PagesMatch(q, stores, pages) && Increasing(PageSorts(q.sorts), Data(pages))
    requires |keys| == |PageSorts(q.sorts)| && BoundariesReach(PageSorts(q.sorts), pages, keys)
    requires forall s | s in stores :: ValidStore(s) && Holds(q, s, id, keys)
    ensures ReturnedOnce(q, Data(pages), id, keys)
  {
    var rows := Data(pages);
    var r := GoodReaches(q, stores, Start, pages, id, keys);
    var i :| 0 <= i < |rows| && rows[i] == r;
    forall j | 0 <= j < |rows| && ID in rows[j] && rows[j][ID] == id ensures j == i {
      OnlyOnce(q, stores, pages, i, j, id, keys);
    }
  }

  /** One row carries this id, and it has these keys. */
  predicate ReturnedOnce(q: Query, rows: seq<Doc>, id: Value, keys: seq<Value>) {
    exists i :: 0 <= i < |rows| && Has(q, rows[i], id, keys) &&
      forall j :: 0 <= j < |rows| && ID in rows[j] && rows[j][ID] == id ==> j == i
  }

  // ---- The other half: what a boundary does not reach never comes ----

  /** A returned row is reached from the position the pages start at. */
  lemma {:induction false} ReturnedInReach(q: Query, stores: seq<Store>, at: Position, pages: seq<Page>, r: Doc)
    requires PositionFits(PageSorts(q.sorts), at) && WalkGood(q, stores, at, pages) && r in Data(pages)
    ensures InReach(PageSorts(q.sorts), at, r)
    decreases pages
  {
    var sorts, p := PageSorts(q.sorts), pages[0];
    assert Data(pages) == p.data + Data(pages[1..]);
    if r !in p.data {
      var keys := KeysOf(sorts, Last(p));
      assert p.hasMore && Last(p) in p.data;
      ReturnedInReach(q, stores[1..], Past(keys), pages[1..], r);
      GoodIncreasing(q, stores[1..], Past(keys), pages[1..]);
      if at.Past? { ReachComposes(sorts, at.keys, keys, KeysOf(sorts, r)); }
    }
  }

  /** A row of an increasing page does not come behind the page's last row. */
  lemma NotBehindLast(sorts: seq<SortField>, p: Page, r: Doc)
    requires Increasing(sorts, p.data) && r in p.data
    ensures !Before(sorts, Last(p), r)
  {
    var i :| 0 <= i < |p.data| && p.data[i] == r;
    if i < |p.data| - 1 { Asymmetric(sorts, r, Last(p)); } else { Asymmetric(sorts, r, r); }
  }

  /** Every page end before a returned row reaches it. */
  lemma {:induction false} ReturnedIsReached(q: Query, stores: seq<Store>, at: Position, pages: seq<Page>, r: Doc)
    requires PositionFits(PageSorts(q.sorts), at) && WalkGood(q, stores, at, pages) && r in Data(pages)
    ensures BoundariesReach(PageSorts(q.sorts), pages, KeysOf(PageSorts(q.sorts), r))
    decreases pages
  {
    var sorts, p, rest := PageSorts(q.sorts), pages[0], pages[1..];
    assert Data(pages) == p.data + Data(rest) && pages == [p] + rest;
    if p.hasMore {
      var next := Past(KeysOf(sorts, Last(p)));
      if r in p.data {
        NotBehindLast(sorts, p, r);
        GoodIncreasing(q, stores[1..], next, rest);
        forall b | b in rest ensures BoundaryReaches(sorts, b, KeysOf(sorts, r)) { LaterEndIsBehind(q, p, rest, b, r); }
      } else {
        ReturnedInReach(q, stores[1..], next, rest, r);
        ReturnedIsReached(q, stores[1..], next, rest, r);
      }
    }
  }

  lemma LaterEndIsBehind(q: Query, p: Page, rest: seq<Page>, b: Page, r: Doc)
    requires Increasing(PageSorts(q.sorts), p.data) && r in p.data && b in rest
    requires forall d | d in Data(rest) :: Before(PageSorts(q.sorts), Last(p), d)
    ensures b.data != [] ==> !Before(PageSorts(q.sorts), Last(b), r)
  {
    if b.data != [] {
      var sorts := PageSorts(q.sorts);
      InData(rest, b, Last(b));
      var i :| 0 <= i < |p.data| && p.data[i] == r;
      if i < |p.data| - 1 { Transitive(sorts, r, Last(p), Last(b)); }
      Asymmetric(sorts, r, Last(b));
    }
  }

  lemma {:induction false} InData(pages: seq<Page>, p: Page, d: Doc)
    requires p in pages && d in p.data
    ensures d in Data(pages)
  {
    if p != pages[0] { InData(pages[1..], p, d); }
  }

  /** The walk's promise, exactly: of a finished walk, a document that matched with the
      same sort keys in every version of the collection was returned once if and only
      if every page end before it reaches it, and not at all otherwise. */
  lemma WalkReturnsExactlyOnce(q: Query, stores: seq<Store>, limits: seq<PageLimit>, id: Value, keys: seq<Value>)
    requires |limits| == |stores| && |keys| == |PageSorts(q.sorts)|
    requires forall s | s in stores :: Walkable(q, s) && Holds(q, s, id, keys)
    requires WalkFrom(q, stores, limits, NoCursor).outcome.Finished?
    ensures var behind := Behind(q, stores, limits);
            var rows := Data(behind);
            && (ReturnedOnce(q, rows, id, keys) <==> BoundariesReach(PageSorts(q.sorts), behind, keys))
            && (!BoundariesReach(PageSorts(q.sorts), behind, keys) ==> forall r | r in rows :: ID !in r || r[ID] != id)
            && Data(WalkFrom(q, stores, limits, NoCursor).pages) == ProjectAll(q.projection, rows)
  {
    WalkProjects(q, stores, limits);
    WholeIncreasing(q, stores, limits);
    FinishedEnds(Whole(q), stores, limits, NoCursor);
    GoodReturnsIff(q, stores, Behind(q, stores, limits), id, keys);
  }

  lemma GoodReturnsIff(q: Query, stores: seq<Store>, pages: seq<Page>, id: Value, keys: seq<Value>)
    requires WalkGood(q, stores, Start, pages) && pages != [] && !pages[|pages| - 1].hasMore
    requires PagesMatch(q, stores, pages) && Increasing(PageSorts(q.sorts), Data(pages))
    requires |keys| == |PageSorts(q.sorts)|
    requires forall s | s in stores :: ValidStore(s) && Holds(q, s, id, keys)
    ensures ReturnedOnce(q, Data(pages), id, keys) <==> BoundariesReach(PageSorts(q.sorts), pages, keys)
    ensures !BoundariesReach(PageSorts(q.sorts), pages, keys) ==> forall r | r in Data(pages) :: ID !in r || r[ID] != id
  {
    var sorts := PageSorts(q.sorts);
    if BoundariesReach(sorts, pages, keys) {
      GoodReturnsOnce(q, stores, pages, id, keys);
    }
    forall r | r in Data(pages) && ID in r && r[ID] == id ensures BoundariesReach(sorts, pages, keys) {
      SameKeysBehind(q, stores, pages, r, id, keys);
      ReturnedIsReached(q, stores, Start, pages, r);
    }
    if ReturnedOnce(q, Data(pages), id, keys) {
      var i :| 0 <= i < |Data(pages)| && Has(q, Data(pages)[i], id, keys);
      assert Data(pages)[i] in Data(pages);
    }
  }

  lemma SameKeysBehind(q: Query, stores: seq<Store>, pages: seq<Page>, r: Doc, id: Value, keys: seq<Value>)
    requires PagesMatch(q, stores, pages) && forall s | s in stores :: ValidStore(s) && Holds(q, s, id, keys)
    requires r in Data(pages) && ID in r && r[ID] == id
    ensures KeysOf(PageSorts(q.sorts), r) == keys
  {
    var k := PageHolding(pages, r);
    assert stores[k] in stores && FromStore(q, stores[k], pages[k]);
    SameIdSameKeys(q, stores[k], r, id, keys);
  }
}
