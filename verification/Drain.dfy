/** Draining a collection nobody changes, page by page: exactly when it is exact. */
module Drain {
  import opened Bson
  import opened Filter
  import opened Queries
  import opened Cursor
  import opened Pagination

  predicate Reaches(sorts: seq<SortField>, from: Doc, d: Doc) {
    Comparable(sorts, KeysOf(sorts, from), KeysOf(sorts, d))
  }

  /** The rows a seek past `from` still finds. */
  function Reached(sorts: seq<SortField>, from: Doc, rows: seq<Doc>): (r: seq<Doc>)
    ensures |r| <= |rows|
  {
    if rows == [] then []
    else
      var rest := Reached(sorts, from, rows[1..]);
      if Reaches(sorts, from, rows[0]) then [rows[0]] + rest else rest
  }

  lemma {:induction false} InReached(sorts: seq<SortField>, from: Doc, rows: seq<Doc>)
    ensures forall d :: d in Reached(sorts, from, rows) <==> d in rows && Reaches(sorts, from, d)
  {
    if rows != [] {
      InReached(sorts, from, rows[1..]);
      assert rows == [rows[0]] + rows[1..];
    }
  }

  lemma {:induction false} ReachedAll(sorts: seq<SortField>, from: Doc, rows: seq<Doc>)
    ensures |Reached(sorts, from, rows)| == |rows| ==> Reached(sorts, from, rows) == rows
    ensures |Reached(sorts, from, rows)| == |rows| <==> forall d | d in rows :: Reaches(sorts, from, d)
  {
    if rows != [] {
      ReachedAll(sorts, from, rows[1..]);
      assert rows == [rows[0]] + rows[1..];
    }
  }

  lemma {:induction false} ReachedIncreasing(sorts: seq<SortField>, from: Doc, rows: seq<Doc>)
    requires Increasing(sorts, rows)
    ensures Increasing(sorts, Reached(sorts, from, rows))
  {
    if rows != [] {
      ReachedIncreasing(sorts, from, rows[1..]);
      InReached(sorts, from, rows[1..]);
      var rest := Reached(sorts, from, rows[1..]);
      forall j | 0 <= j < |rest| ensures Before(sorts, rows[0], rest[j]) {
        assert rest[j] in rest;
        var k :| 0 <= k < |rows[1..]| && rows[1..][k] == rest[j];
        assert rows[k + 1] == rest[j];
      }
    }
  }

  /** The next page's rows are the rows behind this one that its last row reaches. */
  lemma NextRows(q: Query, store: Store, at: Position, rows: seq<Doc>, limit: int)
    requires PositionFits(PageSorts(q.sorts), at) && Walkable(q, store) && 0 < limit < |rows|
    requires Increasing(PageSorts(q.sorts), rows)
    requires forall d :: d in rows <==>
               (d in store && Matches(Base(q), d) && After(PageSorts(q.sorts), at, d) &&
                   InReach(PageSorts(q.sorts), at, d))
    ensures var sorts, last := PageSorts(q.sorts), rows[limit - 1];
            var next := EncodeCursor(sorts, RowKeys(sorts, last));
            && PointsAt(sorts, next, Past(KeysOf(sorts, last)))
            && Rows(q, store, next) == Reached(sorts, last, rows[limit..])
  {
    var sorts, last := PageSorts(q.sorts), rows[limit - 1];
    var next := EncodeCursor(sorts, RowKeys(sorts, last));
    MintedCursor(sorts, last);
    RowsHold(q, store, next, Past(KeysOf(sorts, last)));
    ReachedIncreasing(sorts, last, rows[limit..]);
    InReached(sorts, last, rows[limit..]);
    forall d ensures d in Rows(q, store, next) <==> d in Reached(sorts, last, rows[limit..]) {
      if d in Rows(q, store, next) { BehindLast(q, at, rows, limit, d); }
      if d in rows[limit..] {
        var i :| 0 <= i < |rows| - limit && rows[limit..][i] == d;
        assert rows[limit + i] == d && d in rows;
      }
    }
    IncreasingUnique(sorts, Rows(q, store, next), Reached(sorts, last, rows[limit..]));
  }

  lemma BehindLast(q: Query, at: Position, rows: seq<Doc>, limit: int, d: Doc)
    requires PositionFits(PageSorts(q.sorts), at) && 0 < limit < |rows| && Increasing(PageSorts(q.sorts), rows)
    requires After(PageSorts(q.sorts), at, rows[limit - 1]) && InReach(PageSorts(q.sorts), at, rows[limit - 1])
    requires Before(PageSorts(q.sorts), rows[limit - 1], d) && Reaches(PageSorts(q.sorts), rows[limit - 1], d)
    requires After(PageSorts(q.sorts), at, d) && InReach(PageSorts(q.sorts), at, d) ==> d in rows
    ensures d in rows[limit..]
  {
    var sorts, last := PageSorts(q.sorts), rows[limit - 1];
    if at.Past? {
      TupleChain(sorts, at.keys, KeysOf(sorts, last), KeysOf(sorts, d));
      ReachComposes(sorts, at.keys, KeysOf(sorts, last), KeysOf(sorts, d));
    }
    var i :| 0 <= i < |rows| && rows[i] == d;
    Asymmetric(sorts, last, d);
    Asymmetric(sorts, d, d);
    assert i >= limit;
    assert rows[limit..][i - limit] == d;
  }

  // ---- The drain as a process on the list of rows ----

  datatype Drained = Drained(pages: seq<seq<Doc>>, outcome: Outcome)

  /** At most `fuel` pages of a list of rows, by the page-and-seek rule. */
  function DrainRows(sorts: seq<SortField>, rows: seq<Doc>, limit: int, fuel: nat): Drained
    requires limit > 0
    decreases fuel
  {
    if fuel == 0 then Drained([], Unfinished)
    else if |rows| <= limit then Drained([rows], Finished)
    else
      var last := rows[limit - 1];
      if !HasKeys(sorts, last) then Drained([], Failed(InvalidQuery("CursorPaginate")))
      else
        var rest := DrainRows(sorts, Reached(sorts, last, rows[limit..]), limit, fuel - 1);
        Drained([rows[..limit]] + rest.pages, rest.outcome)
  }

  function PageData(pages: seq<Page>): (r: seq<seq<Doc>>)
    ensures |r| == |pages|
  {
    seq(|pages|, i requires 0 <= i < |pages| => pages[i].data)
  }

  /** Every page but the last of a finished drain says there is more. */
  predicate FlagsRight(w: Walk) {
    && (forall i :: 0 <= i < |w.pages| - 1 ==> w.pages[i].hasMore)
    && (w.pages != [] ==> (w.pages[|w.pages| - 1].hasMore <==> !w.outcome.Finished?))
    && (w.pages == [] ==> !w.outcome.Finished?)
  }

  lemma PageOfKnownRows(q: Query, store: Store, limit: PageLimit, cursor: CursorText)
    requires q.projection == []
    requires q.err.None? && limit > 0 && SeekQuery(q, PageSorts(q.sorts), cursor).Ok?
    ensures var sorts, rows := PageSorts(q.sorts), Rows(q, store, cursor);
            PageOf(q, store, limit, cursor) ==
            if |rows| > limit && !HasKeys(sorts, rows[limit - 1]) then Err(InvalidQuery("CursorPaginate"))
            else if |rows| > limit then Ok(Page(rows[..limit], EncodeCursor(sorts, RowKeys(sorts, rows[limit - 1])),
                true))
            else Ok(Page(rows, NoCursor, false))
  {
    var sorts, rows := PageSorts(q.sorts), Rows(q, store, cursor);
    var found := Take(rows, limit + 1);
    if |rows| > limit {
      assert found == rows[..limit + 1] && Take(found, limit) == rows[..limit];
      assert rows[..limit][limit - 1] == rows[limit - 1];
    } else {
      assert Take(found, limit) == rows;
    }
    PageFinishes(q, store, limit, cursor);
    WholeRows(Take(found, limit));
  }

  /** The walk and the process agree, page for page. */
  predicate Agrees(w: Walk, r: Drained) {
    PageData(w.pages) == r.pages && w.outcome == r.outcome && FlagsRight(w)
  }

  lemma ConsAgrees(p: Page, w: Walk, r: Drained)
    requires p.hasMore && Agrees(w, r)
    ensures Agrees(Walk([p] + w.pages, w.outcome), Drained([p.data] + r.pages, r.outcome))
  {
    var pages := [p] + w.pages;
    assert forall i :: 0 < i < |pages| ==> pages[i] == w.pages[i - 1];
    assert PageData(pages) == [p.data] + PageData(w.pages);
  }

  lemma WalkStep(q: Query, store: Store, limit: PageLimit, fuel: nat, cursor: CursorText)
    requires q.projection == []
    requires q.err.None? && limit > 0 && SeekQuery(q, PageSorts(q.sorts), cursor).Ok? && fuel > 0
    ensures var sorts, rows := PageSorts(q.sorts), Rows(q, store, cursor);
            WalkFrom(q, Repeat(store, fuel), Repeat(limit, fuel), cursor) ==
            if |rows| <= limit then Walk([Page(rows, NoCursor, false)], Finished)
            else if !HasKeys(sorts, rows[limit - 1]) then Walk([], Failed(InvalidQuery("CursorPaginate")))
            else
              var next := EncodeCursor(sorts, RowKeys(sorts, rows[limit - 1]));
              var rest := WalkFrom(q, Repeat(store, fuel - 1), Repeat(limit, fuel - 1), next);
              Walk([Page(rows[..limit], next, true)] + rest.pages, rest.outcome)
  {
    PageOfKnownRows(q, store, limit, cursor);
    assert Repeat(store, fuel)[1..] == Repeat(store, fuel - 1) && Repeat(limit, fuel)[1..] == Repeat(limit, fuel - 1);
  }

  /** The walk over an unchanging collection, returning whole documents, is that process. */
  lemma {:induction false} WholeWalkIsDrain(q: Query, store: Store, limit: PageLimit, fuel: nat, cursor: CursorText,
        at: Position)
    requires q.projection == []
    requires q.err.None? && limit > 0 && Walkable(q, store)
    requires PointsAt(PageSorts(q.sorts), cursor, at)
    ensures Agrees(WalkFrom(q, Repeat(store, fuel), Repeat(limit, fuel), cursor),
                   DrainRows(PageSorts(q.sorts), Rows(q, store, cursor), limit, fuel))
    decreases fuel
  {
    if fuel > 0 {
      var sorts, rows := PageSorts(q.sorts), Rows(q, store, cursor);
      WalkStep(q, store, limit, fuel, cursor);
      if |rows| > limit && HasKeys(sorts, rows[limit - 1]) {
        var last := rows[limit - 1];
        var next := EncodeCursor(sorts, RowKeys(sorts, last));
        RowsHold(q, store, cursor, at);
        NextRows(q, store, at, rows, limit);
        WholeWalkIsDrain(q, store, limit, fuel - 1, next, Past(KeysOf(sorts, last)));
        ConsAgrees(Page(rows[..limit], next, true),
                   WalkFrom(q, Repeat(store, fuel - 1), Repeat(limit, fuel - 1), next),
                   DrainRows(sorts, Reached(sorts, last, rows[limit..]), limit, fuel - 1));
      }
    }
  }

  // ---- When the process loses nothing ----

  function Flat(pages: seq<seq<Doc>>): seq<Doc> {
    if pages == [] then [] else pages[0] + Flat(pages[1..])
  }

  lemma FlatCons(page: seq<Doc>, rest: seq<seq<Doc>>)
    ensures Flat([page] + rest) == page + Flat(rest)
  {
    assert ([page] + rest)[1..] == rest;
  }

  /** The sorted rows cut into pages of `limit`; no rows make one empty page. */
  function Chunks(rows: seq<Doc>, limit: int): seq<seq<Doc>>
    requires limit > 0
    decreases |rows|
  {
    if |rows| <= limit then [rows] else [rows[..limit]] + Chunks(rows[limit..], limit)
  }

  /** Every page boundary is sound: its last row has all sort fields, and every row
      still to come differs from it first inside one type bracket. */
  predicate SoundBoundaries(sorts: seq<SortField>, rows: seq<Doc>, limit: int)
    requires limit > 0
    decreases |rows|
  {
    |rows| <= limit ||
    (var last := rows[limit - 1];
     && HasKeys(sorts, last)
     && (forall d | d in rows[limit..] :: Reaches(sorts, last, d))
     && SoundBoundaries(sorts, rows[limit..], limit))
  }

  function PageCount(n: nat, limit: int): nat
    requires limit > 0
    decreases n
  {
    if n <= limit then 1 else 1 + PageCount(n - limit, limit)
  }

  lemma {:induction false} ChunksFlat(rows: seq<Doc>, limit: int)
    requires limit > 0
    ensures Flat(Chunks(rows, limit)) == rows && |Chunks(rows, limit)| == PageCount(|rows|, limit)
    decreases |rows|
  {
    if |rows| > limit {
      ChunksFlat(rows[limit..], limit);
      assert ([rows[..limit]] + Chunks(rows[limit..], limit))[1..] == Chunks(rows[limit..], limit);
      assert rows == rows[..limit] + rows[limit..];
    } else {
      assert Flat([rows]) == rows + Flat([rows][1..]) == rows;
    }
  }

  lemma {:induction false} DrainBound(sorts: seq<SortField>, rows: seq<Doc>, limit: int, fuel: nat)
    requires limit > 0
    ensures |Flat(DrainRows(sorts, rows, limit, fuel).pages)| <= |rows|
    decreases fuel
  {
    if fuel > 0 && |rows| > limit && HasKeys(sorts, rows[limit - 1]) {
      var behind := Reached(sorts, rows[limit - 1], rows[limit..]);
      DrainBound(sorts, behind, limit, fuel - 1);
      FlatCons(rows[..limit], DrainRows(sorts, behind, limit, fuel - 1).pages);
    } else if fuel > 0 && |rows| <= limit {
      assert Flat([rows]) == rows + Flat([rows][1..]) == rows;
    }
  }

  lemma {:induction false} SoundDrains(sorts: seq<SortField>, rows: seq<Doc>, limit: int, fuel: nat)
    requires limit > 0 && SoundBoundaries(sorts, rows, limit) && fuel >= PageCount(|rows|, limit)
    ensures DrainRows(sorts, rows, limit, fuel) == Drained(Chunks(rows, limit), Finished)
    decreases fuel
  {
    if |rows| <= limit {
      assert DrainRows(sorts, rows, limit, fuel) == Drained([rows], Finished);
    } else {
      var rest := rows[limit..];
      SoundFirst(sorts, rows, limit);
      assert fuel - 1 >= PageCount(|rest|, limit);
      SoundDrains(sorts, rest, limit, fuel - 1);
      FirstChunk(sorts, rows, limit, fuel);
    }
  }

  lemma FirstChunk(sorts: seq<SortField>, rows: seq<Doc>, limit: int, fuel: nat)
    requires limit > 0 && |rows| > limit && HasKeys(sorts, rows[limit - 1])
    requires Reached(sorts, rows[limit - 1], rows[limit..]) == rows[limit..] && fuel >= PageCount(|rows|, limit)
    ensures fuel > 0 && fuel - 1 >= PageCount(|rows[limit..]|, limit)
    ensures Chunks(rows, limit) == [rows[..limit]] + Chunks(rows[limit..], limit)
    ensures var rest := DrainRows(sorts, rows[limit..], limit, fuel - 1);
            DrainRows(sorts, rows, limit, fuel) == Drained([rows[..limit]] + rest.pages, rest.outcome)
  {
  }

  lemma SoundFirst(sorts: seq<SortField>, rows: seq<Doc>, limit: int)
    requires limit > 0 && |rows| > limit && SoundBoundaries(sorts, rows, limit)
    ensures HasKeys(sorts, rows[limit - 1]) && SoundBoundaries(sorts, rows[limit..], limit)
    ensures Reached(sorts, rows[limit - 1], rows[limit..]) == rows[limit..]
  {
    ReachedAll(sorts, rows[limit - 1], rows[limit..]);
  }

  lemma {:induction false} CompleteIsSound(sorts: seq<SortField>, rows: seq<Doc>, limit: int, fuel: nat)
    requires limit > 0
    requires var r := DrainRows(sorts, rows, limit, fuel); r.outcome.Finished? && |Flat(r.pages)| == |rows|
    ensures SoundBoundaries(sorts, rows, limit)
    decreases fuel
  {
    if |rows| > limit {
      CompleteFirst(sorts, rows, limit, fuel);
      CompleteIsSound(sorts, rows[limit..], limit, fuel - 1);
    }
  }

  /** A drain that loses nothing loses nothing at its first boundary. */
  lemma CompleteFirst(sorts: seq<SortField>, rows: seq<Doc>, limit: int, fuel: nat)
    requires limit > 0 && |rows| > limit
    requires var r := DrainRows(sorts, rows, limit, fuel); r.outcome.Finished? && |Flat(r.pages)| == |rows|
    ensures fuel > 0 && HasKeys(sorts, rows[limit - 1])
    ensures forall d | d in rows[limit..] :: Reaches(sorts, rows[limit - 1], d)
    ensures var rest := DrainRows(sorts, rows[limit..], limit, fuel - 1);
            rest.outcome.Finished? && |Flat(rest.pages)| == |rows[limit..]|
  {
    var last := rows[limit - 1];
    var behind := Reached(sorts, last, rows[limit..]);
    var rest := DrainRows(sorts, behind, limit, fuel - 1);
    FlatCons(rows[..limit], rest.pages);
    DrainBound(sorts, behind, limit, fuel - 1);
    ReachedAll(sorts, last, rows[limit..]);
  }

  lemma {:induction false} FlatData(pages: seq<Page>)
    ensures Data(pages) == Flat(PageData(pages))
  {
    if pages != [] {
      FlatData(pages[1..]);
      assert PageData(pages)[1..] == PageData(pages[1..]);
    }
  }

  /** The sorted list of everything the query matches. */
  function AllRows(q: Query, store: Store): seq<Doc> {
    Sorted(PageSorts(q.sorts), Matching(store, Base(q)))
  }

  function DrainWalk(q: Query, store: Store, limit: PageLimit, fuel: nat): Walk {
    WalkFrom(q, Repeat(store, fuel), Repeat(limit, fuel), NoCursor)
  }

  /** The projection drops a sort field, and the rows do not fit one page. */
  predicate DrainRefused(q: Query, store: Store, limit: int) {
    !KeepsSort(q) && |AllRows(q, store)| > limit
  }

  /** What a drain returns, said on the sorted list of matching documents: the
      process's pages, projected, or a refusal of the first page. */
  lemma WalkIsDrain(q: Query, store: Store, limit: PageLimit, fuel: nat)
    requires q.err.None? && limit > 0 && Walkable(q, store) && fuel > 0
    ensures var w, r := DrainWalk(q, store, limit, fuel), DrainRows(PageSorts(q.sorts), AllRows(q, store), limit, fuel);
            if DrainRefused(q, store, limit) then w == Walk([], Failed(InvalidQuery("CursorPaginate")))
            else PageData(w.pages) == ProjectedData(q, r.pages) && w.outcome == r.outcome && FlagsRight(w)
  {
    var stores, limits := Repeat(store, fuel), Repeat(limit, fuel);
    var whole, r := WholeWalk(q, stores, limits, NoCursor), DrainRows(PageSorts(q.sorts), AllRows(q, store), limit,
        fuel);
    assert Rows(Whole(q), store, NoCursor) == AllRows(q, store);
    WholeWalkIsDrain(Whole(q), store, limit, fuel, NoCursor, Start);
    ProjectedWalk(q, stores, limits, NoCursor);
    RefusedIff(q, store, limit, fuel);
    assert DrainWalk(q, store, limit, fuel) == ProjectWalk(q, whole);
    if !Refused(q, whole) { ProjectedAgrees(q, whole, r); }
  }

  lemma ProjectedAgrees(q: Query, whole: Walk, r: Drained)
    requires Agrees(whole, r)
    ensures var pages := ProjectPages(q, whole.pages);
            PageData(pages) == ProjectedData(q, r.pages) && FlagsRight(Walk(pages, whole.outcome))
  {
    assert forall i :: 0 <= i < |whole.pages| ==> PageData(whole.pages)[i] == whole.pages[i].data;
  }

  lemma RefusedIff(q: Query, store: Store, limit: PageLimit, fuel: nat)
    requires q.err.None? && limit > 0 && Walkable(q, store) && fuel > 0
    ensures var sorts, rows := PageSorts(q.sorts), AllRows(q, store);
            var whole := WholeWalk(q, Repeat(store, fuel), Repeat(limit, fuel), NoCursor);
            && (Refused(q, whole) ==> DrainRefused(q, store, limit))
            && (DrainRefused(q, store, limit) ==>
                  Refused(q, whole) || whole == Walk([], Failed(InvalidQuery("CursorPaginate"))))
  {
    assert Rows(Whole(q), store, NoCursor) == AllRows(q, store);
    WalkStep(Whole(q), store, limit, fuel, NoCursor);
  }

  function ProjectedData(q: Query, pages: seq<seq<Doc>>): (r: seq<seq<Doc>>)
    ensures |r| == |pages|
  {
    seq(|pages|, i requires 0 <= i < |pages| => ProjectAll(q.projection, pages[i]))
  }

  lemma {:induction false} FlatProjected(q: Query, pages: seq<seq<Doc>>)
    ensures Flat(ProjectedData(q, pages)) == ProjectAll(q.projection, Flat(pages))
  {
    if pages != [] {
      FlatProjected(q, pages[1..]);
      assert ProjectedData(q, pages)[1..] == ProjectedData(q, pages[1..]);
    }
  }

  /** The rows a drain should return: every match, sorted, projected. */
  function WantedRows(q: Query, store: Store): seq<Doc> {
    ProjectAll(q.projection, AllRows(q, store))
  }

  predicate DrainsExactly(q: Query, store: Store, limit: PageLimit, fuel: nat) {
    var w := DrainWalk(q, store, limit, fuel);
    w.outcome.Finished? && Data(w.pages) == WantedRows(q, store)
  }

  /** One page is enough, or its cursors can be minted and lose nothing: the
      projection keeps the sort fields and every page boundary is sound. */
  predicate DrainSound(q: Query, store: Store, limit: int)
    requires limit > 0
  {
    |AllRows(q, store)| <= limit ||
    (KeepsSort(q) && SoundBoundaries(PageSorts(q.sorts), AllRows(q, store), limit))
  }

  /** Draining an unchanging collection from the empty cursor with any positive limit
      returns exactly the sorted, projected list of matching documents if and only if
      the drain is sound. */
  lemma DrainExactIff(q: Query, store: Store, limit: PageLimit, fuel: nat)
    requires q.err.None? && limit > 0 && Walkable(q, store)
    requires fuel >= PageCount(|AllRows(q, store)|, limit)
    ensures DrainsExactly(q, store, limit, fuel) <==> DrainSound(q, store, limit)
  {
    var sorts, rows := PageSorts(q.sorts), AllRows(q, store);
    var w := DrainWalk(q, store, limit, fuel);
    WalkIsDrain(q, store, limit, fuel);
    FlatData(w.pages);
    FlatProjected(q, DrainRows(sorts, rows, limit, fuel).pages);
    if DrainSound(q, store, limit) {
      SoundDrains(sorts, rows, limit, fuel);
      ChunksFlat(rows, limit);
    }
    if DrainsExactly(q, store, limit, fuel) && |rows| > limit {
      CompleteIsSound(sorts, rows, limit, fuel);
    }
  }

  /** A sound drain: each page holds min(limit, remaining) rows, HasMore is true
      exactly while rows remain, and there are max(1, ceil(n / limit)) pages: the
      least number whose product with the limit is not below n. */
  lemma DrainPages(q: Query, store: Store, limit: PageLimit, fuel: nat)
    requires q.err.None? && limit > 0 && Walkable(q, store) && DrainSound(q, store, limit)
    requires fuel >= PageCount(|AllRows(q, store)|, limit)
    ensures var w, rows := DrainWalk(q, store, limit, fuel), WantedRows(q, store);
            && PageData(w.pages) == Chunks(rows, limit)
            && w.outcome == Finished && FlagsRight(w)
            && (if rows == [] then |w.pages| == 1 else (|w.pages| - 1) * limit < |rows| <= |w.pages| * limit)
  {
    SoundDrainIsChunks(q, store, limit, fuel);
    PageCountIsCeiling(|AllRows(q, store)|, limit);
  }

  lemma SoundDrainIsChunks(q: Query, store: Store, limit: PageLimit, fuel: nat)
    requires q.err.None? && limit > 0 && Walkable(q, store) && DrainSound(q, store, limit)
    requires fuel >= PageCount(|AllRows(q, store)|, limit)
    ensures var w := DrainWalk(q, store, limit, fuel);
            && PageData(w.pages) == Chunks(WantedRows(q, store), limit)
            && |w.pages| == PageCount(|AllRows(q, store)|, limit)
            && w.outcome == Finished && FlagsRight(w)
  {
    var rows := AllRows(q, store);
    WalkIsDrain(q, store, limit, fuel);
    assert SoundBoundaries(PageSorts(q.sorts), rows, limit);
    SoundDrains(PageSorts(q.sorts), rows, limit, fuel);
    ProjectedChunks(q, rows, limit);
    ChunksFlat(rows, limit);
  }

  lemma {:induction false} ProjectedChunks(q: Query, rows: seq<Doc>, limit: int)
    requires limit > 0
    ensures ProjectedData(q, Chunks(rows, limit)) == Chunks(ProjectAll(q.projection, rows), limit)
    decreases |rows|
  {
    if |rows| > limit {
      var projected, rest := ProjectAll(q.projection, rows), Chunks(rows[limit..], limit);
      ProjectedChunks(q, rows[limit..], limit);
      assert projected[..limit] == ProjectAll(q.projection, rows[..limit]);
      assert projected[limit..] == ProjectAll(q.projection, rows[limit..]);
      assert ProjectedData(q, [rows[..limit]] + rest) == [ProjectAll(q.projection, rows[..limit])] + ProjectedData(q,
          rest);
    } else {
      assert ProjectedData(q, [rows]) == [ProjectAll(q.projection, rows)];
    }
  }

  lemma {:induction false} PageCountIsCeiling(n: nat, limit: int)
    requires limit > 0
    ensures if n == 0 then PageCount(n, limit) == 1
            else (PageCount(n, limit) - 1) * limit < n <= PageCount(n, limit) * limit
    decreases n
  {
    if n > limit {
      PageCountIsCeiling(n - limit, limit);
      var k := PageCount(n - limit, limit);
      assert (k + 1) * limit == k * limit + limit && (k - 1) * limit == k * limit - limit;
    }
  }

  predicate SoundPair(sorts: seq<SortField>, d: Doc, e: Doc) {
    HasKeys(sorts, d) && Reaches(sorts, d, e)
  }

  predicate AllPairsSound(sorts: seq<SortField>, rows: seq<Doc>) {
    forall i, j :: 0 <= i < j < |rows| ==> SoundPair(sorts, rows[i], rows[j])
  }

  predicate ExactAt(q: Query, store: Store, limit: PageLimit) {
    limit > 0 ==> DrainsExactly(q, store, limit, PageCount(|AllRows(q, store)|, limit))
  }

  /** For every limit at once: all drains are exact if and only if there is at most one
      row, or the projection keeps the sort fields and every row but the last has them
      all and reaches every later row. A drain in pages of one already tells. */
  lemma EveryLimitIff(q: Query, store: Store)
    requires q.err.None? && Walkable(q, store)
    ensures var rows := AllRows(q, store);
            (forall limit: PageLimit :: ExactAt(q, store, limit)) <==>
            |rows| <= 1 || (KeepsSort(q) && AllPairsSound(PageSorts(q.sorts), rows))
  {
    var sorts, rows := PageSorts(q.sorts), AllRows(q, store);
    if |rows| <= 1 || (KeepsSort(q) && AllPairsSound(sorts, rows)) {
      forall limit: PageLimit ensures ExactAt(q, store, limit) {
        if limit > 0 {
          DrainExactIff(q, store, limit, PageCount(|rows|, limit));
          if |rows| > 1 { PairsAreSound(sorts, rows, limit); }
        }
      }
    }
    if forall limit: PageLimit :: ExactAt(q, store, limit) {
      assert ExactAt(q, store, 1);
      DrainExactIff(q, store, 1, PageCount(|rows|, 1));
      if |rows| > 1 { SoundPairs(sorts, rows); }
    }
  }

  lemma {:induction false} PairsAreSound(sorts: seq<SortField>, rows: seq<Doc>, limit: int)
    requires limit > 0 && AllPairsSound(sorts, rows)
    ensures SoundBoundaries(sorts, rows, limit)
    decreases |rows|
  {
    if |rows| > limit {
      PairsAreSound(sorts, rows[limit..], limit);
      assert SoundPair(sorts, rows[limit - 1], rows[limit]);
      forall d | d in rows[limit..] ensures Reaches(sorts, rows[limit - 1], d) {
        var j :| 0 <= j < |rows| - limit && rows[limit..][j] == d;
        assert SoundPair(sorts, rows[limit - 1], rows[limit + j]);
      }
    }
  }

  lemma {:induction false} SoundPairs(sorts: seq<SortField>, rows: seq<Doc>)
    requires SoundBoundaries(sorts, rows, 1)
    ensures AllPairsSound(sorts, rows)
    decreases |rows|
  {
    if |rows| > 1 {
      SoundPairs(sorts, rows[1..]);
      forall i, j | 0 <= i < j < |rows| ensures SoundPair(sorts, rows[i], rows[j]) {
        if i == 0 {
          assert rows[j] == rows[1..][j - 1];
        } else {
          assert SoundPair(sorts, rows[1..][i - 1], rows[1..][j - 1]);
        }
      }
    }
  }

  /** The usual sufficient condition: in every sort field all the rows hold a value
      of one and the same type bracket. */
  lemma OneTypePerField(sorts: seq<SortField>, rows: seq<Doc>, brackets: seq<int>, limit: int)
    requires limit > 0 && |brackets| == |sorts|
    requires forall d | d in rows :: HasKeys(sorts, d) && OfTypes(KeysOf(sorts, d), brackets)
    ensures SoundBoundaries(sorts, rows, limit)
  {
    forall i, j | 0 <= i < j < |rows| ensures SoundPair(sorts, rows[i], rows[j]) {
      assert rows[i] in rows && rows[j] in rows;
      SameTypesReach(sorts, KeysOf(sorts, rows[i]), KeysOf(sorts, rows[j]), brackets);
    }
    PairsAreSound(sorts, rows, limit);
  }

  predicate OfTypes(keys: seq<Value>, brackets: seq<int>) {
    |keys| == |brackets| && forall i :: 0 <= i < |keys| ==> Bracket(keys[i]) == brackets[i]
  }

  lemma {:induction false} SameTypesReach(sorts: seq<SortField>, a: seq<Value>, b: seq<Value>, brackets: seq<int>)
    requires |a| == |sorts| && |b| == |sorts| && OfTypes(a, brackets) && OfTypes(b, brackets)
    ensures Comparable(sorts, a, b)
  {
    if sorts != [] { SameTypesReach(sorts[1..], a[1..], b[1..], brackets[1..]); }
  }

}
