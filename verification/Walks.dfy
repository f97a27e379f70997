/** Walks through pages on collections that hold one type per sort field, and on ones
    that do not (odm/pagination.go, odm/cursor.go). */
module Walks {
  import opened Bson
  import opened Filter
  import opened Queries
  import opened Cursor
  import opened Pagination
  import opened Drain
  import Sorting

  /** In this version of the collection every match has all sort fields, each of its
      own type bracket. */
  predicate Typed(q: Query, store: Store, brackets: seq<int>) {
    forall d | d in store && Matches(Base(q), d) ::
      HasKeys(PageSorts(q.sorts), d) && OfTypes(KeysOf(PageSorts(q.sorts), d), brackets)
  }

  /** Then the walk's promise needs no condition on what it returned: whatever else
      changes between pages, a document that stays with the same sort keys is
      returned exactly once. */
  lemma TypedWalkExactlyOnce(q: Query, stores: seq<Store>, limits: seq<PageLimit>, brackets: seq<int>, id: Value,
        keys: seq<Value>)
    requires |limits| == |stores| && |keys| == |PageSorts(q.sorts)|
    requires forall s | s in stores :: Walkable(q, s) && Typed(q, s, brackets) && Holds(q, s, id, keys)
    requires WalkFrom(q, stores, limits, NoCursor).outcome.Finished?
    ensures var rows := Data(Behind(q, stores, limits));
            ReturnedOnce(q, rows, id, keys) &&
            Data(WalkFrom(q, stores, limits, NoCursor).pages) == ProjectAll(q.projection, rows)
  {
    var sorts, pages := PageSorts(q.sorts), Behind(q, stores, limits);
    WalkIncreasing(q, stores, limits);
    assert stores[0] in stores;
    var e :| e in stores[0] && Has(q, e, id, keys);
    TypedBoundaries(q, stores, pages, brackets, keys);
    WalkReturnsExactlyOnce(q, stores, limits, id, keys);
  }

  lemma TypedBoundaries(q: Query, stores: seq<Store>, pages: seq<Page>, brackets: seq<int>, keys: seq<Value>)
    requires |keys| == |PageSorts(q.sorts)| && OfTypes(keys, brackets) && PagesMatch(q, stores, pages)
    requires forall s | s in stores :: Typed(q, s, brackets)
    ensures BoundariesReach(PageSorts(q.sorts), pages, keys)
  {
    var sorts := PageSorts(q.sorts);
    forall p | p in pages ensures BoundaryReaches(sorts, p, keys) {
      if p.data != [] {
        var k :| 0 <= k < |pages| && pages[k] == p;
        assert stores[k] in stores && FromStore(q, stores[k], pages[k]) && Last(p) in p.data;
        SameTypesReach(sorts, KeysOf(sorts, Last(p)), keys, brackets);
      }
    }
  }

  /** Such a walk is refused if and only if the projection drops a sort field and the
      first page is not the last; the refusal is then that page's. A caller who keeps
      the sort fields meets none. */
  lemma TypedWalkFailsIff(q: Query, stores: seq<Store>, limits: seq<PageLimit>, brackets: seq<int>)
    requires |limits| == |stores| && q.err.None?
    requires forall i :: 0 <= i < |limits| ==> limits[i] > 0
    requires forall s | s in stores :: Walkable(q, s) && Typed(q, s, brackets)
    ensures var w := WalkFrom(q, stores, limits, NoCursor);
            && (w.outcome.Failed? <==> !KeepsSort(q) && stores != [] && |AllRows(q, stores[0])| > limits[0])
            && (w.outcome.Failed? ==> w == Walk([], Failed(InvalidQuery("CursorPaginate"))))
  {
    ProjectedWalk(q, stores, limits, NoCursor);
    forall s | s in stores ensures Walkable(Whole(q), s) && Typed(Whole(q), s, brackets) {}
    NeverFailsFrom(Whole(q), stores, limits, NoCursor, Start, brackets);
    if stores != [] {
      FirstPage(q, stores, limits, brackets);
    }
  }

  lemma FirstPage(q: Query, stores: seq<Store>, limits: seq<PageLimit>, brackets: seq<int>)
    requires |limits| == |stores| && stores != [] && q.err.None? && limits[0] > 0
    requires Walkable(q, stores[0]) && Typed(q, stores[0], brackets)
    ensures var whole := WholeWalk(q, stores, limits, NoCursor);
            whole.pages != [] && (whole.pages[0].hasMore <==> |AllRows(q, stores[0])| > limits[0])
  {
    var next := TypedPage(Whole(q), stores[0], limits[0], NoCursor, Start, brackets);
    WalkUnfolds(Whole(q), stores, limits, NoCursor);
    PageOfKnownRows(Whole(q), stores[0], limits[0], NoCursor);
    assert Rows(Whole(q), stores[0], NoCursor) == AllRows(q, stores[0]);
  }

  lemma TypedPage(q: Query, store: Store, limit: PageLimit, cursor: CursorText, at: Position,
        brackets: seq<int>) returns (next: Position)
    requires q.err.None? && q.projection == [] && limit > 0 && PointsAt(PageSorts(q.sorts), cursor, at)
    requires Walkable(q, store) && Typed(q, store, brackets)
    ensures var r := PageOf(q, store, limit, cursor);
            r.Ok? && (r.value.hasMore ==> PointsAt(PageSorts(q.sorts), r.value.next, next))
  {
    var sorts, rows := PageSorts(q.sorts), Rows(q, store, cursor);
    PageOfKnownRows(q, store, limit, cursor);
    RowsHold(q, store, cursor, at);
    next := Start;
    if |rows| > limit {
      var last := rows[limit - 1];
      assert last in rows;
      MintedCursor(sorts, last);
      next := Past(KeysOf(sorts, last));
    }
  }

  lemma {:induction false} NeverFailsFrom(q: Query, stores: seq<Store>, limits: seq<PageLimit>, cursor: CursorText,
        at: Position,
                                          brackets: seq<int>)
    requires |limits| == |stores| && q.err.None? && q.projection == [] && PointsAt(PageSorts(q.sorts), cursor, at)
    requires forall i :: 0 <= i < |limits| ==> limits[i] > 0
    requires forall s | s in stores :: Walkable(q, s) && Typed(q, s, brackets)
    ensures !WalkFrom(q, stores, limits, cursor).outcome.Failed?
  {
    if stores != [] {
      assert stores[0] in stores;
      var next := TypedPage(q, stores[0], limits[0], cursor, at, brackets);
      var r := PageOf(q, stores[0], limits[0], cursor);
      if r.value.hasMore { NeverFailsFrom(q, stores[1..], limits[1..], r.value.next, next, brackets); }
    }
  }

  // ---- Two inputs the conditions are there for ----

  const NO_FLAGS := Meta(false, false, false)

  function Ranked(id: int, rank: Value): Doc {
    map[ID := Num(Int32, id), "rank" := rank]
  }

  const BY_RANK := [SortField("rank", GoInt(1)), SortField(ID, GoInt(1))]

  lemma RankedRows(a: Doc, b: Doc)
    requires a == Ranked(1, Null) && b == Ranked(2, Num(Int32, 7))
    ensures Before(BY_RANK, a, b) && !Before(BY_RANK, b, a)
    ensures !Reaches(BY_RANK, a, b) && HasKeys(BY_RANK, a)
    ensures ScalarKeys(BY_RANK, a) && ScalarKeys(BY_RANK, b)
    ensures ValidStore([a, b])
  {
    assert KeysOf(BY_RANK, a) == [Null, Num(Int32, 1)];
    assert KeysOf(BY_RANK, b) == [Num(Int32, 7), Num(Int32, 2)];
  }

  lemma SortTwo(sorts: seq<SortField>, a: Doc, b: Doc)
    requires Before(sorts, a, b)
    ensures Sorted(sorts, [a, b]) == [a, b]
  {
    var before := (d: Doc, e: Doc) => Before(sorts, d, e);
    assert [a, b][1..] == [b] && [b][1..] == [];
    assert Sorting.Sort([b], before) == [b];
    assert Sorting.Sort([a, b], before) == [a, b];
    assert Sorted(sorts, [a, b]) == Sorting.Sort([a, b], before);
  }

  lemma SwapTwo(sorts: seq<SortField>, a: Doc, b: Doc)
    requires Before(sorts, b, a) && !Before(sorts, a, b)
    ensures Sorted(sorts, [a, b]) == [b, a]
  {
    var before := (d: Doc, e: Doc) => Before(sorts, d, e);
    assert [a, b][1..] == [b] && [b][1..] == [];
    assert Sorting.Sort([b], before) == [b];
    assert Sorting.Insert(a, [b][1..], before) == [a];
    assert Sorting.Sort([a, b], before) == [b, a];
    assert Sorted(sorts, [a, b]) == Sorting.Sort([a, b], before);
  }

  lemma MatchEverything(a: Doc, b: Doc)
    ensures Matching([a, b], Everything) == [a, b]
  {
    assert [a, b][1..] == [b] && [b][1..] == [];
    assert Matching([b], Everything) == [b];
  }

  /** An explicit null loses a row: ordered by rank in pages of one, the first page
      says there is more, the second is the last and empty, and the row ranked 7 was
      never returned. */
  lemma NullLosesRow()
    ensures var q := Build(NewQuery(NO_FLAGS), [OrderBy("rank", 1)]);
            var a, b := Ranked(1, Null), Ranked(2, Num(Int32, 7));
            var w := DrainWalk(q, [a, b], 1, 2);
            && q.err.None? && AllRows(q, [a, b]) == [a, b]
            && w.outcome == Finished && |w.pages| == 2 && w.pages[0].hasMore && Data(w.pages) == [a]
  {
    var q := Build(NewQuery(NO_FLAGS), [OrderBy("rank", 1)]);
    OneCall(NewQuery(NO_FLAGS), OrderBy("rank", 1));
    assert q.sorts == [SortField("rank", GoInt(1))];
    assert PageSorts(q.sorts) == BY_RANK;
    var a, b := Ranked(1, Null), Ranked(2, Num(Int32, 7));
    RankedRows(a, b);
    MatchEverything(a, b);
    SortTwo(BY_RANK, a, b);
    TwoPages(q, a, b);
  }

  lemma RankedDown(sorts: seq<SortField>, a: Doc, b: Doc)
    requires sorts == [SortField("rank", GoInt(-1)), SortField(ID, GoInt(-1))]
    requires a == Ranked(1, Num(Int32, 1)) && b == Ranked(2, Num(Int32, 2))
    ensures Before(sorts, b, a) && !Before(sorts, a, b) && HasKeys(sorts, b)
  {
    assert KeysOf(sorts, a) == [Num(Int32, 1), Num(Int32, 1)];
    assert KeysOf(sorts, b) == [Num(Int32, 2), Num(Int32, 2)];
  }

  /** Descending means the larger first: of ranks 1 and 2 a first page of one row under
      OrderBy("rank", -1) is rank 2, and there is more. */
  lemma LargerRankFirst(a: Doc, b: Doc)
    requires a == Ranked(1, Num(Int32, 1)) && b == Ranked(2, Num(Int32, 2))
    ensures var r := PageOf(Build(NewQuery(NO_FLAGS), [OrderBy("rank", -1)]), [a, b], 1, NoCursor);
            r.Ok? && r.value.data == [b] && r.value.hasMore
  {
    var q := Build(NewQuery(NO_FLAGS), [OrderBy("rank", -1)]);
    OneCall(NewQuery(NO_FLAGS), OrderBy("rank", -1));
    assert q == NewQuery(NO_FLAGS).(sorts := [SortField("rank", GoInt(-1))]);
    var sorts := PageSorts(q.sorts);
    assert sorts == [SortField("rank", GoInt(-1)), SortField(ID, GoInt(-1))];
    RankedDown(sorts, a, b);
    MatchEverything(a, b);
    SwapTwo(sorts, a, b);
    assert Rows(q, [a, b], NoCursor) == [b, a];
    PageOfKnownRows(q, [a, b], 1, NoCursor);
  }

  lemma SecondMissed(sorts: seq<SortField>, a: Doc, b: Doc)
    requires HasKeys(sorts, a) && !Reaches(sorts, a, b)
    ensures DrainRows(sorts, [a, b], 1, 2) == Drained([[a], []], Finished)
  {
    assert [a, b][1..] == [b] && [a, b][..1] == [a] && [b][1..] == [];
    assert Reached(sorts, a, [b]) == [];
    assert DrainRows(sorts, [], 1, 1) == Drained([[]], Finished);
  }

  lemma TwoPages(q: Query, a: Doc, b: Doc)
    requires q.err.None? && q.projection == [] && Walkable(q, [a, b]) && AllRows(q, [a, b]) == [a, b]
    requires HasKeys(PageSorts(q.sorts), a) && !Reaches(PageSorts(q.sorts), a, b)
    ensures var w := DrainWalk(q, [a, b], 1, 2);
            w.outcome == Finished && |w.pages| == 2 && w.pages[0].hasMore && Data(w.pages) == [a]
  {
    var sorts, w := PageSorts(q.sorts), DrainWalk(q, [a, b], 1, 2);
    WalkIsDrain(q, [a, b], 1, 2);
    assert forall k :: Kept([], k);
    var pages: seq<seq<Doc>> := [[a], []];
    SecondMissed(sorts, a, b);
    WholeRows([a]);
    WholeRows([]);
    assert ProjectedData(q, pages) == pages;
    FlatData(w.pages);
    var empty: seq<seq<Doc>> := [[]];
    assert pages[1..] == empty && empty[1..] == [];
    assert Flat(empty) == [] && Flat(pages) == [a];
  }

  /** A projection that drops a sort field: excluding _id from an unsorted query is a
      legal chain, and paging it is refused as soon as there is a second page. */
  lemma ExcludedIdIsRefused(a: Doc, b: Doc)
    requires a == Ranked(1, Null) && b == Ranked(2, Null)
    ensures var q := Build(NewQuery(NO_FLAGS), [Exclude([ID])]);
            && q.err.None? && !KeepsSort(q)
            && DrainWalk(q, [a, b], 1, 2) == Walk([], Failed(InvalidQuery("CursorPaginate")))
  {
    var q := Build(NewQuery(NO_FLAGS), [Exclude([ID])]);
    OneCall(NewQuery(NO_FLAGS), Exclude([ID]));
    ExcludeId(NewQuery(NO_FLAGS));
    assert q == NewQuery(NO_FLAGS).(projection := [Projected(ID, 0)]);
    assert PageSorts(q.sorts) == [SortField(ID, GoInt(1))];
    assert PageSorts(q.sorts)[0] in PageSorts(q.sorts);
    MatchEverything(a, b);
    assert DifferentIds(a, b);
    assert |AllRows(q, [a, b])| == 2;
    WalkIsDrain(q, [a, b], 1, 2);
  }

  lemma ExcludeId(q: Query)
    requires q.projection == [] && q.projectionMode == NoProjection
    ensures Apply(q, Exclude([ID])) == q.(projection := [Projected(ID, 0)])
  {
    assert [ID][..0] == [] && [ID][0] == ID;
    assert ExcludeAll(q, [ID][..0]) == Ok(q);
  }
}
