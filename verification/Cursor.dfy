/** Keyset cursors (odm/cursor.go): the order a page is read in, the filter that
    seeks past a row, and the opaque string in between. */
module Cursor {
  import opened Bson
  import opened Filter
  import opened Queries

  // ---- Sorts and the order they put on rows ----

  function SortDirection(v: SortValue): int {
    match v
    case GoInt(n) => n
    case Wire32(n) => n
    case Wire64(n) => n
    case NotANumber => 0
  }

  predicate SortsOn(sorts: seq<SortField>, field: string) {
    exists s :: s in sorts && s.key == field
  }

  /** paginationSorts, its scan and its append. */
  function PageSorts(sorts: seq<SortField>): seq<SortField> {
    if SortsOn(sorts, ID) then sorts
    else sorts + [SortField(ID, GoInt(if sorts == [] then 1 else SortDirection(sorts[|sorts| - 1].value)))]
  }

  method PaginationSorts(sorts: seq<SortField>) returns (r: seq<SortField>)
    ensures r == PageSorts(sorts)
  {
    for i := 0 to |sorts|
      invariant forall k :: 0 <= k < i ==> sorts[k].key != ID
    {
      if sorts[i].key == ID {
        return sorts;
      }
    }
    var direction := 1;
    if |sorts| > 0 {
      direction := SortDirection(sorts[|sorts| - 1].value);
    }
    r := sorts + [SortField(ID, GoInt(direction))];
  }

  /** The server sorts a missing field as null. */
  function SortKey(d: Doc, field: string): Value {
    if field in d then d[field] else Null
  }

  function KeysOf(sorts: seq<SortField>, d: Doc): (ks: seq<Value>)
    ensures |ks| == |sorts|
  {
    seq(|sorts|, i requires 0 <= i < |sorts| => SortKey(d, sorts[i].key))
  }

  function Directed(s: SortField, c: int): int {
    if SortDirection(s.value) < 0 then -c else c
  }

  /** Mixed-direction lexicographic comparison of two key tuples. */
  function TupleCompare(sorts: seq<SortField>, a: seq<Value>, b: seq<Value>): int
    requires |a| == |sorts| && |b| == |sorts|
  {
    if sorts == [] then 0
    else
      var c := Directed(sorts[0], Compare(a[0], b[0]));
      if c != 0 then c else TupleCompare(sorts[1..], a[1..], b[1..])
  }

  predicate Before(sorts: seq<SortField>, d: Doc, e: Doc) {
    TupleCompare(sorts, KeysOf(sorts, d), KeysOf(sorts, e)) < 0
  }

  /** Where the tuples first differ, they differ inside one type bracket. */
  predicate Comparable(sorts: seq<SortField>, a: seq<Value>, b: seq<Value>)
    requires |a| == |sorts| && |b| == |sorts|
  {
    sorts == [] ||
    if Compare(a[0], b[0]) != 0 then Bracket(a[0]) == Bracket(b[0])
    else Comparable(sorts[1..], a[1..], b[1..])
  }

  predicate ScalarKeys(sorts: seq<SortField>, d: Doc) {
    forall s | s in sorts :: Scalar(SortKey(d, s.key))
  }

  lemma {:induction false} TupleOpposite(sorts: seq<SortField>, a: seq<Value>, b: seq<Value>)
    requires |a| == |sorts| && |b| == |sorts|
    ensures TupleCompare(sorts, b, a) == -TupleCompare(sorts, a, b)
    ensures Comparable(sorts, a, b) == Comparable(sorts, b, a)
  {
    if sorts != [] {
      CompareOpposite(a[0], b[0]);
      TupleOpposite(sorts[1..], a[1..], b[1..]);
    }
  }

  lemma {:induction false} TupleChain(sorts: seq<SortField>, a: seq<Value>, b: seq<Value>, c: seq<Value>)
    requires |a| == |sorts| && |b| == |sorts| && |c| == |sorts|
    requires TupleCompare(sorts, a, b) < 0 && TupleCompare(sorts, b, c) < 0
    ensures TupleCompare(sorts, a, c) < 0
  {
    CompareOpposite(a[0], b[0]);
    CompareOpposite(b[0], c[0]);
    CompareOpposite(a[0], c[0]);
    if Compare(a[0], b[0]) == 0 {
      CompareCongruent(a[0], b[0], c[0]);
      if Compare(b[0], c[0]) == 0 { TupleChain(sorts[1..], a[1..], b[1..], c[1..]); }
    } else if Compare(b[0], c[0]) == 0 {
      CompareCongruent(b[0], c[0], a[0]);
      CompareOpposite(a[0], c[0]);
    } else if SortDirection(sorts[0].value) < 0 {
      CompareChain(c[0], b[0], a[0]);
    } else {
      CompareChain(a[0], b[0], c[0]);
    }
  }

  /** Along two forward steps, reach composes: a gap, once jumped, is never seen again. */
  lemma {:induction false} ReachComposes(sorts: seq<SortField>, a: seq<Value>, b: seq<Value>, c: seq<Value>)
    requires |a| == |sorts| && |b| == |sorts| && |c| == |sorts|
    requires TupleCompare(sorts, a, b) < 0 && Comparable(sorts, a, b)
    requires TupleCompare(sorts, b, c) < 0 && Comparable(sorts, b, c)
    ensures Comparable(sorts, a, c)
  {
    CompareOpposite(a[0], b[0]);
    CompareOpposite(b[0], c[0]);
    CompareOpposite(a[0], c[0]);
    if Compare(a[0], b[0]) == 0 {
      CompareCongruent(a[0], b[0], c[0]);
      if Compare(b[0], c[0]) == 0 { ReachComposes(sorts[1..], a[1..], b[1..], c[1..]); }
    } else if Compare(b[0], c[0]) == 0 {
      CompareCongruent(b[0], c[0], a[0]);
    } else if SortDirection(sorts[0].value) < 0 {
      CompareChain(c[0], b[0], a[0]);
    } else {
      CompareChain(a[0], b[0], c[0]);
    }
  }

  /** Tuples tie exactly when every component does. */
  lemma {:induction false} TupleTie(sorts: seq<SortField>, a: seq<Value>, b: seq<Value>)
    requires |a| == |sorts| && |b| == |sorts|
    ensures TupleCompare(sorts, a, b) == 0 <==> forall i :: 0 <= i < |sorts| ==> Compare(a[i], b[i]) == 0
  {
    if sorts != [] {
      TupleTie(sorts[1..], a[1..], b[1..]);
      assert forall i :: 1 <= i < |sorts| ==> a[i] == a[1..][i - 1] && b[i] == b[1..][i - 1];
      if forall i :: 0 <= i < |sorts| ==> Compare(a[i], b[i]) == 0 {
        assert forall i :: 0 <= i < |sorts| - 1 ==> a[1..][i] == a[i + 1] && b[1..][i] == b[i + 1];
      }
    }
  }

  lemma {:induction false} TuplePrefix(sorts: seq<SortField>, tail: seq<SortField>, a: seq<Value>, b: seq<Value>,
                                       x: seq<Value>, y: seq<Value>)
    requires |a| == |sorts| && |b| == |sorts| && |x| == |tail| && |y| == |tail|
    ensures TupleCompare(sorts + tail, a + x, b + y) ==
            if TupleCompare(sorts, a, b) != 0 then TupleCompare(sorts, a, b) else TupleCompare(tail, x, y)
  {
    if sorts == [] {
      assert sorts + tail == tail && a + x == x && b + y == y;
    } else {
      assert (sorts + tail)[1..] == sorts[1..] + tail;
      assert (a + x)[1..] == a[1..] + x && (b + y)[1..] == b[1..] + y;
      TuplePrefix(sorts[1..], tail, a[1..], b[1..], x, y);
    }
  }

  predicate DifferentIds(d: Doc, e: Doc) {
    Compare(SortKey(d, ID), SortKey(e, ID)) != 0
  }

  /** The page order is a strict total order on documents with different ids, and
      it refines the order the caller asked for. */
  lemma PageOrder(sorts: seq<SortField>, d: Doc, e: Doc, f: Doc)
    ensures var ps := PageSorts(sorts);
            && SortsOn(ps, ID)
            && !Before(ps, d, d)
            && (Before(ps, d, e) ==> !Before(ps, e, d))
            && (Before(ps, d, e) && Before(ps, e, f) ==> Before(ps, d, f))
            && (DifferentIds(d, e) ==> Before(ps, d, e) || Before(ps, e, d))
            && (Before(sorts, d, e) ==> Before(ps, d, e))
  {
    var ps := PageSorts(sorts);
    var a, b, c := KeysOf(ps, d), KeysOf(ps, e), KeysOf(ps, f);
    if !SortsOn(sorts, ID) { assert ps[|sorts|].key == ID; }
    TupleOpposite(ps, a, a);
    TupleOpposite(ps, a, b);
    if Before(ps, d, e) && Before(ps, e, f) { TupleChain(ps, a, b, c); }
    if DifferentIds(d, e) {
      TupleTie(ps, a, b);
      var i :| 0 <= i < |ps| && ps[i].key == ID;
      assert Compare(a[i], b[i]) != 0;
    }
    if Before(sorts, d, e) && ps != sorts {
      var tail := ps[|sorts|..];
      assert ps == sorts + tail;
      assert a == KeysOf(sorts, d) + KeysOf(tail, d) && b == KeysOf(sorts, e) + KeysOf(tail, e);
      TuplePrefix(sorts, tail, KeysOf(sorts, d), KeysOf(sorts, e), KeysOf(tail, d), KeysOf(tail, e));
    }
  }

  // ---- What the directions mean ----

  /** Documents that tie on the earlier sort fields and differ on field i. */
  predicate FirstDifferAt(sorts: seq<SortField>, d: Doc, e: Doc, i: nat) {
    && i < |sorts|
    && (forall j :: 0 <= j < i ==> Compare(SortKey(d, sorts[j].key), SortKey(e, sorts[j].key)) == 0)
    && Compare(SortKey(d, sorts[i].key), SortKey(e, sorts[i].key)) != 0
  }

  /** The first field on which two documents differ decides: 1 puts the smaller value
      first, -1 the greater, at any width and whatever integer type carries them. */
  lemma {:induction false} DirectionsMean(sorts: seq<SortField>, d: Doc, e: Doc, i: nat)
    requires FirstDifferAt(sorts, d, e, i)
    ensures var (v, c) := (sorts[i].value, Compare(SortKey(d, sorts[i].key), SortKey(e, sorts[i].key)));
            && (v in {GoInt(1), Wire32(1), Wire64(1)} ==> (Before(sorts, d, e) <==> c < 0))
            && (v in {GoInt(-1), Wire32(-1), Wire64(-1)} ==> (Before(sorts, d, e) <==> c > 0))
  {
    assert KeysOf(sorts, d)[0] == SortKey(d, sorts[0].key) && KeysOf(sorts, e)[0] == SortKey(e, sorts[0].key);
    if i > 0 {
      assert KeysOf(sorts, d)[1..] == KeysOf(sorts[1..], d) && KeysOf(sorts, e)[1..] == KeysOf(sorts[1..], e);
      assert Compare(SortKey(d, sorts[0].key), SortKey(e, sorts[0].key)) == 0;
      DirectionsMean(sorts[1..], d, e, i - 1);
    }
  }

  /** The order pages are read in: the caller's own, or that with _id behind it,
      running as the last sort does, ascending when there is none. */
  lemma TieBreakerMeans(sorts: seq<SortField>)
    ensures (exists s :: s in sorts && s.key == "_id") ==> PageSorts(sorts) == sorts
    ensures (forall s :: s in sorts ==> s.key != "_id") ==>
              && (sorts == [] ==> PageSorts(sorts) == [SortField("_id", GoInt(1))])
              && (sorts != [] && sorts[|sorts| - 1].value == GoInt(1) ==>
                    PageSorts(sorts) == sorts + [SortField("_id", GoInt(1))])
              && (sorts != [] && sorts[|sorts| - 1].value == GoInt(-1) ==>
                    PageSorts(sorts) == sorts + [SortField("_id", GoInt(-1))])
  {
  }

  // ---- The keyset filter ----

  datatype KeyValue = KeyValue(key: string, value: Value)

  function Values(keys: seq<KeyValue>): (vs: seq<Value>)
    ensures |vs| == |keys|
  {
    seq(|keys|, i requires 0 <= i < |keys| => keys[i].value)
  }

  function Seek(s: SortField, v: Value): Filter {
    Ops(s.key, [Cond(if SortDirection(s.value) < 0 then OpLt else OpGt, [v])])
  }

  /** The conditions of branch i: ties on every earlier field, then past the i-th. */
  function BranchConditions(sorts: seq<SortField>, keys: seq<KeyValue>, i: nat): seq<Filter>
    requires i < |sorts| == |keys|
  {
    seq(i, j requires 0 <= j < i => Equals(sorts[j].key, keys[j].value)) + [Seek(sorts[i], keys[i].value)]
  }

  function KeysetFilterOf(sorts: seq<SortField>, keys: seq<KeyValue>): Filter
    requires |sorts| == |keys|
  {
    Or(seq(|sorts|, i requires 0 <= i < |sorts| => BuildFilter(BranchConditions(sorts, keys, i))))
  }

  method KeysetFilter(sorts: seq<SortField>, keys: seq<KeyValue>) returns (f: Filter)
    requires |sorts| == |keys|
    ensures f == KeysetFilterOf(sorts, keys)
  {
    var branches: seq<Filter> := [];
    for i := 0 to |sorts|
      invariant branches == seq(i, k requires 0 <= k < i => BuildFilter(BranchConditions(sorts, keys, k)))
    {
      var conditions: seq<Filter> := [];
      for j := 0 to i
        invariant conditions == seq(j, k requires 0 <= k < j => Equals(sorts[k].key, keys[k].value))
      {
        conditions := conditions + [Equals(sorts[j].key, keys[j].value)];
      }
      var operator := OpGt;
      if SortDirection(sorts[i].value) < 0 {
        operator := OpLt;
      }
      conditions := conditions + [Ops(sorts[i].key, [Cond(operator, [keys[i].value])])];
      branches := branches + [BuildFilter(conditions)];
    }
    return Or(branches);
  }

  lemma ScalarCandidates(d: Doc, field: string)
    requires Scalar(SortKey(d, field))
    ensures Candidates(d, field) == [SortKey(d, field)]
  {
  }

  lemma SeekTest(s: SortField, v: Value, d: Doc)
    requires Scalar(SortKey(d, s.key))
    ensures Matches(Seek(s, v), d) <==>
            Bracket(SortKey(d, s.key)) == Bracket(v) && Directed(s, Compare(v, SortKey(d, s.key))) < 0
  {
    ScalarCandidates(d, s.key);
    var k := SortKey(d, s.key);
    var cs := Candidates(d, s.key);
    CompareOpposite(v, k);
    OneCond(s.key, Cond(if SortDirection(s.value) < 0 then OpLt else OpGt, [v]), d);
    forall op ensures OrderedAny(op, cs, v) <==> Ordered(op, k, v) { assert cs[0] == k; }
  }

  lemma TieTest(field: string, v: Value, d: Doc)
    requires Scalar(SortKey(d, field))
    ensures Matches(Equals(field, v), d) <==> Compare(v, SortKey(d, field)) == 0
  {
    ScalarCandidates(d, field);
    CompareOpposite(v, SortKey(d, field));
    assert Candidates(d, field)[0] == SortKey(d, field);
  }

  predicate BranchHolds(sorts: seq<SortField>, ks: seq<Value>, ds: seq<Value>, i: nat)
    requires i < |sorts| == |ks| == |ds|
  {
    && (forall j :: 0 <= j < i ==> Compare(ks[j], ds[j]) == 0)
    && Bracket(ds[i]) == Bracket(ks[i])
    && Directed(sorts[i], Compare(ks[i], ds[i])) < 0
  }

  lemma BranchTest(sorts: seq<SortField>, keys: seq<KeyValue>, i: nat, d: Doc)
    requires i < |sorts| == |keys| && ScalarKeys(sorts, d)
    ensures Matches(BuildFilter(BranchConditions(sorts, keys, i)), d) <==>
            BranchHolds(sorts, Values(keys), KeysOf(sorts, d), i)
  {
    var cs := BranchConditions(sorts, keys, i);
    BuildFilterIsConjunction(cs, d);
    assert cs[i] == Seek(sorts[i], keys[i].value);
    assert forall j :: 0 <= j < |cs| ==> cs[j] in cs;
    assert sorts[i] in sorts;
    SeekTest(sorts[i], keys[i].value, d);
    forall j | 0 <= j < i
      ensures cs[j] == Equals(sorts[j].key, keys[j].value)
      ensures Matches(cs[j], d) <==> Compare(Values(keys)[j], KeysOf(sorts, d)[j]) == 0
    {
      assert sorts[j] in sorts;
      TieTest(sorts[j].key, keys[j].value, d);
    }
  }

  /** Some branch holds exactly when the tuple comes after the cursor's and the
      first difference stays inside one type bracket. */
  lemma {:induction false} SomeBranch(sorts: seq<SortField>, ks: seq<Value>, ds: seq<Value>)
    requires |sorts| == |ks| == |ds|
    ensures (exists i :: 0 <= i < |sorts| && BranchHolds(sorts, ks, ds, i)) <==>
            TupleCompare(sorts, ks, ds) < 0 && Comparable(sorts, ks, ds)
  {
    if sorts != [] {
      var ss, kt, dt := sorts[1..], ks[1..], ds[1..];
      SomeBranch(ss, kt, dt);
      if Compare(ks[0], ds[0]) == 0 {
        forall i | 0 <= i < |ss| ensures BranchHolds(ss, kt, dt, i) <==> BranchHolds(sorts, ks, ds, i + 1) {
          ShiftBranch(sorts, ks, ds, i);
        }
        if exists i :: 0 <= i < |sorts| && BranchHolds(sorts, ks, ds, i) {
          var i :| 0 <= i < |sorts| && BranchHolds(sorts, ks, ds, i);
          assert i > 0 && BranchHolds(ss, kt, dt, i - 1);
        }
      } else {
        assert forall i :: 0 < i < |sorts| ==> !BranchHolds(sorts, ks, ds, i);
        assert BranchHolds(sorts, ks, ds, 0) <==>
               Bracket(ds[0]) == Bracket(ks[0]) && Directed(sorts[0], Compare(ks[0], ds[0])) < 0;
      }
    }
  }

  lemma ShiftBranch(sorts: seq<SortField>, ks: seq<Value>, ds: seq<Value>, i: nat)
    requires |sorts| == |ks| == |ds| && i + 1 < |sorts| && Compare(ks[0], ds[0]) == 0
    ensures BranchHolds(sorts[1..], ks[1..], ds[1..], i) <==> BranchHolds(sorts, ks, ds, i + 1)
  {
    assert forall j :: 0 <= j < |sorts| - 1 ==> ks[1..][j] == ks[j + 1] && ds[1..][j] == ds[j + 1];
    assert (forall j :: 0 <= j < i + 1 ==> Compare(ks[j], ds[j]) == 0) <==>
           (forall j :: 0 <= j < i ==> Compare(ks[1..][j], ds[1..][j]) == 0) by {
      if forall j :: 0 <= j < i ==> Compare(ks[1..][j], ds[1..][j]) == 0 {
        forall j | 0 <= j < i + 1 ensures Compare(ks[j], ds[j]) == 0 {
          if j > 0 { assert ks[1..][j - 1] == ks[j] && ds[1..][j - 1] == ds[j]; }
        }
      }
    }
  }

  lemma SomeBranchMatches(sorts: seq<SortField>, keys: seq<KeyValue>, d: Doc)
    requires |sorts| == |keys| && ScalarKeys(sorts, d)
    ensures Matches(KeysetFilterOf(sorts, keys), d) <==>
            exists i :: 0 <= i < |sorts| && BranchHolds(sorts, Values(keys), KeysOf(sorts, d), i)
  {
    var ks, ds := Values(keys), KeysOf(sorts, d);
    var branches := seq(|sorts|, i requires 0 <= i < |sorts| => BuildFilter(BranchConditions(sorts, keys, i)));
    assert KeysetFilterOf(sorts, keys) == Or(branches);
    forall i | 0 <= i < |sorts| ensures Matches(branches[i], d) <==> BranchHolds(sorts, ks, ds, i) {
      BranchTest(sorts, keys, i, d);
    }
    if g :| g in branches && Matches(g, d) {
      var i :| 0 <= i < |branches| && branches[i] == g;
      assert BranchHolds(sorts, ks, ds, i);
    }
    if i :| 0 <= i < |sorts| && BranchHolds(sorts, ks, ds, i) {
      assert branches[i] in branches;
    }
  }

  /** The keyset filter matches a document exactly when its key tuple comes
      strictly after the cursor's in the mixed-direction lexicographic order,
      except across type brackets, where it matches nothing: a row whose first
      difference from the cursor changes bracket is a gap. Any width. */
  lemma KeysetExact(sorts: seq<SortField>, keys: seq<KeyValue>, d: Doc)
    requires |sorts| == |keys| && ScalarKeys(sorts, d)
    ensures Matches(KeysetFilterOf(sorts, keys), d) <==>
            TupleCompare(sorts, Values(keys), KeysOf(sorts, d)) < 0 &&
            Comparable(sorts, Values(keys), KeysOf(sorts, d))
  {
    SomeBranchMatches(sorts, keys, d);
    SomeBranch(sorts, Values(keys), KeysOf(sorts, d));
  }

  /** The gap, concretely: a number sorts after an explicit null, and the filter
      seeking past the null, in the order paging adds _id to, does not find it. */
  lemma NullIsAGap()
    ensures var sorts := PageSorts([SortField("rank", GoInt(1))]);
            var d := map[ID := Oid(2), "rank" := Num(Int32, 7)];
            var keys := [KeyValue("rank", Null), KeyValue(ID, Oid(1))];
            && |sorts| == |keys| && TupleCompare(sorts, [Null, Oid(1)], KeysOf(sorts, d)) < 0
            && !Matches(KeysetFilterOf(sorts, keys), d)
  {
    var sorts := PageSorts([SortField("rank", GoInt(1))]);
    var d := map[ID := Oid(2), "rank" := Num(Int32, 7)];
    var keys := [KeyValue("rank", Null), KeyValue(ID, Oid(1))];
    assert sorts == [SortField("rank", GoInt(1)), SortField(ID, GoInt(1))];
    KeysetExact(sorts, keys, d);
    assert Values(keys) == [Null, Oid(1)] && KeysOf(sorts, d) == [Num(Int32, 7), Oid(2)];
  }

  // ---- The keys of a row, and the cursor string ----

  predicate HasKeys(sorts: seq<SortField>, d: Doc) {
    forall s | s in sorts :: s.key in d
  }

  function RowKeys(sorts: seq<SortField>, d: Doc): (keys: seq<KeyValue>)
    ensures |keys| == |sorts|
  {
    seq(|sorts|, i requires 0 <= i < |sorts| => KeyValue(sorts[i].key, SortKey(d, sorts[i].key)))
  }

  /** cursorKeys: a missing sort field is an error, an explicit null is not. */
  method CursorKeys(raw: Doc, sorts: seq<SortField>) returns (r: Result<seq<KeyValue>>)
    ensures r == if HasKeys(sorts, raw) then Ok(RowKeys(sorts, raw)) else Err(InvalidQuery("CursorPaginate"))
  {
    var keys: seq<KeyValue> := [];
    for i := 0 to |sorts|
      invariant |keys| == i && keys == RowKeys(sorts, raw)[..i]
      invariant forall k :: 0 <= k < i ==> sorts[k].key in raw
    {
      if sorts[i].key !in raw {
        assert sorts[i] in sorts;
        return Err(InvalidQuery("CursorPaginate"));
      }
      keys := keys + [KeyValue(sorts[i].key, raw[sorts[i].key])];
    }
    assert RowKeys(sorts, raw)[..|sorts|] == RowKeys(sorts, raw);
    return Ok(keys);
  }

  const CURSOR_VERSION := 1

  /** The cursor string. Base64url (section 5 of RFC 4648) over BSON is an
      injective code, so a string is one of: empty, not base64, base64 of
      something that is not a payload, or the encoding of exactly one payload. */
  datatype CursorText =
    | NoCursor
    | NotBase64(text: string)
    | NotADocument(bytes: seq<int>)
    | Encoded(version: int, sorts: seq<SortField>, keys: seq<KeyValue>)

  /** A Go int reaches the wire as an int32 when it fits and an int64 otherwise. */
  function OnWire(v: SortValue): SortValue {
    match v
    case GoInt(n) => if -0x8000_0000 <= n < 0x8000_0000 then Wire32(n) else Wire64(n)
    case _ => v
  }

  function EncodeCursor(sorts: seq<SortField>, keys: seq<KeyValue>): CursorText {
    Encoded(CURSOR_VERSION,
            seq(|sorts|, i requires 0 <= i < |sorts| => SortField(sorts[i].key, OnWire(sorts[i].value))), keys)
  }

  predicate SameSorts(a: seq<SortField>, b: seq<SortField>) {
    && |a| == |b|
    && forall i :: 0 <= i < |b| ==> a[i].key == b[i].key && SortDirection(a[i].value) == SortDirection(b[i].value)
  }

  /** sameSort's scan. */
  method SameSort(cursorSorts: seq<SortField>, sorts: seq<SortField>) returns (same: bool)
    ensures same <==> SameSorts(cursorSorts, sorts)
  {
    if |cursorSorts| != |sorts| {
      return false;
    }
    for i := 0 to |sorts|
      invariant forall k :: 0 <= k < i ==>
                  cursorSorts[k].key == sorts[k].key &&
                      SortDirection(cursorSorts[k].value) == SortDirection(sorts[k].value)
    {
      if cursorSorts[i].key != sorts[i].key {
        return false;
      }
      if SortDirection(cursorSorts[i].value) != SortDirection(sorts[i].value) {
        return false;
      }
    }
    return true;
  }

  function DecodeCursor(cursor: CursorText, sorts: seq<SortField>): (r: Result<seq<KeyValue>>)
    ensures r.Ok? ==> |r.value| == |sorts|
  {
    match cursor
    case Encoded(version, cs, keys) =>
      if version != CURSOR_VERSION then Err(InvalidCursor)
      else if |keys| != |cs| then Err(InvalidCursor)
      else if !SameSorts(cs, sorts) then Err(InvalidCursor)
      else Ok(keys)
    case _ => Err(InvalidCursor)
  }

  /** A minted cursor decodes, under the same sort, to the keys it was built from;
      under any other sort, and for any string that is not a current cursor with
      a key for each field, the answer is ErrInvalidCursor. */
  lemma CursorRoundTrip(sorts: seq<SortField>, keys: seq<KeyValue>, other: seq<SortField>, text: CursorText)
    requires |keys| == |sorts|
    ensures DecodeCursor(EncodeCursor(sorts, keys), sorts) == Ok(keys)
    ensures DecodeCursor(EncodeCursor(sorts, keys), other) ==
            if SameSorts(sorts, other) then Ok(keys) else Err(InvalidCursor)
    ensures DecodeCursor(text, other).Err? ==> DecodeCursor(text, other) == Err(InvalidCursor)
    ensures DecodeCursor(text, other).Ok? <==>
            text.Encoded? && text.version == 1 && |text.keys| == |text.sorts| && SameSorts(text.sorts, other)
  {
    var wire := EncodeCursor(sorts, keys).sorts;
    assert |wire| == |sorts|;
    assert forall i :: 0 <= i < |sorts| ==>
        wire[i].key == sorts[i].key && SortDirection(wire[i].value) == SortDirection(sorts[i].value);
    assert SameSorts(wire, other) <==> SameSorts(sorts, other);
  }

  /** A cursor minted under one direction of a field is refused under the other, and
      under another field in that place. */
  lemma OppositeCursorRefused(sorts: seq<SortField>, keys: seq<KeyValue>, other: seq<SortField>, i: nat)
    requires |keys| == |sorts| && i < |sorts| && i < |other|
    requires || (sorts[i].value == GoInt(1) && other[i].value == GoInt(-1))
             || (sorts[i].value == GoInt(-1) && other[i].value == GoInt(1))
             || sorts[i].key != other[i].key
    ensures DecodeCursor(EncodeCursor(sorts, keys), other) == Err(InvalidCursor)
  {
    CursorRoundTrip(sorts, keys, other, NoCursor);
  }
}
