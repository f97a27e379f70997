/** Eager loading (odm/relation.go and the four relation files): one batched find
    per relation and a hash join on array-valued keys, nested to any depth, against
    the join one would write per parent. */
module Relations {
  import opened Bson
  import opened Queries
  import opened Pagination
  import Sorting

  /** A declared relation; `nested` are relations of the related model. An empty
      local or owner key means _id. */
  datatype Relation =
    | HasMany(target: string, foreignKey: string, localKey: string, nested: seq<Relation>)
    | HasOne(target: string, foreignKey: string, localKey: string, nested: seq<Relation>)
    | BelongsTo(target: string, foreignKey: string, ownerKey: string, nested: seq<Relation>)
    | BelongsToMany(target: string, localKey: string, ownerKey: string, nested: seq<Relation>)

  /** A decoded model: its document and what each loaded relation attached, in the
      order the relations were loaded. Attach receives values, so a link holds the
      related models as they were when it ran. */
  datatype Node = Node(doc: Doc, links: seq<Link>)
  datatype Link = Many(children: seq<Node>) | One(child: Option<Node>)

  datatype Coll = Coll(meta: Meta, docs: seq<Doc>)
  type DB = map<string, Coll>

  function LocalKeyOr(key: string): string {
    if key == "" then ID else key
  }

  /** The field read on this side. */
  function ParentKey(r: Relation): string {
    match r
    case HasMany(_, _, localKey, _) => LocalKeyOr(localKey)
    case HasOne(_, _, localKey, _) => LocalKeyOr(localKey)
    case BelongsTo(_, foreignKey, _, _) => foreignKey
    case BelongsToMany(_, localKey, _, _) => localKey
  }

  /** The field matched on the related side. */
  function RelatedKey(r: Relation): string {
    match r
    case HasMany(_, foreignKey, _, _) => foreignKey
    case HasOne(_, foreignKey, _, _) => foreignKey
    case BelongsTo(_, _, ownerKey, _) => LocalKeyOr(ownerKey)
    case BelongsToMany(_, _, ownerKey, _) => LocalKeyOr(ownerKey)
  }

  predicate IsMany(r: Relation) {
    r.HasMany? || r.BelongsToMany?
  }

  // ---- Keys ----

  /** fieldKeys: none for a missing field, one for a scalar, one per element for an
      array. A key is the value itself, type and bytes. */
  function FieldKeys(d: Doc, field: string): seq<Value> {
    if field !in d then [] else if d[field].Arr? then d[field].elems else [d[field]]
  }

  function Count(keys: seq<Value>, k: Value): nat
    decreases |keys|
  {
    if keys == [] then 0
    else Count(keys[..|keys| - 1], k) + if keys[|keys| - 1] == k then 1 else 0
  }

  predicate Shares(a: seq<Value>, b: seq<Value>) {
    exists k :: k in a && k in b
  }

  lemma {:induction false} CountPositive(keys: seq<Value>, k: Value)
    ensures Count(keys, k) > 0 <==> k in keys
    decreases |keys|
  {
    if keys != [] {
      CountPositive(keys[..|keys| - 1], k);
      assert keys == keys[..|keys| - 1] + [keys[|keys| - 1]];
    }
  }

  /** How often a related document is attached to a parent with these keys. */
  function Times(parentKeys: seq<Value>, relatedKeys: seq<Value>): nat {
    if |parentKeys| == 1 then Count(relatedKeys, parentKeys[0])
    else if Shares(parentKeys, relatedKeys) then 1 else 0
  }

  lemma TimesPositive(parentKeys: seq<Value>, relatedKeys: seq<Value>)
    ensures Times(parentKeys, relatedKeys) > 0 <==> Shares(parentKeys, relatedKeys)
  {
    if |parentKeys| == 1 {
      CountPositive(relatedKeys, parentKeys[0]);
      assert parentKeys == [parentKeys[0]];
    }
  }

  lemma InRepeat<T(!new)>(x: T, n: nat)
    ensures forall y :: y in Repeat(x, n) <==> n > 0 && y == x
  {
    if n > 0 { assert Repeat(x, n)[0] == x; }
  }

  predicate Within(hits: seq<nat>, n: nat) {
    forall j :: 0 <= j < |hits| ==> hits[j] < n
  }

  /** Positions of a parent's related documents in a fetched list. */
  function Hits(parentKeys: seq<Value>, docs: seq<Doc>, field: string): (r: seq<nat>)
    ensures Within(r, |docs|)
    decreases |docs|
  {
    if docs == [] then []
    else
      var n := |docs| - 1;
      Hits(parentKeys, docs[..n], field) + Repeat(n, Times(parentKeys, FieldKeys(docs[n], field)))
  }

  // ---- The join one would write per parent ----

  /** Every related document under the model's own rules: the default scope hides
      the trashed ones. */
  function Visible(db: DB, target: string): seq<Doc> {
    if target !in db then []
    else Matching(db[target].docs, CompileFilter(NewQuery(db[target].meta), Excluded))
  }

  function Joined(parentKeys: seq<Value>, docs: seq<Doc>, field: string): seq<Doc> {
    if docs == [] then []
    else Repeat(docs[0], Times(parentKeys, FieldKeys(docs[0], field))) + Joined(parentKeys, docs[1..], field)
  }

  /** What loading one relation for one parent by itself attaches. */
  function NaiveLink(db: DB, r: Relation, parent: Doc): Link
    decreases r
  {
    var docs := Joined(FieldKeys(parent, ParentKey(r)), Visible(db, r.target), RelatedKey(r));
    if IsMany(r) then Many(NaiveNodes(db, r.nested, docs))
    else if docs == [] then One(None)
    else One(Some(Node(docs[0], NaiveLinks(db, r.nested, docs[0]))))
  }

  function NaiveNodes(db: DB, nested: seq<Relation>, docs: seq<Doc>): (nodes: seq<Node>)
    ensures |nodes| == |docs|
    decreases nested, 1
  {
    seq(|docs|, i requires 0 <= i < |docs| => Node(docs[i], NaiveLinks(db, nested, docs[i])))
  }

  function NaiveLinks(db: DB, nested: seq<Relation>, d: Doc): (links: seq<Link>)
    ensures |links| == |nested|
    decreases nested, 0
  {
    if nested == [] then []
    else
      var n := |nested| - 1;
      NaiveLinks(db, nested[..n], d) + [NaiveLink(db, nested[n], d)]
  }

  /** Nodes in a relation tree. */
  function Size(r: Relation): nat
    decreases r
  {
    1 + SizeAll(r.nested)
  }

  function SizeAll(nested: seq<Relation>): nat
    decreases nested
  {
    if nested == [] then 0 else SizeAll(nested[..|nested| - 1]) + Size(nested[|nested| - 1])
  }

  // ---- The batched load ----

  function KeysAt(raws: seq<Doc>, field: string): (r: seq<seq<Value>>)
    ensures |r| == |raws|
  {
    seq(|raws|, i requires 0 <= i < |raws| => FieldKeys(raws[i], field))
  }

  predicate SomeKey(keys: seq<seq<Value>>, k: Value) {
    exists i :: 0 <= i < |keys| && k in keys[i]
  }

  /** documentKeys: the keys of each document, and the distinct values among them. */
  method DocumentKeys(raws: seq<Doc>, field: string) returns (keys: seq<seq<Value>>, values: seq<Value>)
    ensures keys == KeysAt(raws, field)
    ensures forall v :: v in values <==> SomeKey(keys, v)
    ensures forall i, j :: 0 <= i < j < |values| ==> values[i] != values[j]
  {
    keys, values := [], [];
    var seen: set<Value> := {};
    for i := 0 to |raws|
      invariant keys == KeysAt(raws[..i], field)
      invariant forall v :: v in values <==> SomeKey(keys, v)
      invariant forall v :: v in seen <==> v in values
      invariant forall a, b :: 0 <= a < b < |values| ==> values[a] != values[b]
    {
      var elements := FieldKeys(raws[i], field);
      ghost var before := values;
      for j := 0 to |elements|
        invariant forall v :: v in values <==> v in before || v in elements[..j]
        invariant forall v :: v in seen <==> v in values
        invariant forall a, b :: 0 <= a < b < |values| ==> values[a] != values[b]
      {
        if elements[j] !in seen {
          seen := seen + {elements[j]};
          values := values + [elements[j]];
        }
        assert elements[..j + 1] == elements[..j] + [elements[j]];
      }
      assert elements[..|elements|] == elements;
      MoreKeys(keys, elements);
      keys := keys + [elements];
      assert raws[..i + 1][..i] == raws[..i];
    }
    assert raws[..|raws|] == raws;
  }

  lemma MoreKeys(keys: seq<seq<Value>>, elements: seq<Value>)
    ensures forall v :: SomeKey(keys + [elements], v) <==> SomeKey(keys, v) || v in elements
  {
    forall v ensures SomeKey(keys + [elements], v) <==> SomeKey(keys, v) || v in elements {
      if SomeKey(keys, v) {
        var i :| 0 <= i < |keys| && v in keys[i];
        assert (keys + [elements])[i] == keys[i];
      }
      if v in elements { assert (keys + [elements])[|keys|] == elements; }
    }
  }

  /** All positions under one key, a position as often as the document lists it. */
  function Positions(docs: seq<Doc>, field: string, k: Value): seq<nat>
    decreases |docs|
  {
    if docs == [] then []
    else
      var n := |docs| - 1;
      Positions(docs[..n], field, k) + Repeat(n, Count(FieldKeys(docs[n], field), k))
  }

  function Under(grouped: map<Value, seq<nat>>, k: Value): seq<nat> {
    if k in grouped then grouped[k] else []
  }

  /** groupByKey's inner loop: position i goes under each of its elements. */
  method IndexUnder(grouped: map<Value, seq<nat>>, i: nat, elements: seq<Value>) returns (r: map<Value, seq<nat>>)
    ensures forall k :: Under(r, k) == Under(grouped, k) + Repeat(i, Count(elements, k))
  {
    r := grouped;
    for j := 0 to |elements|
      invariant forall k :: Under(r, k) == Under(grouped, k) + Repeat(i, Count(elements[..j], k))
    {
      var key := elements[j];
      assert elements[..j + 1][..j] == elements[..j];
      r := r[key := Under(r, key) + [i]];
    }
    assert elements[..|elements|] == elements;
  }

  /** groupByKey */
  method GroupByKey(raws: seq<Doc>, field: string) returns (grouped: map<Value, seq<nat>>)
    ensures forall k :: Under(grouped, k) == Positions(raws, field, k)
  {
    grouped := map[];
    for i := 0 to |raws|
      invariant forall k :: Under(grouped, k) == Positions(raws[..i], field, k)
    {
      grouped := IndexUnder(grouped, i, FieldKeys(raws[i], field));
      assert raws[..i + 1][..i] == raws[..i] && raws[..i + 1][i] == raws[i];
    }
    assert raws[..|raws|] == raws;
  }

  predicate Ascending(s: seq<nat>) {
    forall i, j :: 0 <= i < j < |s| ==> s[i] < s[j]
  }

  /** slices.Sort */
  function SortNats(s: seq<nat>): (r: seq<nat>)
    ensures forall x :: x in r <==> x in s
  {
    Sorting.Sort(s, (a, b) => a < b)
  }

  lemma SortNatsAscends(s: seq<nat>)
    requires Distinct(s)
    ensures Ascending(SortNats(s))
  {
    var before := (a: nat, b: nat) => a < b;
    Sorting.SortOrdered(s, before);
    assert Sorting.Sort(s, before) == SortNats(s);
  }

  lemma {:induction false} AscendingUnique(a: seq<nat>, b: seq<nat>)
    requires Ascending(a) && Ascending(b) && forall x :: x in a <==> x in b
    ensures a == b
  {
    if a != [] { assert a[0] in b; }
    if b != [] { assert b[0] in a; }
    if a != [] {
      assert a[0] == b[0];
      forall x ensures x in a[1..] <==> x in b[1..] {
        if x in a[1..] { assert x in a && x != a[0]; }
        if x in b[1..] { assert x in b && x != b[0]; }
      }
      AscendingUnique(a[1..], b[1..]);
    }
  }

  lemma {:induction false} HitsOfOneKey(keys: seq<Value>, docs: seq<Doc>, field: string)
    requires |keys| == 1
    ensures Hits(keys, docs, field) == Positions(docs, field, keys[0])
    decreases |docs|
  {
    if docs != [] { HitsOfOneKey(keys, docs[..|docs| - 1], field); }
  }

  lemma {:induction false} InPositions(docs: seq<Doc>, field: string, k: Value, i: nat)
    ensures i in Positions(docs, field, k) <==> i < |docs| && k in FieldKeys(docs[i], field)
    decreases |docs|
  {
    if docs != [] {
      var n := |docs| - 1;
      var before, times := Positions(docs[..n], field, k), Count(FieldKeys(docs[n], field), k);
      assert Positions(docs, field, k) == before + Repeat(n, times);
      InPositions(docs[..n], field, k, i);
      CountPositive(FieldKeys(docs[n], field), k);
      InRepeat(n, times);
      assert i < n ==> docs[..n][i] == docs[i];
    }
  }

  lemma {:induction false} InHits(keys: seq<Value>, docs: seq<Doc>, field: string, i: nat)
    ensures i in Hits(keys, docs, field) <==> i < |docs| && Shares(keys, FieldKeys(docs[i], field))
    decreases |docs|
  {
    if docs != [] {
      var n := |docs| - 1;
      var before, times := Hits(keys, docs[..n], field), Times(keys, FieldKeys(docs[n], field));
      assert Hits(keys, docs, field) == before + Repeat(n, times);
      InHits(keys, docs[..n], field, i);
      TimesPositive(keys, FieldKeys(docs[n], field));
      InRepeat(n, times);
      assert i < n ==> docs[..n][i] == docs[i];
    }
  }

  lemma {:induction false} HitsAscend(keys: seq<Value>, docs: seq<Doc>, field: string)
    requires |keys| != 1
    ensures Ascending(Hits(keys, docs, field))
    decreases |docs|
  {
    if docs != [] {
      var n := |docs| - 1;
      HitsAscend(keys, docs[..n], field);
    }
  }

  predicate Distinct(s: seq<nat>) {
    forall i, j :: 0 <= i < j < |s| ==> s[i] != s[j]
  }

  /** matchesFor's inner loop: the positions not seen yet, in order. */
  method AddUnseen(matches: seq<nat>, seen: set<nat>, here: seq<nat>) returns (r: seq<nat>, marked: set<nat>)
    requires Distinct(matches) && forall i :: i in seen <==> i in matches
    ensures Distinct(r) && forall i :: i in r <==> i in matches || i in here
    ensures forall i :: i in marked <==> i in r
  {
    r, marked := matches, seen;
    for m := 0 to |here|
      invariant Distinct(r) && forall i :: i in marked <==> i in r
      invariant forall i :: i in r <==> i in matches || i in here[..m]
    {
      assert here[..m + 1] == here[..m] + [here[m]];
      if here[m] !in marked {
        marked := marked + {here[m]};
        r := r + [here[m]];
      }
    }
    assert here[..|here|] == here;
  }

  predicate UnderSome(keys: seq<Value>, docs: seq<Doc>, field: string, i: nat) {
    exists k :: k in keys && i in Positions(docs, field, k)
  }

  lemma UnderSomeIsShares(keys: seq<Value>, docs: seq<Doc>, field: string, i: nat)
    ensures UnderSome(keys, docs, field, i) <==> i < |docs| && Shares(keys, FieldKeys(docs[i], field))
  {
    forall k ensures i in Positions(docs, field, k) <==> i < |docs| && k in FieldKeys(docs[i], field) {
      InPositions(docs, field, k, i);
    }
  }

  lemma UnderOneMore(keys: seq<Value>, k: Value, docs: seq<Doc>, field: string)
    ensures forall i :: UnderSome(keys + [k], docs, field, i) <==>
              UnderSome(keys, docs, field, i) || i in Positions(docs, field, k)
  {
    assert k in keys + [k];
  }

  /** matchesFor: the fast path for one key, otherwise the union over the keys, each
      document once, in fetch order. */
  method MatchesFor(keys: seq<Value>, grouped: map<Value, seq<nat>>, ghost docs: seq<Doc>, ghost field: string)
      returns (matches: seq<nat>)
    requires forall k :: Under(grouped, k) == Positions(docs, field, k)
    ensures matches == Hits(keys, docs, field)
  {
    if |keys| == 1 {
      HitsOfOneKey(keys, docs, field);
      return Under(grouped, keys[0]);
    }
    matches := [];
    var seen: set<nat> := {};
    for n := 0 to |keys|
      invariant Distinct(matches) && forall i :: i in seen <==> i in matches
      invariant forall i :: i in matches <==> UnderSome(keys[..n], docs, field, i)
    {
      assert keys[..n + 1] == keys[..n] + [keys[n]];
      UnderOneMore(keys[..n], keys[n], docs, field);
      assert Under(grouped, keys[n]) == Positions(docs, field, keys[n]);
      matches, seen := AddUnseen(matches, seen, Under(grouped, keys[n]));
    }
    assert keys[..|keys|] == keys;
    HitsAscend(keys, docs, field);
    forall i ensures i in matches <==> i in Hits(keys, docs, field) {
      if 0 <= i {
        UnderSomeIsShares(keys, docs, field, i);
        InHits(keys, docs, field, i);
      }
    }
    SortNatsAscends(matches);
    AscendingUnique(SortNats(matches), Hits(keys, docs, field));
    return SortNats(matches);
  }
}
