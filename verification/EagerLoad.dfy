/** Loading a tree of relations onto a page of parents, in place, one find per tree
    node, and what it amounts to. */
module EagerLoad {
  import opened Bson
  import opened Filter
  import opened Queries
  import opened Pagination
  import opened Relations

  /** relatedDocuments: one $in under the related model's own rules. */
  function Fetched(db: DB, target: string, field: string, values: seq<Value>): seq<Doc> {
    if target !in db then []
    else
      var q := Build(NewQuery(db[target].meta), [WhereIn(field, Some(values))]);
      Matching(db[target].docs, CompileFilter(q, q.trashed))
  }

  /** The server's $in is coarser than equality of type and bytes: it returns at
      least every visible document sharing a key, and only visible documents. */
  lemma FetchedCovers(db: DB, target: string, field: string, values: seq<Value>, d: Doc)
    requires target in db
    ensures var q := Build(NewQuery(db[target].meta), [WhereIn(field, Some(values))]);
            var narrow, wide := CompileFilter(q, q.trashed), CompileFilter(NewQuery(db[target].meta), Excluded);
            && (Matches(narrow, d) ==> Matches(wide, d))
            && (Matches(wide, d) && Shares(values, FieldKeys(d, field)) ==> Matches(narrow, d))
  {
    var meta := db[target].meta;
    var c := WhereIn(field, Some(values));
    assert [c][..0] == [] && [c][0] == c;
    assert Fold([c][..0], d) == None && FinalMode([c][..0]) == Excluded;
    CompiledFilterIsFold(meta, [c], d);
    CompiledUnderMode(meta, [], Excluded, d);
    if Shares(values, FieldKeys(d, field)) {
      var k :| k in values && k in FieldKeys(d, field);
      var i :| 0 <= i < |values| && values[i] == k;
      KeyIsCandidate(d, field, k);
    }
  }

  lemma KeyIsCandidate(d: Doc, field: string, k: Value)
    requires k in FieldKeys(d, field)
    ensures EqualsAny(Candidates(d, field), k)
  {
    var cs := Candidates(d, field);
    CompareSelf(k);
    assert k in cs;
    var i :| 0 <= i < |cs| && cs[i] == k;
    assert Compare(cs[i], k) == 0;
  }

  lemma JoinedCons(pk: seq<Value>, d: Doc, docs: seq<Doc>, field: string)
    ensures Joined(pk, [d] + docs, field) == Repeat(d, Times(pk, FieldKeys(d, field))) + Joined(pk, docs, field)
  {
    assert ([d] + docs)[1..] == docs;
  }

  /** What the first document adds to the join of the matching ones. */
  lemma MatchingJoin(pk: seq<Value>, docs: seq<Doc>, field: string, f: Filter)
    requires docs != []
    ensures Joined(pk, Matching(docs, f), field) ==
            (if Matches(f, docs[0]) then Repeat(docs[0], Times(pk, FieldKeys(docs[0], field))) else []) +
            Joined(pk, Matching(docs[1..], f), field)
  {
    JoinedCons(pk, docs[0], Matching(docs[1..], f), field);
  }

  lemma {:induction false} NarrowJoin(pk: seq<Value>, docs: seq<Doc>, field: string, narrow: Filter, wide: Filter)
    requires forall d | d in docs :: Matches(narrow, d) ==> Matches(wide, d)
    requires forall d | d in docs :: Matches(wide, d) && Shares(pk, FieldKeys(d, field)) ==> Matches(narrow, d)
    ensures Joined(pk, Matching(docs, narrow), field) == Joined(pk, Matching(docs, wide), field)
  {
    if docs != [] {
      var d := docs[0];
      NarrowJoin(pk, docs[1..], field, narrow, wide);
      assert d in docs;
      MatchingJoin(pk, docs, field, narrow);
      MatchingJoin(pk, docs, field, wide);
      TimesPositive(pk, FieldKeys(d, field));
      if !Shares(pk, FieldKeys(d, field)) { assert Repeat(d, 0) == []; }
    }
  }

  /** Joining a parent against the batch is joining it against everything visible. */
  lemma BatchJoins(db: DB, target: string, field: string, values: seq<Value>, pk: seq<Value>)
    requires forall k | k in pk :: k in values
    ensures Joined(pk, Fetched(db, target, field, values), field) == Joined(pk, Visible(db, target), field)
  {
    if target in db {
      var q := Build(NewQuery(db[target].meta), [WhereIn(field, Some(values))]);
      forall d | d in db[target].docs { FetchedCovers(db, target, field, values, d); }
      NarrowJoin(pk, db[target].docs, field, CompileFilter(q, q.trashed), CompileFilter(NewQuery(db[target].meta),
          Excluded));
    }
  }

  function Picked(docs: seq<Doc>, hits: seq<nat>): (r: seq<Doc>)
    requires Within(hits, |docs|)
    ensures |r| == |hits|
  {
    seq(|hits|, j requires 0 <= j < |hits| => docs[hits[j]])
  }

  lemma Associates<T>(a: seq<T>, b: seq<T>, c: seq<T>)
    ensures a + (b + c) == (a + b) + c
  {
  }

  lemma {:induction false} JoinedSnoc(pk: seq<Value>, docs: seq<Doc>, d: Doc, field: string)
    ensures Joined(pk, docs + [d], field) == Joined(pk, docs, field) + Repeat(d, Times(pk, FieldKeys(d, field)))
  {
    if docs == [] {
      assert [] + [d] == [d] && [d][1..] == [];
    } else {
      var rest := docs[1..];
      JoinedSnoc(pk, rest, d, field);
      assert docs + [d] == [docs[0]] + (rest + [d]) && docs == [docs[0]] + rest;
      JoinedCons(pk, docs[0], rest + [d], field);
      JoinedCons(pk, docs[0], rest, field);
      Associates(Repeat(docs[0], Times(pk, FieldKeys(docs[0], field))), Joined(pk, rest, field),
                 Repeat(d, Times(pk, FieldKeys(d, field))));
    }
  }

  lemma {:induction false} HitsAreJoin(pk: seq<Value>, docs: seq<Doc>, field: string)
    ensures Picked(docs, Hits(pk, docs, field)) == Joined(pk, docs, field)
    decreases |docs|
  {
    if docs != [] {
      var n := |docs| - 1;
      HitsAreJoin(pk, docs[..n], field);
      JoinedSnoc(pk, docs[..n], docs[n], field);
      assert docs == docs[..n] + [docs[n]];
      var before := Hits(pk, docs[..n], field);
      forall j | 0 <= j < |before| ensures docs[before[j]] == docs[..n][before[j]] {}
    }
  }

  function WithLink(db: DB, r: Relation, n: Node): Node {
    Node(n.doc, n.links + [NaiveLink(db, r, n.doc)])
  }

  function WithLinks(db: DB, rels: seq<Relation>, n: Node): Node {
    Node(n.doc, n.links + NaiveLinks(db, rels, n.doc))
  }

  /** What a parent gets, from its hits in the fetched batch. */
  function LinkOf(r: Relation, related: seq<Node>, hits: seq<nat>): Link
    requires Within(hits, |related|)
  {
    if IsMany(r) then Many(seq(|hits|, j requires 0 <= j < |hits| => related[hits[j]]))
    else if hits == [] then One(None)
    else One(Some(related[hits[0]]))
  }

  lemma LinkIsNaive(db: DB, r: Relation, d: Doc, values: seq<Value>, related: seq<Node>)
    requires forall k | k in FieldKeys(d, ParentKey(r)) :: k in values
    requires related == NaiveNodes(db, r.nested, Fetched(db, r.target, RelatedKey(r), values))
    ensures var pk, docs := FieldKeys(d, ParentKey(r)), Fetched(db, r.target, RelatedKey(r), values);
            LinkOf(r, related, Hits(pk, docs, RelatedKey(r))) == NaiveLink(db, r, d)
  {
    var pk, docs := FieldKeys(d, ParentKey(r)), Fetched(db, r.target, RelatedKey(r), values);
    var hits := Hits(pk, docs, RelatedKey(r));
    BatchJoins(db, r.target, RelatedKey(r), values, pk);
    HitsAreJoin(pk, docs, RelatedKey(r));
    var joined := Picked(docs, hits);
    forall j | 0 <= j < |hits| ensures related[hits[j]] == Node(joined[j], NaiveLinks(db, r.nested, joined[j])) {}
    if IsMany(r) {
      assert seq(|hits|, j requires 0 <= j < |hits| => related[hits[j]]) == NaiveNodes(db, r.nested, joined);
    }
  }

  lemma NoKeysNoLink(db: DB, r: Relation, d: Doc)
    requires FieldKeys(d, ParentKey(r)) == []
    ensures NaiveLink(db, r, d) == if IsMany(r) then Many([]) else One(None)
  {
    NoKeysNoJoin(Visible(db, r.target), RelatedKey(r));
    if IsMany(r) { assert NaiveNodes(db, r.nested, []) == []; }
  }

  lemma {:induction false} NoKeysNoJoin(docs: seq<Doc>, field: string)
    ensures Joined([], docs, field) == []
  {
    if docs != [] { NoKeysNoJoin(docs[1..], field); }
  }

  /** The bytes the parents were decoded from. */
  method Raws(parents: array<Node>) returns (raws: seq<Doc>)
    ensures |raws| == parents.Length && forall i :: 0 <= i < |raws| ==> raws[i] == parents[i].doc
  {
    raws := [];
    for i := 0 to parents.Length
      invariant |raws| == i && forall k :: 0 <= k < i ==> raws[k] == parents[k].doc
    {
      raws := raws + [parents[i].doc];
    }
  }

  /** attachEmpty and attachNil. */
  method AttachNothing(r: Relation, parents: array<Node>)
    modifies parents
    ensures forall i :: 0 <= i < parents.Length ==>
              parents[i] == Node(old(parents[i]).doc,
                  old(parents[i]).links + [if IsMany(r) then Many([]) else One(None)])
  {
    for i := 0 to parents.Length
      invariant forall k :: 0 <= k < i ==>
                  parents[k] == Node(old(parents[k]).doc,
                      old(parents[k]).links + [if IsMany(r) then Many([]) else One(None)])
      invariant forall k :: i <= k < parents.Length ==> parents[k] == old(parents[k])
    {
      parents[i] := Node(parents[i].doc, parents[i].links + [if IsMany(r) then Many([]) else One(None)]);
    }
  }

  /** The attaching loop of loadMany and attachFirst. */
  method AttachMatches(r: Relation, parents: array<Node>, keys: seq<seq<Value>>, related: seq<Node>,
                       grouped: map<Value, seq<nat>>, ghost docs: seq<Doc>)
    requires |keys| == parents.Length && |related| == |docs|
    requires forall k :: Under(grouped, k) == Positions(docs, RelatedKey(r), k)
    modifies parents
    ensures forall i :: 0 <= i < parents.Length ==>
              parents[i] == Node(old(parents[i]).doc,
                                 old(parents[i]).links + [LinkOf(r, related, Hits(keys[i], docs, RelatedKey(r)))])
  {
    for i := 0 to parents.Length
      invariant forall k :: 0 <= k < i ==>
                  parents[k] == Node(old(parents[k]).doc,
                                     old(parents[k]).links + [LinkOf(r, related, Hits(keys[k], docs, RelatedKey(r)))])
      invariant forall k :: i <= k < parents.Length ==> parents[k] == old(parents[k])
    {
      var matches := MatchesFor(keys[i], grouped, docs, RelatedKey(r));
      var link := LinkOf(r, related, matches);
      parents[i] := Node(parents[i].doc, parents[i].links + [link]);
    }
  }

  /** A node of the relation tree, by the turns that lead to it. */
  type Path = seq<nat>

  predicate IsNode(r: Relation, at: Path, p: Path)
    decreases r
  {
    p == at || exists n :: 0 <= n < |r.nested| && IsNode(r.nested[n], at + [n], p)
  }

  /** A node of one of these relations, which hang below `at`. */
  predicate IsNodeOf(rels: seq<Relation>, at: Path, p: Path) {
    exists n :: 0 <= n < |rels| && IsNode(rels[n], at + [n], p)
  }

  predicate Once(log: seq<Path>) {
    forall i, j :: 0 <= i < j < |log| ==> log[i] != log[j]
  }

  lemma {:induction false} NodeBelow(r: Relation, at: Path, p: Path)
    requires IsNode(r, at, p)
    ensures at <= p
    decreases r
  {
    if p != at {
      var n :| 0 <= n < |r.nested| && IsNode(r.nested[n], at + [n], p);
      NodeBelow(r.nested[n], at + [n], p);
    }
  }

  /** Subtrees share no node, with each other or with the root. */
  lemma SubtreesApart(rels: seq<Relation>, at: Path, m: nat, n: nat, p: Path, q: Path)
    requires m < n < |rels| && IsNode(rels[m], at + [m], p) && IsNode(rels[n], at + [n], q)
    ensures p != q && p != at
  {
    NodeBelow(rels[m], at + [m], p);
    NodeBelow(rels[n], at + [n], q);
    assert p[|at|] == m && q[|at|] == n;
  }

  lemma RootApart(r: Relation, at: Path, log: seq<Path>)
    requires Once(log) && forall p | p in log :: IsNodeOf(r.nested, at, p)
    ensures Once([at] + log) && forall p | p in [at] + log :: IsNode(r, at, p)
  {
    forall p | p in log ensures p != at && IsNode(r, at, p) {
      assert IsNodeOf(r.nested, at, p);
      var n :| 0 <= n < |r.nested| && IsNode(r.nested[n], at + [n], p);
      NodeBelow(r.nested[n], at + [n], p);
    }
    var all := [at] + log;
    forall i, j | 0 <= i < j < |all| ensures all[i] != all[j] {
      assert all[j] == log[j - 1] && log[j - 1] in log;
    }
  }

  /** A page none of whose rows holds a key gets empty links. */
  lemma NoValuesNoLinks(db: DB, r: Relation, raws: seq<Doc>)
    requires forall v :: !SomeKey(KeysAt(raws, ParentKey(r)), v)
    ensures forall i :: 0 <= i < |raws| ==> NaiveLink(db, r, raws[i]) == if IsMany(r) then Many([]) else One(None)
  {
    var keys := KeysAt(raws, ParentKey(r));
    forall i | 0 <= i < |raws|
      ensures NaiveLink(db, r, raws[i]) == if IsMany(r) then Many([]) else One(None)
    {
      assert keys[i] == [] by { if keys[i] != [] { assert SomeKey(keys, keys[i][0]); } }
      NoKeysNoLink(db, r, raws[i]);
    }
  }

  /** load, for any of the four kinds: every parent ends with one more link, the one
      it would have got loaded by itself, nested relations included. The log names the
      tree node of every find: no node is in it twice. */
  method Load(db: DB, r: Relation, parents: array<Node>, ghost at: Path) returns (finds: nat, ghost log: seq<Path>)
    modifies parents
    ensures |log| == finds <= Size(r) && Once(log)
    ensures forall p | p in log :: IsNode(r, at, p)
    ensures forall i :: 0 <= i < parents.Length ==> parents[i] == WithLink(db, r, old(parents[i]))
    decreases r
  {
    var raws := Raws(parents);
    var keys, values := DocumentKeys(raws, ParentKey(r));
    if values == [] {
      NoValuesNoLinks(db, r, raws);
      AttachNothing(r, parents);
      return 0, [];
    }
    var docs := Fetched(db, r.target, RelatedKey(r), values);
    var related := new Node[|docs|](j requires 0 <= j < |docs| => Node(docs[j], []));
    var nestedFinds, nestedLog := LoadNested(db, r.nested, related, at);
    var nodes := related[..];
    forall j | 0 <= j < |docs| ensures nodes[j] == Node(docs[j], NaiveLinks(db, r.nested, docs[j])) {
      assert [] + NaiveLinks(db, r.nested, docs[j]) == NaiveLinks(db, r.nested, docs[j]);
    }
    assert nodes == NaiveNodes(db, r.nested, docs);
    var grouped := GroupByKey(docs, RelatedKey(r));
    AttachMatches(r, parents, keys, nodes, grouped, docs);
    forall i | 0 <= i < |raws|
      ensures LinkOf(r, nodes, Hits(keys[i], docs, RelatedKey(r))) == NaiveLink(db, r, raws[i])
    {
      forall k | k in keys[i] ensures k in values { assert SomeKey(keys, k); }
      LinkIsNaive(db, r, raws[i], values, nodes);
    }
    RootApart(r, at, nestedLog);
    return 1 + nestedFinds, [at] + nestedLog;
  }

  /** loadNested, and the body of loadRelations. */
  method LoadNested(db: DB, rels: seq<Relation>, nodes: array<Node>, ghost at: Path)
        returns (finds: nat, ghost log: seq<Path>)
    modifies nodes
    ensures |log| == finds <= SizeAll(rels) && Once(log)
    ensures forall p | p in log :: IsNodeOf(rels, at, p)
    ensures forall i :: 0 <= i < nodes.Length ==> nodes[i] == WithLinks(db, rels, old(nodes[i]))
    decreases rels
  {
    finds, log := 0, [];
    for n := 0 to |rels|
      invariant |log| == finds <= SizeAll(rels[..n]) && Once(log)
      invariant forall p | p in log :: IsNodeOf(rels[..n], at, p)
      invariant forall i :: 0 <= i < nodes.Length ==> nodes[i] == WithLinks(db, rels[..n], old(nodes[i]))
    {
      assert rels[..n + 1][..n] == rels[..n] && rels[..n + 1][n] == rels[n];
      var more, moreLog := Load(db, rels[n], nodes, at + [n]);
      LogsApart(rels, at, n, log, moreLog);
      finds, log := finds + more, log + moreLog;
    }
    assert rels[..|rels|] == rels;
  }

  lemma LogsApart(rels: seq<Relation>, at: Path, n: nat, log: seq<Path>, more: seq<Path>)
    requires n < |rels| && Once(log) && Once(more)
    requires forall p | p in log :: IsNodeOf(rels[..n], at, p)
    requires forall p | p in more :: IsNode(rels[n], at + [n], p)
    ensures Once(log + more) && forall p | p in log + more :: IsNodeOf(rels[..n + 1], at, p)
  {
    forall p | p in log + more ensures IsNodeOf(rels[..n + 1], at, p) {
      if p in log {
        var m :| 0 <= m < n && IsNode(rels[..n][m], at + [m], p);
        assert rels[..n + 1][m] == rels[..n][m];
      } else {
        assert rels[..n + 1][n] == rels[n];
      }
    }
    forall i, j | 0 <= i < |log| && 0 <= j < |more| ensures log[i] != more[j] {
      assert log[i] in log && more[j] in more;
      var m :| 0 <= m < n && IsNode(rels[..n][m], at + [m], log[i]);
      SubtreesApart(rels, at, m, n, log[i], more[j]);
    }
  }

  /** loadRelations: nothing is sent for an empty page, and at most one find for each
      node of the relation trees otherwise. */
  method LoadRelations(db: DB, with: seq<Relation>, page: array<Node>) returns (finds: nat, ghost log: seq<Path>)
    modifies page
    ensures |log| == finds <= SizeAll(with) && (page.Length == 0 ==> finds == 0)
    ensures Once(log) && forall p | p in log :: IsNodeOf(with, [], p)
    ensures forall i :: 0 <= i < page.Length ==> page[i] == WithLinks(db, with, old(page[i]))
  {
    if with == [] || page.Length == 0 {
      return 0, [];
    }
    finds, log := LoadNested(db, with, page, []);
  }
}
