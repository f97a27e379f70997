/** When what eager loading attaches is the plain nested-loop join, each related
    document once (odm/relation.go). */
module PlainJoins {
  import opened Bson
  import opened Relations
  import opened EagerLoad
  import opened Pagination

  // ---- One relation ----

  /** Every visible related document sharing a key with the parent, once each. */
  function PlainJoin(pk: seq<Value>, docs: seq<Doc>, field: string): (r: seq<Doc>)
    ensures forall d :: d in r <==> d in docs && Shares(pk, FieldKeys(d, field))
  {
    if docs == [] then []
    else
      var rest := PlainJoin(pk, docs[1..], field);
      if Shares(pk, FieldKeys(docs[0], field)) then [docs[0]] + rest else rest
  }

  predicate ListsTwice(pk: seq<Value>, d: Doc, field: string) {
    |pk| == 1 && Count(FieldKeys(d, field), pk[0]) > 1
  }

  lemma {:induction false} JoinedLength(pk: seq<Value>, docs: seq<Doc>, field: string)
    ensures |PlainJoin(pk, docs, field)| <= |Joined(pk, docs, field)|
    ensures |PlainJoin(pk, docs, field)| == |Joined(pk, docs, field)| ==>
              forall d | d in docs :: !ListsTwice(pk, d, field)
  {
    if docs != [] {
      JoinedLength(pk, docs[1..], field);
      TimesPositive(pk, FieldKeys(docs[0], field));
      if |PlainJoin(pk, docs, field)| == |Joined(pk, docs, field)| {
        assert Times(pk, FieldKeys(docs[0], field)) <= 1;
        forall d | d in docs ensures !ListsTwice(pk, d, field) {
          if d != docs[0] { assert d in docs[1..]; }
        }
      }
    }
  }

  lemma {:induction false} NoneTwiceIsPlain(pk: seq<Value>, docs: seq<Doc>, field: string)
    requires forall d | d in docs :: !ListsTwice(pk, d, field)
    ensures Joined(pk, docs, field) == PlainJoin(pk, docs, field)
  {
    if docs != [] {
      NoneTwiceIsPlain(pk, docs[1..], field);
      TimesPositive(pk, FieldKeys(docs[0], field));
      assert docs[0] in docs && !ListsTwice(pk, docs[0], field);
      assert Times(pk, FieldKeys(docs[0], field)) == if Shares(pk, FieldKeys(docs[0], field)) then 1 else 0;
      assert Repeat(docs[0], 1) == [docs[0]] && Repeat(docs[0], 0) == [];
    }
  }

  /** The attached list is the plain join, in fetch order and without repeats, if and
      only if no visible document lists the parent's only key twice; the documents
      in it are always the right ones, and so is the first. */
  lemma PlainIff(db: DB, r: Relation, parent: Doc)
    ensures var pk, docs, f := FieldKeys(parent, ParentKey(r)), Visible(db, r.target), RelatedKey(r);
            && (Joined(pk, docs, f) == PlainJoin(pk, docs, f) <==> forall d | d in docs :: !ListsTwice(pk, d, f))
            && (forall d :: d in Joined(pk, docs, f) <==> d in PlainJoin(pk, docs, f))
            && (Joined(pk, docs, f) == [] <==> PlainJoin(pk, docs, f) == [])
            && (Joined(pk, docs, f) != [] ==> Joined(pk, docs, f)[0] == PlainJoin(pk, docs, f)[0])
  {
    var pk, docs, f := FieldKeys(parent, ParentKey(r)), Visible(db, r.target), RelatedKey(r);
    JoinedLength(pk, docs, f);
    if forall d | d in docs :: !ListsTwice(pk, d, f) { NoneTwiceIsPlain(pk, docs, f); }
    SameMembers(pk, docs, f);
  }

  lemma {:induction false} SameMembers(pk: seq<Value>, docs: seq<Doc>, field: string)
    ensures forall d :: d in Joined(pk, docs, field) <==> d in PlainJoin(pk, docs, field)
    ensures Joined(pk, docs, field) == [] <==> PlainJoin(pk, docs, field) == []
    ensures Joined(pk, docs, field) != [] ==> Joined(pk, docs, field)[0] == PlainJoin(pk, docs, field)[0]
  {
    if docs != [] {
      SameMembers(pk, docs[1..], field);
      var times := Times(pk, FieldKeys(docs[0], field));
      TimesPositive(pk, FieldKeys(docs[0], field));
      if times > 0 { assert Repeat(docs[0], times)[0] == docs[0]; }
      assert forall d :: d in Repeat(docs[0], times) <==> times > 0 && d == docs[0];
    }
  }

  /** The repeat, concretely: a role whose user list names one user twice is attached
      to that user twice. */
  lemma FastPathRepeats()
    ensures var role := map[ID := Oid(7), "user_ids" := Arr([Oid(1), Oid(1)])];
            Joined([Oid(1)], [role], "user_ids") == [role, role]
  {
    var role: Doc := map[ID := Oid(7), "user_ids" := Arr([Oid(1), Oid(1)])];
    var keys := FieldKeys(role, "user_ids");
    assert keys == [Oid(1), Oid(1)] && keys[..1] == [Oid(1)] && keys[..1][..0] == [];
    assert Count(keys[..1], Oid(1)) == 1 && Count(keys, Oid(1)) == 2;
    assert Repeat(role, 2) == [role, role];
    assert [role][1..] == [];
  }

  // ---- Whole trees ----

  /** The nested-loop tree: per parent, the documents sharing a key, once each, with
      their own relations below them. */
  function PlainLink(db: DB, r: Relation, parent: Doc): Link
    decreases r
  {
    var docs := PlainJoin(FieldKeys(parent, ParentKey(r)), Visible(db, r.target), RelatedKey(r));
    if IsMany(r) then Many(PlainNodes(db, r.nested, docs))
    else if docs == [] then One(None)
    else One(Some(Node(docs[0], PlainLinks(db, r.nested, docs[0]))))
  }

  function PlainNodes(db: DB, nested: seq<Relation>, docs: seq<Doc>): (nodes: seq<Node>)
    ensures |nodes| == |docs|
    decreases nested, 1
  {
    seq(|docs|, i requires 0 <= i < |docs| => Node(docs[i], PlainLinks(db, nested, docs[i])))
  }

  function PlainLinks(db: DB, nested: seq<Relation>, d: Doc): (links: seq<Link>)
    ensures |links| == |nested|
    decreases nested, 0
  {
    if nested == [] then []
    else
      var n := |nested| - 1;
      PlainLinks(db, nested[..n], d) + [PlainLink(db, nested[n], d)]
  }

  /** No visible document reached through a many-valued relation, at any level, lists
      twice the only key of the document it is reached from. */
  predicate Clean(db: DB, r: Relation, parent: Doc)
    decreases r
  {
    var pk, docs, f := FieldKeys(parent, ParentKey(r)), Visible(db, r.target), RelatedKey(r);
    var joined := PlainJoin(pk, docs, f);
    if IsMany(r) then (forall d | d in docs :: !ListsTwice(pk, d, f)) &&
        (forall d | d in joined :: CleanAll(db, r.nested, d))
    else joined == [] || CleanAll(db, r.nested, joined[0])
  }

  predicate CleanAll(db: DB, nested: seq<Relation>, d: Doc)
    decreases nested
  {
    nested == [] ||
    (var n := |nested| - 1; CleanAll(db, nested[..n], d) && Clean(db, nested[n], d))
  }

  /** Loading a tree attaches the nested-loop tree if and only if it is clean. */
  lemma LoadIsPlainIff(db: DB, r: Relation, n: Node)
    ensures WithLink(db, r, n) == Node(n.doc, n.links + [PlainLink(db, r, n.doc)]) <==> Clean(db, r, n.doc)
  {
    LinkPlainIff(db, r, n.doc);
    var a, b := n.links + [NaiveLink(db, r, n.doc)], n.links + [PlainLink(db, r, n.doc)];
    assert a[|n.links|] == NaiveLink(db, r, n.doc) && b[|n.links|] == PlainLink(db, r, n.doc);
  }

  lemma {:induction false} LinkPlainIff(db: DB, r: Relation, parent: Doc)
    ensures NaiveLink(db, r, parent) == PlainLink(db, r, parent) <==> Clean(db, r, parent)
    decreases r, 1
  {
    var pk, docs, f := FieldKeys(parent, ParentKey(r)), Visible(db, r.target), RelatedKey(r);
    PlainIff(db, r, parent);
    var joined, plain := Joined(pk, docs, f), PlainJoin(pk, docs, f);
    if IsMany(r) {
      JoinedLength(pk, docs, f);
      if joined == plain { NodesPlainIff(db, r.nested, plain); }
    } else if plain != [] {
      LinksPlainIff(db, r.nested, plain[0]);
    }
  }

  lemma {:induction false} NodesPlainIff(db: DB, nested: seq<Relation>, docs: seq<Doc>)
    ensures NaiveNodes(db, nested, docs) == PlainNodes(db, nested, docs) <==>
        forall d | d in docs :: CleanAll(db, nested, d)
    decreases nested, 1
  {
    var a, b := NaiveNodes(db, nested, docs), PlainNodes(db, nested, docs);
    forall i | 0 <= i < |docs| ensures a[i] == b[i] <==> CleanAll(db, nested, docs[i]) {
      LinksPlainIff(db, nested, docs[i]);
    }
    assert forall i :: 0 <= i < |docs| ==> docs[i] in docs;
  }

  lemma SnocEqual(a: seq<Link>, b: seq<Link>, x: Link, y: Link)
    requires |a| == |b|
    ensures a + [x] == b + [y] <==> a == b && x == y
  {
    var c, d := a + [x], b + [y];
    assert c[..|a|] == a && d[..|b|] == b && c[|a|] == x && d[|b|] == y;
  }

  lemma {:induction false} LinksPlainIff(db: DB, nested: seq<Relation>, d: Doc)
    ensures |NaiveLinks(db, nested, d)| == |nested|
    ensures NaiveLinks(db, nested, d) == PlainLinks(db, nested, d) <==> CleanAll(db, nested, d)
    decreases nested, 0
  {
    if nested != [] {
      var n := |nested| - 1;
      LinksPlainIff(db, nested[..n], d);
      LinkPlainIff(db, nested[n], d);
      assert NaiveLinks(db, nested, d) == NaiveLinks(db, nested[..n], d) + [NaiveLink(db, nested[n], d)];
      assert PlainLinks(db, nested, d) == PlainLinks(db, nested[..n], d) + [PlainLink(db, nested[n], d)];
      SnocEqual(NaiveLinks(db, nested[..n], d), PlainLinks(db, nested[..n], d), NaiveLink(db, nested[n], d),
          PlainLink(db, nested[n], d));
    }
  }
}
