/** What eager loading attaches, said of the declared fields alone: which documents are
    related to a parent, per kind of relation, and that those are the ones it gets
    (odm/has_many.go, odm/has_one.go, odm/belongs_to.go, odm/belongs_to_many.go). */
module Related {
  import opened Bson
  import opened Filter
  import opened Queries
  import opened Pagination
  import opened Relations
  import opened EagerLoad
  import opened PlainJoins

  /** The document holds this key under the field: as its value, or in its array. */
  predicate Carries(d: Doc, field: string, k: Value) {
    field in d && if d[field].Arr? then k in d[field].elems else k == d[field]
  }

  ghost predicate ShareAKey(a: Doc, f: string, b: Doc, g: string) {
    exists k :: Carries(a, f, k) && Carries(b, g, k)
  }

  /** An empty local or owner key is _id. */
  ghost predicate RelatedTo(r: Relation, parent: Doc, d: Doc) {
    match r
    case HasMany(_, foreignKey, localKey, _) =>
      ShareAKey(parent, if localKey == "" then "_id" else localKey, d, foreignKey)
    case HasOne(_, foreignKey, localKey, _) =>
      ShareAKey(parent, if localKey == "" then "_id" else localKey, d, foreignKey)
    case BelongsTo(_, foreignKey, ownerKey, _) =>
      ShareAKey(parent, foreignKey, d, if ownerKey == "" then "_id" else ownerKey)
    case BelongsToMany(_, localKey, ownerKey, _) =>
      ShareAKey(parent, localKey, d, if ownerKey == "" then "_id" else ownerKey)
  }

  /** Soft-deleted: deleted_at holds something, and no null. */
  predicate Gone(meta: Meta, d: Doc) {
    meta.softDeletes && "deleted_at" in d && d["deleted_at"] != Null &&
    !(d["deleted_at"].Arr? && Null in d["deleted_at"].elems)
  }

  /** The parent should get this document. */
  ghost predicate Due(db: DB, r: Relation, parent: Doc, d: Doc) {
    r.target in db && d in db[r.target].docs && !Gone(db[r.target].meta, d) && RelatedTo(r, parent, d)
  }

  lemma GoneIsTrashed(meta: Meta, d: Doc)
    ensures Matches(CompileFilter(NewQuery(meta), Excluded), d) <==> !Gone(meta, d)
  {
    CompiledUnderMode(meta, [], Excluded, d);
    var cs := Candidates(d, DELETED_AT);
    forall i | 0 <= i < |cs| ensures Compare(cs[i], Null) == 0 <==> cs[i] == Null {}
    if Null in cs {
      var i :| 0 <= i < |cs| && cs[i] == Null;
      assert EqualsAny(cs, Null);
    }
  }

  lemma CarriesIsKey(d: Doc, field: string, k: Value)
    ensures Carries(d, field, k) <==> k in FieldKeys(d, field)
  {
  }

  /** The join's fields are the declared ones. */
  lemma SharesIsRelated(r: Relation, parent: Doc, d: Doc)
    ensures Shares(FieldKeys(parent, ParentKey(r)), FieldKeys(d, RelatedKey(r))) <==> RelatedTo(r, parent, d)
  {
    forall k
      ensures Carries(parent, ParentKey(r), k) <==> k in FieldKeys(parent, ParentKey(r))
      ensures Carries(d, RelatedKey(r), k) <==> k in FieldKeys(d, RelatedKey(r))
    {
      CarriesIsKey(parent, ParentKey(r), k);
      CarriesIsKey(d, RelatedKey(r), k);
    }
    assert RelatedTo(r, parent, d) <==> ShareAKey(parent, ParentKey(r), d, RelatedKey(r));
  }

  /** The documents joined for a parent. */
  function Attached(db: DB, r: Relation, parent: Doc): seq<Doc> {
    Joined(FieldKeys(parent, ParentKey(r)), Visible(db, r.target), RelatedKey(r))
  }

  lemma AttachedIsDue(db: DB, r: Relation, parent: Doc, d: Doc)
    ensures d in Attached(db, r, parent) <==> Due(db, r, parent, d)
  {
    SameMembers(FieldKeys(parent, ParentKey(r)), Visible(db, r.target), RelatedKey(r));
    SharesIsRelated(r, parent, d);
    if r.target in db { GoneIsTrashed(db[r.target].meta, d); }
  }

  // ---- In the collection's order ----

  predicate Climbs(places: seq<nat>) {
    forall i, j :: 0 <= i < j < |places| ==> places[i] <= places[j]
  }

  /** Where in the collection the joined documents are. */
  predicate PlacedIn(places: seq<nat>, rows: seq<Doc>, docs: seq<Doc>) {
    && |places| == |rows| && Climbs(places)
    && forall i :: 0 <= i < |rows| ==> places[i] < |docs| && docs[places[i]] == rows[i]
  }

  lemma ShiftedPlaces(docs: seq<Doc>, tail: seq<Doc>, rest: seq<nat>, times: nat) returns (places: seq<nat>)
    requires docs != [] && PlacedIn(rest, tail, docs[1..])
    ensures PlacedIn(places, Repeat(docs[0], times) + tail, docs)
    ensures places == [] <==> times == 0 && rest == []
    ensures places != [] ==> places[0] == if times > 0 then 0 else rest[0] + 1
  {
    var here: seq<nat> := Repeat(0, times);
    places := here + seq(|rest|, i requires 0 <= i < |rest| => rest[i] + 1);
    var rows := Repeat(docs[0], times) + tail;
    forall i | 0 <= i < |rows| ensures places[i] < |docs| && docs[places[i]] == rows[i] {
      if i >= times { assert docs[1..][rest[i - times]] == tail[i - times]; }
    }
  }

  predicate Joins(pk: seq<Value>, d: Doc, field: string, f: Filter) {
    Matches(f, d) && Shares(pk, FieldKeys(d, field))
  }

  /** No document before the first place, or none at all, joins. */
  predicate NoneBefore(places: seq<nat>, pk: seq<Value>, docs: seq<Doc>, field: string, f: Filter) {
    forall j :: 0 <= j < |docs| && (places == [] || j < places[0]) ==> !Joins(pk, docs[j], field, f)
  }

  lemma NoneBeforeShifted(rest: seq<nat>, places: seq<nat>, pk: seq<Value>, docs: seq<Doc>, field: string, f: Filter)
    requires docs != [] && NoneBefore(rest, pk, docs[1..], field, f)
    requires Joins(pk, docs[0], field, f) ==> places != [] && places[0] == 0
    requires !Joins(pk, docs[0], field, f) ==>
               (places == [] <==> rest == []) && (rest != [] ==> places[0] == rest[0] + 1)
    ensures NoneBefore(places, pk, docs, field, f)
  {
    forall j | 0 <= j < |docs| && (places == [] || j < places[0]) ensures !Joins(pk, docs[j], field, f) {
      if j > 0 { assert docs[1..][j - 1] == docs[j]; }
    }
  }

  lemma {:induction false} JoinedPlaces(pk: seq<Value>, docs: seq<Doc>, field: string, f: Filter)
      returns (places: seq<nat>)
    ensures PlacedIn(places, Joined(pk, Matching(docs, f), field), docs)
    ensures NoneBefore(places, pk, docs, field, f)
    decreases |docs|
  {
    if docs == [] {
      places := [];
    } else {
      var rest := JoinedPlaces(pk, docs[1..], field, f);
      var times := if Matches(f, docs[0]) then Times(pk, FieldKeys(docs[0], field)) else 0;
      MatchingJoin(pk, docs, field, f);
      TimesPositive(pk, FieldKeys(docs[0], field));
      assert times == 0 ==> Repeat(docs[0], times) == [];
      places := ShiftedPlaces(docs, Joined(pk, Matching(docs[1..], f), field), rest, times);
      NoneBeforeShifted(rest, places, pk, docs, field, f);
    }
  }

  ghost predicate FirstDueAt(db: DB, r: Relation, parent: Doc, d: Doc, i: nat)
    requires r.target in db
  {
    var docs := db[r.target].docs;
    i < |docs| && docs[i] == d && forall j :: 0 <= j < i ==> !Due(db, r, parent, docs[j])
  }

  /** The first document of the collection that is due. */
  ghost predicate FirstDue(db: DB, r: Relation, parent: Doc, d: Doc) {
    r.target in db && Due(db, r, parent, d) && exists i :: FirstDueAt(db, r, parent, d, i)
  }

  lemma AttachedPlaces(db: DB, r: Relation, parent: Doc) returns (places: seq<nat>)
    requires r.target in db
    ensures PlacedIn(places, Attached(db, r, parent), db[r.target].docs)
    ensures places != [] ==> forall j :: 0 <= j < places[0] ==> !Due(db, r, parent, db[r.target].docs[j])
  {
    var docs, meta := db[r.target].docs, db[r.target].meta;
    var pk, f := FieldKeys(parent, ParentKey(r)), CompileFilter(NewQuery(meta), Excluded);
    places := JoinedPlaces(pk, docs, RelatedKey(r), f);
    forall j | 0 <= j < |docs| && places != [] && j < places[0] ensures !Due(db, r, parent, docs[j]) {
      GoneIsTrashed(meta, docs[j]);
      SharesIsRelated(r, parent, docs[j]);
    }
  }

  function DocsOf(nodes: seq<Node>): (docs: seq<Doc>)
    ensures |docs| == |nodes|
  {
    seq(|nodes|, i requires 0 <= i < |nodes| => nodes[i].doc)
  }

  /** What a parent gets: through HasMany and BelongsToMany the documents due to it, all
      of them and in the collection's order; through HasOne and BelongsTo the first of
      them, or none; each with its own nested relations loaded. */
  lemma LinkMeans(db: DB, r: Relation, parent: Doc)
    ensures var link := NaiveLink(db, r, parent);
            && (r.HasMany? || r.BelongsToMany? ==>
                  && link.Many?
                  && (forall d :: d in DocsOf(link.children) <==> Due(db, r, parent, d))
                  && (r.target in db ==> exists places :: PlacedIn(places, DocsOf(link.children), db[r.target].docs))
                  && forall c | c in link.children :: c.links == NaiveLinks(db, r.nested, c.doc))
            && (r.HasOne? || r.BelongsTo? ==>
                  && link.One?
                  && (link.child.None? <==> forall d :: !Due(db, r, parent, d))
                  && (link.child.Some? ==>
                        var c := link.child.value;
                        FirstDue(db, r, parent, c.doc) && c.links == NaiveLinks(db, r.nested, c.doc)))
  {
    var docs, link := Attached(db, r, parent), NaiveLink(db, r, parent);
    forall d ensures d in docs <==> Due(db, r, parent, d) { AttachedIsDue(db, r, parent, d); }
    if r.HasMany? || r.BelongsToMany? {
      assert link == Many(NaiveNodes(db, r.nested, docs));
      assert forall i :: 0 <= i < |docs| ==> link.children[i].doc == docs[i];
      assert DocsOf(link.children) == docs;
      if r.target in db { var places := AttachedPlaces(db, r, parent); }
    } else if docs == [] {
    } else {
      assert docs[0] in docs;
      var places := AttachedPlaces(db, r, parent);
      assert FirstDueAt(db, r, parent, docs[0], places[0]);
    }
  }

  lemma LinksSnoc(db: DB, rels: seq<Relation>, d: Doc, links: seq<Link>)
    requires rels != [] && links == NaiveLinks(db, rels, d)
    ensures links == NaiveLinks(db, rels[..|rels| - 1], d) + [NaiveLink(db, rels[|rels| - 1], d)]
  {
  }

  /** Of a list of relations, one link each in their order. */
  lemma {:induction false} LinksMean(db: DB, rels: seq<Relation>, d: Doc, i: nat, links: seq<Link>, link: Link)
    requires i < |rels| && links == NaiveLinks(db, rels, d) && link == NaiveLink(db, rels[i], d)
    ensures |links| == |rels| && links[i] == link
    decreases |rels|
  {
    var n := |rels| - 1;
    LinksSnoc(db, rels, d, links);
    if i < n {
      assert rels[..n][i] == rels[i];
      LinksMean(db, rels[..n], d, i, NaiveLinks(db, rels[..n], d), link);
    }
  }

  /** What Load writes: every parent keeps its document and its links, and gets one more
      for each relation, the one above. */
  lemma LoadMeans(db: DB, rels: seq<Relation>, n: Node, i: nat, link: Link)
    requires i < |rels| && link == NaiveLink(db, rels[i], n.doc)
    ensures var r := WithLinks(db, rels, n);
            && r.doc == n.doc && |r.links| == |n.links| + |rels|
            && r.links[..|n.links|] == n.links && r.links[|n.links| + i] == link
  {
    LinksMean(db, rels, n.doc, i, NaiveLinks(db, rels, n.doc), link);
  }
}
