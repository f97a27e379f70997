/** What a chain of calls makes of the terminals at its end (odm/pagination.go,
    odm/execute.go, odm/soft_delete.go), said of the calls themselves: a chain with a
    fault is refused under the fault's name and nothing is sent; on any other the
    stages, the flags and the projection are those its calls asked for. */
module Terminals {
  import opened Bson
  import opened Filter
  import opened Queries
  import Chains
  import Cursor
  import opened Pagination
  import opened SoftDelete
  import Update

  // ---- Reading ----

  /** Neither empty nor a cursor minted under the sort the chain asks for. */
  predicate Undecodable(cursor: Cursor.CursorText, calls: seq<Call>) {
    !cursor.NoCursor? && Cursor.DecodeCursor(cursor, Cursor.PageSorts(Chains.Sorts(calls))).Err?
  }

  /** CursorPaginate on a chain with a fault answers that error; on any other a limit that
      is not positive its own, and then a cursor that does not decode ErrInvalidCursor. */
  lemma PageRefused(meta: Meta, calls: seq<Call>, store: Store, limit: PageLimit, cursor: Cursor.CursorText)
    ensures var r := PageOf(Build(NewQuery(meta), calls), store, limit, cursor);
            match Chains.FirstFault(meta, calls)
            case Some(name) => r == Err(InvalidQuery(name))
            case None =>
              && (limit <= 0 ==> r == Err(InvalidQuery("CursorPaginate")))
              && (limit > 0 && Undecodable(cursor, calls) ==> r == Err(InvalidCursor))
  {
    Chains.ChainBuilds(meta, calls);
  }

  /** Limit and Skip in the chain make no difference to a page. */
  lemma PageIgnoresBounds(q: Query, limit: Option<int>, skip: Option<int>, store: Store, size: PageLimit,
        cursor: Cursor.CursorText)
    ensures PageOf(q.(limit := limit, skip := skip), store, size, cursor) == PageOf(q, store, size, cursor)
  {
    var other, sorts := q.(limit := limit, skip := skip), Cursor.PageSorts(q.sorts);
    if SeekQuery(q, sorts, cursor).Ok? {
      var seek, also := SeekQuery(q, sorts, cursor).value, SeekQuery(other, sorts, cursor).value;
      assert also == seek.(limit := limit, skip := skip);
      assert CompileFilter(also, also.trashed) == CompileFilter(seek, seek.trashed);
    }
  }

  /** Does the chain ask for this field of the documents it returns? */
  predicate AskedFor(meta: Meta, calls: seq<Call>, field: string) {
    var n := Chains.NamedBy(meta, calls);
    field !in n.excluded && (n.selected == {} || field in n.selected || field == "_id")
  }

  lemma EntryFound(ps: seq<Projected>, p: Projected)
    requires LegalProjection(ps) && p in ps
    ensures Projection(ps, p.key) == Some(p.value)
  {
    ProjectionFinds(ps, p.key);
    var i :| 0 <= i < |ps| && ps[i] == p;
    var v := Projection(ps, p.key).value;
    var j :| 0 <= j < |ps| && ps[j] == Projected(p.key, v);
    assert i == j;
  }

  lemma AllZeroIff(q: Query, n: Chains.Named)
    requires Chains.Projects(q, n) && LegalProjection(q.projection)
    ensures (forall p | p in q.projection :: p.value == 0) <==> n.selected == {}
  {
    var ps := q.projection;
    if n.selected == {} {
      forall p | p in ps ensures p.value == 0 { EntryFound(ps, p); }
    } else {
      var f :| f in n.selected;
      ProjectionFinds(ps, f);
      assert Projected(f, 1) in ps;
    }
  }

  lemma KeptIff(q: Query, n: Chains.Named, field: string)
    requires Chains.Projects(q, n) && LegalProjection(q.projection)
    ensures Kept(q.projection, field) <==>
            field !in n.excluded && (n.selected == {} || field in n.selected || field == "_id")
  {
    AllZeroIff(q, n);
    assert field !in n.selected * n.excluded;
    assert Projection(q.projection, field) ==
           if field in n.selected then Some(1) else if field in n.excluded then Some(0) else None;
  }

  /** A returned row is the document cut down to the fields the chain asked for: the
      selected ones and _id if there is a selection, else all, less the excluded ones. */
  lemma ReturnedFields(meta: Meta, calls: seq<Call>, d: Doc, field: string)
    ensures Get(Project(Build(NewQuery(meta), calls).projection, d), field) ==
            if AskedFor(meta, calls, field) then Get(d, field) else None
  {
    Chains.ChainBuilds(meta, calls);
    ChainKeepsInvariant(meta, calls);
    KeptIff(Build(NewQuery(meta), calls), Chains.NamedBy(meta, calls), field);
  }

  // ---- Updating ----

  /** Is updated_at refreshed along with what the chain stages? */
  predicate RefreshDue(meta: Meta, calls: seq<Call>) {
    meta.timestamps && WithoutTimestamps !in calls && !Chains.StagedBefore(calls, "updated_at")
  }

  /** Update on a chain with a fault answers that error, on one that stages nothing its
      own; on any other it sends a document with the effect of the calls' stages in
      order, and of the refresh when one is due. */
  lemma UpdateOfChain(meta: Meta, calls: seq<Call>, now: Value, d: Doc)
    ensures var r := Update.StagedUpdateOf(Build(NewQuery(meta), calls), now);
            match Chains.FirstFault(meta, calls)
            case Some(name) => r == Err(InvalidQuery(name))
            case None =>
              if Chains.Stages(calls) == [] then r == Err(InvalidQuery("Update"))
              else
                && r.Ok?
                && Update.ApplyAll(Update.Ungrouped(r.value), d) ==
                   match Update.ApplyAll(Chains.Stages(calls), d)
                   case None => None
                   case Some(e) => Some(if RefreshDue(meta, calls) then e["updated_at" := now] else e)
  {
    Chains.ChainBuilds(meta, calls);
    Chains.StagesAre(calls, "updated_at");
    Update.UpdateMeansChain(meta, calls, now, d);
  }

  // ---- Deleting and restoring ----

  /** A step on a chain with a fault is refused with that error and leaves every document
      as it is; on any other it is refused only where it needs soft deletes. */
  lemma StepRefused(meta: Meta, s: Step, docs: seq<Doc>)
    ensures Refusal(meta, s) ==
            match Chains.FirstFault(meta, s.calls)
            case Some(name) => Some(InvalidQuery(name))
            case None =>
              if meta.softDeletes || s.DeleteStep? then None
              else if s.RestoreStep? then Some(InvalidQuery("Restore"))
              else Some(InvalidQuery("ForceDelete"))
    ensures Refusal(meta, s).Some? ==> StepAll(meta, s, docs) == docs
  {
    Chains.ChainBuilds(meta, s.calls);
    if Refusal(meta, s).Some? { StepIsNothing(meta, s, docs); }
  }

  /** A document is trashed exactly when its deleted_at is there and is neither null nor
      an array holding a null. */
  lemma TrashedMeans(d: Doc)
    ensures Trashed(d) <==>
            "deleted_at" in d && d["deleted_at"] != Null && (d["deleted_at"].Arr? ==> Null !in d["deleted_at"].elems)
  {
    var cs := Candidates(d, "deleted_at");
    assert cs[0] == if "deleted_at" in d then d["deleted_at"] else Null;
    forall i | 0 <= i < |cs| ensures Compare(cs[i], Null) == 0 <==> cs[i] == Null {
      assert cs[i] != Null ==> Bracket(cs[i]) != Bracket(Null);
    }
    assert Trashed(d) <==> Null !in cs;
  }

  /** What Delete and Restore make of a document they reach, on a soft-delete model: they
      stamp it or clear the stamp, and refresh updated_at on a timestamped model unless
      the chain asks for no timestamps. Without soft deletes Delete removes it. */
  lemma ReachedDocument(meta: Meta, s: Step, d: Doc)
    requires Chains.FirstFault(meta, s.calls).None? && !s.ForceDeleteStep? && FoldHolds(s.calls, d)
    ensures meta.softDeletes && (if s.DeleteStep? then Admits(FinalMode(s.calls), d) else Trashed(d)) ==>
              var e := if s.DeleteStep? then d["deleted_at" := s.now] else d - {"deleted_at"};
              StepDoc(meta, s, d) ==
              Some(if meta.timestamps && WithoutTimestamps !in s.calls then e["updated_at" := s.now] else e)
    ensures !meta.softDeletes && s.DeleteStep? ==> StepDoc(meta, s, d) == None
  {
    Chains.ChainBuilds(meta, s.calls);
    StepRefused(meta, s, []);
    if meta.softDeletes {
      StepMeaning(meta, s, d);
    } else {
      CompiledFilterIsFold(meta, s.calls, d);
    }
  }
}
