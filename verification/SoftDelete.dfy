/** Delete, Restore and ForceDelete over a collection (odm/soft_delete.go,
    odm/execute.go), and whole runs of them. */
module SoftDelete {
  import opened Bson
  import opened Filter
  import opened Queries
  import opened Update

  /** softDeleteUpdate's operations. */
  function DeleteOps(q: Query, now: Value): seq<UpdateOp> {
    [UpdateOp(OpSet, DELETED_AT, now)] +
    if q.meta.timestamps && !q.skipTimestamps then [UpdateOp(OpSet, UPDATED_AT, now)] else []
  }

  function RestoreOps(q: Query, now: Value): seq<UpdateOp> {
    [UpdateOp(OpUnset, DELETED_AT, Str(""))] +
    if q.meta.timestamps && !q.skipTimestamps then [UpdateOp(OpSet, UPDATED_AT, now)] else []
  }

  function ForceDeleteMode(mode: TrashedMode): TrashedMode {
    if mode == Excluded then Included else mode
  }

  /** One document under the server's UpdateMany. */
  function Touch(d: Doc, f: Filter, update: seq<Group>): Doc {
    if !Matches(f, d) then d
    else match ApplyAll(Ungrouped(update), d)
      case None => d
      case Some(e) => e
  }

  function TouchAll(docs: seq<Doc>, f: Filter, update: seq<Group>): (r: seq<Doc>)
    ensures |r| == |docs|
  {
    seq(|docs|, i requires 0 <= i < |docs| => Touch(docs[i], f, update))
  }

  function Keep(docs: seq<Doc>, f: Filter): (r: seq<Doc>)
    ensures forall d :: d in r <==> d in docs && !Matches(f, d)
  {
    if docs == [] then []
    else if Matches(f, docs[0]) then Keep(docs[1..], f)
    else [docs[0]] + Keep(docs[1..], f)
  }

  /** One mutating terminal on a chain. */
  datatype Step =
    | DeleteStep(calls: seq<Call>, now: Value)
    | RestoreStep(calls: seq<Call>, now: Value)
    | ForceDeleteStep(calls: seq<Call>)

  /** The terminal's answer, before it writes anything. */
  function Refusal(meta: Meta, s: Step): Option<Error> {
    var q := Build(NewQuery(meta), s.calls);
    if q.err.Some? then q.err
    else if s.DeleteStep? || meta.softDeletes then None
    else Some(InvalidQuery(if s.RestoreStep? then "Restore" else "ForceDelete"))
  }

  /** What the step makes of one document; None when it is removed. */
  function StepDoc(meta: Meta, s: Step, d: Doc): Option<Doc> {
    var q := Build(NewQuery(meta), s.calls);
    if Refusal(meta, s).Some? then Some(d)
    else match s
      case DeleteStep(_, now) =>
        if !meta.softDeletes then (if Matches(CompileFilter(q, q.trashed), d) then None else Some(d))
        else Some(Touch(d, CompileFilter(q, q.trashed), Grouped(DeleteOps(q, now))))
      case RestoreStep(_, now) => Some(Touch(d, CompileFilter(q, Only), Grouped(RestoreOps(q, now))))
      case ForceDeleteStep(_) =>
        if Matches(CompileFilter(q, ForceDeleteMode(q.trashed)), d) then None else Some(d)
  }

  function StepAll(meta: Meta, s: Step, docs: seq<Doc>): seq<Doc> {
    if docs == [] then []
    else
      var rest := StepAll(meta, s, docs[1..]);
      match StepDoc(meta, s, docs[0])
      case None => rest
      case Some(d) => [d] + rest
  }

  /** The collection and its mutating terminals. */
  class Collection {
    const meta: Meta
    var docs: seq<Doc>

    constructor (meta: Meta, docs: seq<Doc>)
      ensures this.meta == meta && this.docs == docs
    {
      this.meta, this.docs := meta, docs;
    }

    /** The server's UpdateMany. */
    method UpdateMany(f: Filter, update: seq<Group>)
      modifies this
      ensures docs == TouchAll(old(docs), f, update)
    {
      var before := docs;
      for i := 0 to |docs|
        invariant |docs| == |before|
        invariant docs[..i] == TouchAll(before, f, update)[..i] && docs[i..] == before[i..]
      {
        docs := docs[i := Touch(docs[i], f, update)];
      }
      assert docs[..|docs|] == docs && TouchAll(before, f, update)[..|docs|] == TouchAll(before, f, update);
    }

    /** The server's DeleteMany. */
    method DeleteMany(f: Filter)
      modifies this
      ensures docs == Keep(old(docs), f)
    {
      var kept: seq<Doc> := [];
      var i := |docs|;
      while i > 0
        invariant 0 <= i <= |docs| && docs == old(docs)
        invariant kept == Keep(docs[i..], f)
      {
        i := i - 1;
        assert docs[i..][1..] == docs[i + 1..] && docs[i..][0] == docs[i];
        if !Matches(f, docs[i]) { kept := [docs[i]] + kept; }
      }
      assert docs[0..] == docs;
      docs := kept;
    }

    method Delete(q: Query, now: Value) returns (err: Option<Error>)
      requires q.meta == meta
      modifies this
      ensures err == q.err
      ensures docs == if q.err.Some? then old(docs)
                      else if !meta.softDeletes then Keep(old(docs), CompileFilter(q, q.trashed))
                      else TouchAll(old(docs), CompileFilter(q, q.trashed), Grouped(DeleteOps(q, now)))
    {
      if q.err.Some? {
        return q.err;
      }
      if !q.meta.softDeletes {
        DeleteMany(CompileFilter(q, q.trashed));
        return None;
      }
      var ops := [UpdateOp(OpSet, DELETED_AT, now)];
      if q.meta.timestamps && !q.skipTimestamps {
        ops := ops + [UpdateOp(OpSet, UPDATED_AT, now)];
      }
      assert ops == DeleteOps(q, now);
      var update := CompileUpdate(ops);
      UpdateMany(CompileFilter(q, q.trashed), update);
      return None;
    }

    method Restore(q: Query, now: Value) returns (err: Option<Error>)
      requires q.meta == meta
      modifies this
      ensures err == if q.err.Some? then q.err
                     else if !meta.softDeletes then Some(InvalidQuery("Restore")) else None
      ensures docs == if err.Some? then old(docs)
                      else TouchAll(old(docs), CompileFilter(q, Only), Grouped(RestoreOps(q, now)))
    {
      if q.err.Some? {
        return q.err;
      }
      if !q.meta.softDeletes {
        return Some(InvalidQuery("Restore"));
      }
      var ops := [UpdateOp(OpUnset, DELETED_AT, Str(""))];
      if q.meta.timestamps && !q.skipTimestamps {
        ops := ops + [UpdateOp(OpSet, UPDATED_AT, now)];
      }
      assert ops == RestoreOps(q, now);
      var update := CompileUpdate(ops);
      UpdateMany(CompileFilter(q, Only), update);
      return None;
    }

    method ForceDelete(q: Query) returns (err: Option<Error>)
      requires q.meta == meta
      modifies this
      ensures err == if q.err.Some? then q.err
                     else if !meta.softDeletes then Some(InvalidQuery("ForceDelete")) else None
      ensures docs == if err.Some? then old(docs) else Keep(old(docs), CompileFilter(q, ForceDeleteMode(q.trashed)))
    {
      if q.err.Some? {
        return q.err;
      }
      if !q.meta.softDeletes {
        return Some(InvalidQuery("ForceDelete"));
      }
      DeleteMany(CompileFilter(q, ForceDeleteMode(q.trashed)));
      return None;
    }

    /** Any step, and the collection it leaves, document by document. */
    method Perform(s: Step) returns (err: Option<Error>)
      modifies this
      ensures err == Refusal(meta, s)
      ensures docs == StepAll(meta, s, old(docs))
    {
      var q := Build(NewQuery(meta), s.calls);
      MetaKept(meta, s.calls);
      match s {
        case DeleteStep(_, now) => err := Delete(q, now);
        case RestoreStep(_, now) => err := Restore(q, now);
        case ForceDeleteStep(_) => err := ForceDelete(q);
      }
      if err.Some? {
        StepIsNothing(meta, s, old(docs));
      } else if s.ForceDeleteStep? {
        StepIsKeep(meta, s, old(docs), CompileFilter(q, ForceDeleteMode(q.trashed)));
      } else if s.RestoreStep? {
        StepIsTouch(meta, s, old(docs), CompileFilter(q, Only), Grouped(RestoreOps(q, s.now)));
      } else if meta.softDeletes {
        StepIsTouch(meta, s, old(docs), CompileFilter(q, q.trashed), Grouped(DeleteOps(q, s.now)));
      } else {
        StepIsKeep(meta, s, old(docs), CompileFilter(q, q.trashed));
      }
    }
  }

  lemma {:induction false} StepIsNothing(meta: Meta, s: Step, docs: seq<Doc>)
    requires Refusal(meta, s).Some?
    ensures StepAll(meta, s, docs) == docs
  {
    if docs != [] { StepIsNothing(meta, s, docs[1..]); }
  }

  lemma {:induction false} StepIsKeep(meta: Meta, s: Step, docs: seq<Doc>, f: Filter)
    requires forall d :: StepDoc(meta, s, d) == if Matches(f, d) then None else Some(d)
    ensures StepAll(meta, s, docs) == Keep(docs, f)
  {
    if docs != [] { StepIsKeep(meta, s, docs[1..], f); }
  }

  lemma {:induction false} StepIsTouch(meta: Meta, s: Step, docs: seq<Doc>, f: Filter, update: seq<Group>)
    requires forall d :: StepDoc(meta, s, d) == Some(Touch(d, f, update))
    ensures StepAll(meta, s, docs) == TouchAll(docs, f, update)
  {
    if docs != [] {
      StepIsTouch(meta, s, docs[1..], f, update);
      assert TouchAll(docs, f, update) == [Touch(docs[0], f, update)] + TouchAll(docs[1..], f, update);
    }
  }

  // ---- What the two updates do to one document ----

  function Refreshed(q: Query, d: Doc, now: Value): Doc {
    if q.meta.timestamps && !q.skipTimestamps then d[UPDATED_AT := now] else d
  }

  lemma TwoOps(a: UpdateOp, b: UpdateOp, d: Doc)
    ensures ApplyAll([a], d) == ApplyOp(a, d)
    ensures ApplyAll([a, b], d) == match ApplyOp(a, d) case None => None case Some(e) => ApplyOp(b, e)
  {
    assert [a][..0] == [] && [a, b][..1] == [a];
  }

  lemma StampEffect(q: Query, d: Doc, now: Value)
    ensures ApplyAll(Ungrouped(Grouped(DeleteOps(q, now))), d) == Some(Refreshed(q, d[DELETED_AT := now], now))
    ensures ApplyAll(Ungrouped(Grouped(RestoreOps(q, now))), d) == Some(Refreshed(q, d - {DELETED_AT}, now))
  {
    var stamp, touch := UpdateOp(OpSet, DELETED_AT, now), UpdateOp(OpSet, UPDATED_AT, now);
    var clear := UpdateOp(OpUnset, DELETED_AT, Str(""));
    assert DeleteOps(q, now) == if q.meta.timestamps && !q.skipTimestamps then [stamp, touch] else [stamp];
    assert RestoreOps(q, now) == if q.meta.timestamps && !q.skipTimestamps then [clear, touch] else [clear];
    CompiledMeansStaged(DeleteOps(q, now), d, Ungrouped(Grouped(DeleteOps(q, now))));
    CompiledMeansStaged(RestoreOps(q, now), d, Ungrouped(Grouped(RestoreOps(q, now))));
    TwoOps(stamp, touch, d);
    TwoOps(clear, touch, d);
  }

  // ---- Properties of a step, for every chain ----

  /** The document a step reaches, and what it becomes, for a model with soft
      deletes: Delete stamps what the chain and its mode select, Restore clears the
      stamp on what the chain selects among the trashed whatever mode it carries,
      ForceDelete removes what the chain selects, trashed or not unless the chain
      asked for trashed ones only. Nothing else is removed or changed. */
  lemma StepMeaning(meta: Meta, s: Step, d: Doc)
    requires meta.softDeletes && Refusal(meta, s).None?
    ensures var q, hit := Build(NewQuery(meta), s.calls), FoldHolds(s.calls, d);
            StepDoc(meta, s, d) ==
            match s
            case DeleteStep(_, now) =>
              Some(if hit && Admits(FinalMode(s.calls), d) then Refreshed(q, d[DELETED_AT := now], now) else d)
            case RestoreStep(_, now) =>
              Some(if hit && Trashed(d) then Refreshed(q, d - {DELETED_AT}, now) else d)
            case ForceDeleteStep(_) =>
              if hit && (FinalMode(s.calls) == Only ==> Trashed(d)) then None else Some(d)
  {
    var q := Build(NewQuery(meta), s.calls);
    FragmentsAreFold(meta, s.calls, d);
    match s
    case DeleteStep(_, now) =>
      CompiledUnderMode(meta, s.calls, q.trashed, d);
      StampEffect(q, d, now);
    case RestoreStep(_, now) =>
      CompiledUnderMode(meta, s.calls, Only, d);
      StampEffect(q, d, now);
    case ForceDeleteStep(_) =>
      CompiledUnderMode(meta, s.calls, ForceDeleteMode(q.trashed), d);
  }

  /** Default reads show exactly the untrashed documents the chain selects; a
      document a Delete reached is no longer among them. */
  lemma DefaultReadsHideTrashed(meta: Meta, read: seq<Call>, s: Step, d: Doc)
    requires meta.softDeletes && FinalMode(read) == Excluded
    ensures var q := Build(NewQuery(meta), read);
            && (Matches(CompileFilter(q, q.trashed), d) <==> FoldHolds(read, d) && !Trashed(d))
            && (s.DeleteStep? && s.now != Null && Scalar(s.now) && Refusal(meta, s).None? &&
                FoldHolds(s.calls, d) && Admits(FinalMode(s.calls), d) ==>
                  StepDoc(meta, s, d).Some? && !Matches(CompileFilter(q, q.trashed), StepDoc(meta, s, d).value))
  {
    CompiledFilterIsFold(meta, read, d);
    if s.DeleteStep? && s.now != Null && Scalar(s.now) && Refusal(meta, s).None? &&
       FoldHolds(s.calls, d) && Admits(FinalMode(s.calls), d) {
      StepMeaning(meta, s, d);
      var e := StepDoc(meta, s, d).value;
      StampedIsTrashed(e, s.now);
      CompiledFilterIsFold(meta, read, e);
    }
  }

  lemma StampedIsTrashed(e: Doc, now: Value)
    requires DELETED_AT in e && e[DELETED_AT] == now && now != Null && Scalar(now)
    ensures Trashed(e)
  {
    assert Candidates(e, DELETED_AT) == [now];
  }

  // ---- Runs ----

  function RunAll(meta: Meta, steps: seq<Step>, docs: seq<Doc>): seq<Doc> {
    if steps == [] then docs else RunAll(meta, steps[1..], StepAll(meta, steps[0], docs))
  }

  /** One document's life through a run. */
  function Life(meta: Meta, steps: seq<Step>, d: Doc): Option<Doc> {
    if steps == [] then Some(d)
    else match StepDoc(meta, steps[0], d)
      case None => None
      case Some(e) => Life(meta, steps[1..], e)
  }

  function Lives(meta: Meta, steps: seq<Step>, docs: seq<Doc>): seq<Doc> {
    if docs == [] then []
    else match Life(meta, steps, docs[0])
      case None => Lives(meta, steps, docs[1..])
      case Some(e) => [e] + Lives(meta, steps, docs[1..])
  }

  lemma {:induction false} LivesAfterStep(meta: Meta, steps: seq<Step>, docs: seq<Doc>)
    requires steps != []
    ensures Lives(meta, steps[1..], StepAll(meta, steps[0], docs)) == Lives(meta, steps, docs)
  {
    if docs != [] {
      LivesAfterStep(meta, steps, docs[1..]);
      if StepDoc(meta, steps[0], docs[0]).Some? {
        var e := StepDoc(meta, steps[0], docs[0]).value;
        assert ([e] + StepAll(meta, steps[0], docs[1..]))[1..] == StepAll(meta, steps[0], docs[1..]);
      }
    }
  }

  lemma {:induction false} LivesOfNothing(meta: Meta, docs: seq<Doc>)
    ensures Lives(meta, [], docs) == docs
  {
    if docs != [] { LivesOfNothing(meta, docs[1..]); }
  }

  /** A run of the collection is the documents' lives, in their order. */
  lemma {:induction false} RunIsLives(meta: Meta, steps: seq<Step>, docs: seq<Doc>)
    ensures RunAll(meta, steps, docs) == Lives(meta, steps, docs)
  {
    if steps == [] {
      LivesOfNothing(meta, docs);
    } else {
      RunIsLives(meta, steps[1..], StepAll(meta, steps[0], docs));
      LivesAfterStep(meta, steps, docs);
    }
  }

  predicate RemovedBy(meta: Meta, s: Step, d: Doc) {
    s.ForceDeleteStep? && Refusal(meta, s).None? && FoldHolds(s.calls, d) && (FinalMode(s.calls) == Only ==> Trashed(d))
  }

  /** Over any run on a soft-delete model a document either survives under its own
      _id with every field but deleted_at and updated_at untouched, or some
      ForceDelete in the run selected the version it found. */
  lemma {:induction false} OnlyForceDeleteRemoves(meta: Meta, steps: seq<Step>, d: Doc)
    requires meta.softDeletes
    ensures Life(meta, steps, d).Some? ==>
              forall k :: k != DELETED_AT && k != UPDATED_AT ==> Get(Life(meta, steps, d).value, k) == Get(d, k)
    ensures Life(meta, steps, d).None? ==>
              exists n, e :: 0 <= n < |steps| && Life(meta, steps[..n], d) == Some(e) && RemovedBy(meta, steps[n], e)
  {
    if steps != [] {
      StepKeepsFields(meta, steps[0], d);
      var next := StepDoc(meta, steps[0], d);
      if next.None? {
        assert Life(meta, steps[..0], d) == Some(d) && RemovedBy(meta, steps[0], d);
      } else {
        assert Life(meta, steps, d) == Life(meta, steps[1..], next.value);
        OnlyForceDeleteRemoves(meta, steps[1..], next.value);
        if Life(meta, steps, d).None? {
          var n, e :| 0 <= n < |steps[1..]| && Life(meta, steps[1..][..n], next.value) == Some(e) &&
              RemovedBy(meta, steps[1..][n], e);
          LifePrefix(meta, steps, d, next.value, n);
        }
      }
    }
  }

  lemma StepKeepsFields(meta: Meta, s: Step, d: Doc)
    requires meta.softDeletes
    ensures StepDoc(meta, s, d).None? ==> RemovedBy(meta, s, d)
    ensures StepDoc(meta, s, d).Some? ==>
              forall k :: k != DELETED_AT && k != UPDATED_AT ==> Get(StepDoc(meta, s, d).value, k) == Get(d, k)
  {
    if Refusal(meta, s).None? { StepMeaning(meta, s, d); }
  }

  lemma LifePrefix(meta: Meta, steps: seq<Step>, d: Doc, next: Doc, n: nat)
    requires n < |steps| && StepDoc(meta, steps[0], d) == Some(next)
    ensures Life(meta, steps[..n + 1], d) == Life(meta, steps[1..][..n], next)
  {
    var prefix := steps[..n + 1];
    assert prefix[0] == steps[0] && prefix[1..] == steps[1..][..n];
  }

  // ---- Delete, then Restore ----

  /** No condition in the chain reads this field. */
  predicate ChainIgnores(calls: seq<Call>, field: string) {
    forall c | c in calls :: Ignores(c, field)
  }

  predicate Ignores(c: Call, field: string) {
    match c
    case WhereRaw(Some(f)) => !Mentions(f, field)
    case Where(f, _) => f != field
    case OrWhere(f, _) => f != field
    case WhereIn(f, _) => f != field
    case WhereNotIn(f, _) => f != field
    case WhereNull(f) => f != field
    case WhereNotNull(f) => f != field
    case WhereBetween(f, _, _) => f != field
    case WhereNotBetween(f, _, _) => f != field
    case _ => true
  }

  ghost predicate SameBut(d: Doc, e: Doc, fields: set<string>) {
    forall k :: k !in fields ==> Get(d, k) == Get(e, k)
  }

  lemma {:induction false} FoldIgnores(calls: seq<Call>, fields: set<string>, d: Doc, e: Doc)
    requires forall k | k in fields :: ChainIgnores(calls, k)
    requires SameBut(d, e, fields)
    ensures Fold(calls, d) == Fold(calls, e)
    decreases |calls|
  {
    if calls != [] {
      var prefix, c := calls[..|calls| - 1], calls[|calls| - 1];
      assert forall x :: x in prefix ==> x in calls;
      FoldIgnores(prefix, fields, d, e);
      assert c in calls;
      TestIgnores(c, fields, d, e);
    }
  }

  lemma TestIgnores(c: Call, fields: set<string>, d: Doc, e: Doc)
    requires forall k | k in fields :: Ignores(c, k)
    requires SameBut(d, e, fields)
    ensures CallTest(c, d) == CallTest(c, e)
  {
    forall k | k !in fields ensures Candidates(d, k) == Candidates(e, k) {
      assert Get(d, k) == Get(e, k);
    }
    if c.WhereRaw? && c.raw.Some? {
      forall k | Mentions(c.raw.value, k) ensures (k in d <==> k in e) && (k in d ==> d[k] == e[k]) {
        assert Get(d, k) == Get(e, k);
      }
      MatchesReadsMentioned(c.raw.value, d, e);
    }
  }

  lemma TwoSteps(meta: Meta, a: Step, b: Step, d: Doc)
    ensures Life(meta, [a, b], d) == match StepDoc(meta, a, d) case None => None case Some(e) => StepDoc(meta, b, e)
  {
    assert [a, b][1..] == [b] && [b][1..] == [];
    if StepDoc(meta, a, d).Some? {
      var e := StepDoc(meta, a, d).value;
      assert Life(meta, [b], e) == StepDoc(meta, b, e);
    }
  }

  lemma RefreshTwice(q: Query, d: Doc, t: Value, u: Value)
    ensures Refreshed(q, Refreshed(q, d[DELETED_AT := t], t) - {DELETED_AT}, u) == Refreshed(q, d - {DELETED_AT}, u)
  {
  }

  /** Delete then Restore with one chain: a document the Delete stamped comes back,
      with no deleted_at, if and only if the stamped document still satisfies the
      chain's conditions; otherwise it stays trashed as it was. */
  lemma DeleteThenRestore(meta: Meta, calls: seq<Call>, d: Doc, t: Value, u: Value)
    requires meta.softDeletes && Refusal(meta, DeleteStep(calls, t)).None?
    requires t != Null && Scalar(t) && FoldHolds(calls, d) && Admits(FinalMode(calls), d)
    ensures var q := Build(NewQuery(meta), calls);
            var stamped := Refreshed(q, d[DELETED_AT := t], t);
            && Life(meta, [DeleteStep(calls, t), RestoreStep(calls, u)], d) ==
               Some(if FoldHolds(calls, stamped) then Refreshed(q, d - {DELETED_AT}, u) else stamped)
            && Trashed(stamped)
  {
    var q := Build(NewQuery(meta), calls);
    var stamped := Refreshed(q, d[DELETED_AT := t], t);
    StampedIsTrashed(stamped, t);
    StepMeaning(meta, DeleteStep(calls, t), d);
    StepMeaning(meta, RestoreStep(calls, u), stamped);
    TwoSteps(meta, DeleteStep(calls, t), RestoreStep(calls, u), d);
    RefreshTwice(q, d, t, u);
  }

  /** A chain that reads neither deleted_at nor updated_at always restores what it
      deleted, every other field as it was. */
  lemma RestoreUndoesDelete(meta: Meta, calls: seq<Call>, d: Doc, t: Value, u: Value)
    requires meta.softDeletes && Refusal(meta, DeleteStep(calls, t)).None?
    requires t != Null && Scalar(t) && FoldHolds(calls, d) && Admits(FinalMode(calls), d)
    requires ChainIgnores(calls, DELETED_AT) && ChainIgnores(calls, UPDATED_AT)
    ensures var back := Life(meta, [DeleteStep(calls, t), RestoreStep(calls, u)], d);
            back.Some? && DELETED_AT !in back.value && SameBut(d, back.value, {DELETED_AT, UPDATED_AT})
  {
    var q := Build(NewQuery(meta), calls);
    DeleteThenRestore(meta, calls, d, t, u);
    var stamped := Refreshed(q, d[DELETED_AT := t], t);
    FoldIgnores(calls, {DELETED_AT, UPDATED_AT}, d, stamped);
  }

  /** And one that reads updated_at may not: Delete refreshes the field, so the same
      chain no longer finds the document. */
  lemma RestoreCanMiss()
    ensures var meta := Meta(true, true, true);
            var calls := [Where(UPDATED_AT, [OperatorArg("<"), ValueArg(Date(10))])];
            var d := map[ID := Oid(1), UPDATED_AT := Date(5)];
            && FoldHolds(calls, d) && !Trashed(d)
            && var r := Life(meta, [DeleteStep(calls, Date(20)), RestoreStep(calls, Date(30))], d);
               r.Some? && Trashed(r.value)
  {
    var meta := Meta(true, true, true);
    var c := Where(UPDATED_AT, [OperatorArg("<"), ValueArg(Date(10))]);
    var calls: seq<Call> := [c];
    var d: Doc := map[ID := Oid(1), UPDATED_AT := Date(5)];
    assert calls[..0] == [] && calls[0] == c;
    assert Build(NewQuery(meta), calls[..0]) == NewQuery(meta);
    assert Fold(calls[..0], d) == None && FinalMode(calls[..0]) == Excluded;
    assert Candidates(d, UPDATED_AT)[0] == Date(5) && Candidates(d, DELETED_AT)[0] == Null;
    assert CallTest(c, d) == Some(true);
    var q := Build(NewQuery(meta), calls);
    assert q == Apply(NewQuery(meta), c);
    var stamped := Refreshed(q, d[DELETED_AT := Date(20)], Date(20));
    assert Candidates(stamped, UPDATED_AT) == [Date(20)];
    assert CallTest(c, stamped) == Some(false);
    DeleteThenRestore(meta, calls, d, Date(20), Date(30));
  }
}
