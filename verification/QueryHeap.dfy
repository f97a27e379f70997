/** The query builder as the source keeps it: objects sharing slices on one heap.
    No builder method has a modifies clause, so none can change an object or array
    that existed before the call; each returns a new object whose view is the
    value-level builder's result. */
module QueryHeap {
  import opened Bson
  import opened Filter
  import opened Queries
  import opened Slices
  import Cursor
  import Update

  class QueryObject {
    var meta: Meta
    var filters: Slice<Filter>
    var sorts: Slice<SortField>
    var limit: Option<int>
    var skip: Option<int>
    var projection: Slice<Projected>
    var projectionMode: ProjectionMode
    var updates: Slice<UpdateOp>
    var with: Slice<string>
    var trashed: TrashedMode
    var skipTimestamps: bool
    var err: Option<Error>

    ghost predicate Valid()
      reads this
    {
      filters.Valid() && sorts.Valid() && projection.Valid() && updates.Valid() && with.Valid()
    }

    ghost function Arrays(): set<object>
      reads this
    {
      {filters.arr as object, sorts.arr, projection.arr, updates.arr, with.arr}
    }

    /** Everything a caller can observe of the query. */
    ghost function View(): Query
      requires Valid()
      reads this, Arrays()
    {
      Query.Query(meta, filters.Contents(), sorts.Contents(), limit, skip, projection.Contents(), projectionMode,
                  updates.Contents(), with.Contents(), trashed, skipTimestamps, err)
    }

    constructor (meta: Meta)
      ensures Valid() && View() == NewQuery(meta)
    {
      this.meta := meta;
      var noFilters := Make<Filter>(0);
      var noSorts := Make<SortField>(0);
      var noProjection := Make<Projected>(0);
      var noUpdates := Make<UpdateOp>(0);
      var noRelations := Make<string>(0);
      filters, sorts, projection, updates, with := noFilters, noSorts, noProjection, noUpdates, noRelations;
      limit, skip, projectionMode, trashed, skipTimestamps, err := None, None, NoProjection, Excluded, false, None;
    }

    /** next := *q: the copy shares every backing array. */
    constructor CopyOf(q: QueryObject)
      requires q.Valid()
      ensures Valid() && View() == q.View()
      ensures Arrays() == q.Arrays()
    {
      meta, filters, sorts, limit, skip := q.meta, q.filters, q.sorts, q.limit, q.skip;
      projection, projectionMode, updates, with := q.projection, q.projectionMode, q.updates, q.with;
      trashed, skipTimestamps, err := q.trashed, q.skipTimestamps, q.err;
    }

    method Copy() returns (next: QueryObject)
      requires Valid()
      ensures fresh(next) && next.Valid() && next.View() == View()
    {
      next := new QueryObject.CopyOf(this);
    }

    method WithFilter(fragment: Filter) returns (next: QueryObject)
      requires Valid()
      ensures fresh(next) && next.Valid() && next.View() == Queries.WithFilter(View(), fragment)
    {
      next := new QueryObject.CopyOf(this);
      next.filters := CloneAppend(filters, [fragment]);
    }

    method WithError(e: Error) returns (next: QueryObject)
      requires Valid()
      ensures fresh(next) && next.Valid() && next.View() == Queries.WithError(View(), e)
    {
      next := new QueryObject.CopyOf(this);
      if next.err.None? { next.err := Some(e); }
    }

    method WhereFragment(fragment: Result<Filter>) returns (next: QueryObject)
      requires Valid()
      ensures fresh(next) && next.Valid() && next.View() == ApplyWhere(View(), fragment)
    {
      match fragment
      case Err(e) => next := WithError(e);
      case Ok(f) => next := WithFilter(f);
    }

    method OrWhereFragment(fragment: Result<Filter>) returns (next: QueryObject)
      requires Valid()
      ensures fresh(next) && next.Valid() && next.View() == ApplyOrWhere(View(), fragment)
    {
      if fragment.Err? {
        next := WithError(fragment.error);
      } else if filters.len == 0 {
        next := WithFilter(fragment.value);
      } else {
        next := Copy();
        var none := Make<Filter>(0);
        next.filters := CloneAppend(none, [Or([BuildFilter(filters.Contents()), fragment.value])]);
      }
    }

    /** Scans for the field, then extends the projection; no object on a contradiction. */
    method WithProjection(field: string, value: int, mode: ProjectionMode) returns (next: QueryObject?)
      requires Valid()
      ensures next != null ==> fresh(next) && next.Valid()
      ensures next == null ==> Queries.WithProjection(View(), field, value, mode) == Err(InvalidQuery("projection"))
      ensures next != null ==> Ok(next.View()) == Queries.WithProjection(View(), field, value, mode)
    {
      ghost var ps := projection.Contents();
      next := Copy();
      next.projectionMode := mode;
      for i := 0 to projection.len
        invariant next.Valid() && next.View() == View().(projectionMode := mode)
        invariant Projection(ps, field) == Projection(ps[i..], field)
      {
        assert ps[i] == projection.arr[i] && ps[i..][1..] == ps[i + 1..];
        if projection.arr[i].key == field {
          if projection.arr[i].value != value { next := null; }
          return;
        }
      }
      next.projection := CloneAppend(projection, [Projected(field, value)]);
    }

    /** One turn of Select's loop. */
    method SelectField(field: string) returns (r: Result<QueryObject>)
      requires Valid()
      ensures r.Err? ==> SelectOne(View(), field) == Err(r.error)
      ensures r.Ok? ==> fresh(r.value) && r.value.Valid() && SelectOne(View(), field) == Ok(r.value.View())
    {
      if projectionMode == Exclusion {
        return Err(InvalidQuery("Select"));
      }
      var projected := WithProjection(field, 1, Inclusion);
      if projected == null {
        return Err(InvalidQuery("projection"));
      }
      return Ok(projected);
    }

    /** One turn of Exclude's loop. */
    method ExcludeField(field: string) returns (r: Result<QueryObject>)
      requires Valid()
      ensures r.Err? ==> ExcludeOne(View(), field) == Err(r.error)
      ensures r.Ok? ==> fresh(r.value) && r.value.Valid() && ExcludeOne(View(), field) == Ok(r.value.View())
    {
      var mode := projectionMode;
      if field != ID {
        if mode == Inclusion {
          return Err(InvalidQuery("Exclude"));
        }
        mode := Exclusion;
      }
      var projected := WithProjection(field, 0, mode);
      if projected == null {
        return Err(InvalidQuery("projection"));
      }
      return Ok(projected);
    }

    method SelectFields(fields: seq<string>) returns (next: QueryObject)
      requires Valid()
      ensures next.Valid() && next.View() == Queries.ApplySetting(View(), Select(fields))
    {
      if fields == [] {
        next := WithError(InvalidQuery("Select"));
        return;
      }
      next := this;
      var i := 0;
      while i < |fields|
        invariant 0 <= i <= |fields|
        invariant next.Valid() && Ok(next.View()) == SelectAll(View(), fields[..i])
      {
        SelectTurn(View(), fields, i);
        var projected := next.SelectField(fields[i]);
        if projected.Err? {
          SelectStuck(View(), fields, i + 1);
          next := WithError(projected.error);
          return;
        }
        next := projected.value;
        i := i + 1;
      }
      assert fields[..i] == fields;
    }

    method ExcludeFields(fields: seq<string>) returns (next: QueryObject)
      requires Valid()
      ensures next.Valid() && next.View() == Queries.ApplySetting(View(), Exclude(fields))
    {
      if fields == [] {
        next := WithError(InvalidQuery("Exclude"));
        return;
      }
      next := this;
      var i := 0;
      while i < |fields|
        invariant 0 <= i <= |fields|
        invariant next.Valid() && Ok(next.View()) == ExcludeAll(View(), fields[..i])
      {
        ExcludeTurn(View(), fields, i);
        var projected := next.ExcludeField(fields[i]);
        if projected.Err? {
          ExcludeStuck(View(), fields, i + 1);
          next := WithError(projected.error);
          return;
        }
        next := projected.value;
        i := i + 1;
      }
      assert fields[..i] == fields;
    }

    method OrderBy(field: string, direction: int) returns (next: QueryObject)
      requires Valid()
      ensures fresh(next) && next.Valid() && next.View() == ApplyOrderBy(View(), field, direction)
    {
      if direction != 1 && direction != -1 {
        next := WithError(InvalidQuery("OrderBy"));
      } else {
        next := new QueryObject.CopyOf(this);
        next.sorts := CloneAppend(sorts, [SortField(field, GoInt(direction))]);
      }
    }

    method OrderByEach(direction: int, fields: seq<string>) returns (next: QueryObject)
      requires Valid()
      ensures next.Valid()
      ensures next.View() == Queries.OrderByEach(View(), direction, if fields == [] then [CREATED_AT] else fields)
    {
      if fields == [] {
        next := OrderBy(CREATED_AT, direction);
        assert Queries.OrderByEach(View(), direction, [CREATED_AT][..0]) == View();
        return;
      }
      next := this;
      for i := 0 to |fields|
        invariant next.Valid() && next.View() == Queries.OrderByEach(View(), direction, fields[..i])
      {
        assert fields[..i + 1][..i] == fields[..i] && fields[..i + 1][i] == fields[i];
        next := next.OrderBy(fields[i], direction);
      }
      assert fields[..|fields|] == fields;
    }

    /** The scan withUpdate makes of the operations staged so far. */
    method AlreadyStages(field: string) returns (found: bool)
      requires Valid()
      ensures found <==> Stages(View().updates, field)
    {
      ghost var ops := View().updates;
      for i := 0 to updates.len
        invariant forall k :: 0 <= k < i ==> updates.arr[k].field != field
      {
        if updates.arr[i].field == field {
          assert ops[i] in ops;
          return true;
        }
      }
      return false;
    }

    method WithUpdate(operator: UpdateOperator, field: string, value: Value) returns (next: QueryObject)
      requires Valid()
      ensures fresh(next) && next.Valid() && next.View() == Queries.WithUpdate(View(), operator, field, value)
    {
      var staged := AlreadyStages(field);
      if staged {
        next := WithError(InvalidQuery(UpdateCall(operator)));
        return;
      }
      next := StageOp(UpdateOp(operator, field, value));
    }

    method StageOp(op: UpdateOp) returns (next: QueryObject)
      requires Valid()
      ensures fresh(next) && next.Valid() && next.View() == View().(updates := View().updates + [op])
    {
      next := new QueryObject.CopyOf(this);
      next.updates := CloneAppend(updates, [op]);
    }

    /** With's check of each relation. */
    static method AreGood(relations: seq<RelationArg>) returns (good: bool)
      ensures good <==> AllGood(relations)
    {
      for i := 0 to |relations|
        invariant forall k :: 0 <= k < i ==> relations[k].GoodRelation?
      {
        if !relations[i].GoodRelation? {
          return false;
        }
      }
      return true;
    }

    method WithRelations(relations: seq<RelationArg>) returns (next: QueryObject)
      requires Valid()
      ensures fresh(next) && next.Valid() && next.View() == Queries.ApplySetting(View(), With(relations))
    {
      var good := AreGood(relations);
      if !good {
        next := WithError(InvalidQuery("With"));
        return;
      }
      next := WithNames(Names(relations));
    }

    method WithNames(names: seq<string>) returns (next: QueryObject)
      requires Valid()
      ensures fresh(next) && next.Valid() && next.View() == View().(with := View().with + names)
    {
      next := new QueryObject.CopyOf(this);
      next.with := CloneAppend(with, names);
    }

    method WithTrashedMode(call: string, mode: TrashedMode) returns (next: QueryObject)
      requires Valid()
      ensures fresh(next) && next.Valid() && next.View() == Queries.WithTrashedMode(View(), call, mode)
    {
      if !meta.softDeletes {
        next := WithError(InvalidQuery(call));
      } else {
        next := new QueryObject.CopyOf(this);
        next.trashed := mode;
      }
    }

    method LimitTo(n: int) returns (next: QueryObject)
      requires Valid()
      ensures next.Valid() && next.View() == ApplySetting(View(), Limit(n))
    {
      if n < 0 {
        next := WithError(InvalidQuery("Limit"));
      } else {
        next := Copy();
        next.limit := Some(n);
      }
    }

    method SkipFirst(n: int) returns (next: QueryObject)
      requires Valid()
      ensures next.Valid() && next.View() == ApplySetting(View(), Skip(n))
    {
      if n < 0 {
        next := WithError(InvalidQuery("Skip"));
      } else {
        next := Copy();
        next.skip := Some(n);
      }
    }

    method WithoutTimestamps() returns (next: QueryObject)
      requires Valid()
      ensures next.Valid() && next.View() == ApplySetting(View(), Call.WithoutTimestamps)
    {
      next := Copy();
      next.skipTimestamps := true;
    }

    // ---- What the terminals extend, on slices the query still shares ----

    /** compileFilter */
    method CompiledFilter(mode: TrashedMode) returns (f: Filter)
      requires Valid()
      ensures f == CompileFilter(View(), mode)
    {
      if !meta.softDeletes {
        return BuildFilter(filters.Contents());
      }
      var scope := SoftDeleteFilter(mode);
      if scope.None? {
        return BuildFilter(filters.Contents());
      }
      var fragments := CloneAppend(filters, [scope.value]);
      return BuildFilter(fragments.Contents());
    }

    /** paginationSorts: the query's own slice when it already sorts on _id. */
    method PaginationSorts() returns (r: Slice<SortField>)
      requires Valid()
      ensures r.Valid() && r.Contents() == Cursor.PageSorts(View().sorts)
    {
      ghost var all := sorts.Contents();
      for i := 0 to sorts.len
        invariant forall k :: 0 <= k < i ==> all[k].key != ID
      {
        if sorts.arr[i].key == ID {
          assert all[i] in all;
          return sorts;
        }
      }
      var direction := 1;
      if sorts.len > 0 {
        direction := Cursor.SortDirection(sorts.arr[sorts.len - 1].value);
      }
      r := CloneAppend(sorts, [SortField(ID, GoInt(direction))]);
    }

    /** timestampedOps: the query's own slice when no stamp is due. */
    method TimestampedOps(now: Value) returns (r: Slice<UpdateOp>)
      requires Valid()
      ensures r.Valid() && r.Contents() == Update.TimestampedOps(View(), View().updates, now)
    {
      if !meta.timestamps || skipTimestamps {
        return updates;
      }
      var staged := AlreadyStages(UPDATED_AT);
      if staged {
        return updates;
      }
      r := CloneAppend(updates, [UpdateOp(OpSet, UPDATED_AT, now)]);
    }

    method Send(now: Value) returns (sent: Sent)
      requires Valid()
      ensures sent == Sending(View(), now)
    {
      var filter := CompiledFilter(trashed);
      var pageSorts := PaginationSorts();
      var ops := TimestampedOps(now);
      sent := Sent(filter, pageSorts.Contents(), ops.Contents());
    }

    /** The calls that add no condition. */
    method Setting(c: Call) returns (next: QueryObject)
      requires Valid() && Fragment(c).None?
      ensures next.Valid() && next.View() == ApplySetting(View(), c)
    {
      match c {
        case Select(fields) => next := SelectFields(fields);
        case Exclude(fields) => next := ExcludeFields(fields);
        case OrderBy(field, direction) => next := OrderBy(field, direction);
        case Latest(fields) => next := OrderByEach(-1, fields);
        case Oldest(fields) => next := OrderByEach(1, fields);
        case _ => next := ScalarSetting(c);
      }
    }

    /** The calls that set one thing. */
    method ScalarSetting(c: Call) returns (next: QueryObject)
      requires Valid() && Fragment(c).None?
      requires !c.Select? && !c.Exclude? && !c.OrderBy? && !c.Latest? && !c.Oldest?
      ensures next.Valid() && next.View() == ApplySetting(View(), c)
    {
      match c {
        case Limit(n) => next := LimitTo(n);
        case Skip(n) => next := SkipFirst(n);
        case Stage(operator, field, value) => next := WithUpdate(operator, field, value);
        case With(relations) => next := WithRelations(relations);
        case WithTrashed => next := WithTrashedMode("WithTrashed", Included);
        case OnlyTrashed => next := WithTrashedMode("OnlyTrashed", Only);
        case WithoutTimestamps => next := WithoutTimestamps();
      }
    }

    /** Any builder call. */
    method Apply(c: Call) returns (next: QueryObject)
      requires Valid()
      ensures next.Valid() && next.View() == Queries.Apply(View(), c)
    {
      match Fragment(c) {
        case None => next := Setting(c);
        case Some(r) =>
          if c.OrWhere? {
            next := OrWhereFragment(r);
          } else {
            next := WhereFragment(r);
          }
      }
    }
  }

  lemma SelectTurn(q: Query, fields: seq<string>, i: nat)
    requires i < |fields| && SelectAll(q, fields[..i]).Ok?
    ensures SelectAll(q, fields[..i + 1]) == SelectOne(SelectAll(q, fields[..i]).value, fields[i])
  {
    assert fields[..i + 1][..i] == fields[..i] && fields[..i + 1][i] == fields[i];
  }

  lemma ExcludeTurn(q: Query, fields: seq<string>, i: nat)
    requires i < |fields| && ExcludeAll(q, fields[..i]).Ok?
    ensures ExcludeAll(q, fields[..i + 1]) == ExcludeOne(ExcludeAll(q, fields[..i]).value, fields[i])
  {
    assert fields[..i + 1][..i] == fields[..i] && fields[..i + 1][i] == fields[i];
  }

  /** Once a prefix of the fields is refused, the whole call is. */
  lemma {:induction false} SelectStuck(q: Query, fields: seq<string>, k: nat)
    requires k <= |fields| && SelectAll(q, fields[..k]).Err?
    ensures SelectAll(q, fields) == SelectAll(q, fields[..k])
    decreases |fields|
  {
    if k < |fields| {
      var shorter := fields[..|fields| - 1];
      assert shorter[..k] == fields[..k];
      SelectStuck(q, shorter, k);
    } else {
      assert fields[..k] == fields;
    }
  }

  lemma {:induction false} ExcludeStuck(q: Query, fields: seq<string>, k: nat)
    requires k <= |fields| && ExcludeAll(q, fields[..k]).Err?
    ensures ExcludeAll(q, fields) == ExcludeAll(q, fields[..k])
    decreases |fields|
  {
    if k < |fields| {
      var shorter := fields[..|fields| - 1];
      assert shorter[..k] == fields[..k];
      ExcludeStuck(q, shorter, k);
    } else {
      assert fields[..k] == fields;
    }
  }

  /** One step of a branching program: apply a call to some query built so far. */
  datatype Branch = Branch(from: nat, call: Call)

  predicate GoodScript(start: nat, script: seq<Branch>) {
    forall k :: 0 <= k < |script| ==> script[k].from < start + k
  }

  /** The same program on values, where branches cannot interfere by definition. */
  function BranchValues(views: seq<Query>, script: seq<Branch>): (out: seq<Query>)
    requires GoodScript(|views|, script)
    ensures |out| == |views| + |script|
    decreases |script|
  {
    if script == [] then views
    else
      var n := |script| - 1;
      var before := BranchValues(views, script[..n]);
      before + [Apply(before[script[n].from], script[n].call)]
  }

  lemma BranchStep(views: seq<Query>, script: seq<Branch>, k: nat)
    requires GoodScript(|views|, script) && k < |script|
    ensures GoodScript(|views|, script[..k]) && GoodScript(|views|, script[..k + 1])
    ensures var values := BranchValues(views, script[..k]);
            BranchValues(views, script[..k + 1]) == values + [Queries.Apply(values[script[k].from], script[k].call)]
  {
    assert script[..k + 1][..k] == script[..k] && script[..k + 1][k] == script[k];
  }

  /** Any tree of queries branched from one another by any calls: every query that
      already existed still reads as before, and every new one reads as if the
      calls had been made on values that share nothing. */
  method RunBranches(pool: seq<QueryObject>, script: seq<Branch>, ghost views: seq<Query>)
        returns (out: seq<QueryObject>)
    requires |views| == |pool| && forall i :: 0 <= i < |pool| ==> pool[i].Valid() && pool[i].View() == views[i]
    requires GoodScript(|pool|, script)
    ensures |out| == |pool| + |script| && out[..|pool|] == pool
    ensures forall i :: 0 <= i < |pool| ==> pool[i].Valid() && pool[i].View() == views[i]
    ensures forall i :: 0 <= i < |out| ==> out[i].Valid() && out[i].View() == BranchValues(views, script)[i]
  {
    out := pool;
    for k := 0 to |script|
      invariant |out| == |pool| + k && out[..|pool|] == pool
      invariant forall i :: 0 <= i < |out| ==> out[i].Valid() && out[i].View() == BranchValues(views, script[..k])[i]
    {
      BranchStep(views, script, k);
      ghost var values := BranchValues(views, script[..k]);
      var from := script[k].from;
      assert out[from].View() == values[from];
      var next := out[from].Apply(script[k].call);
      assert next.View() == Queries.Apply(values[from], script[k].call);
      out := out + [next];
    }
    assert script[..|script|] == script;
  }

  /** What sending a query compiles: its filter, its page sorts, its update operations. */
  datatype Sent = Sent(filter: Filter, sorts: seq<SortField>, ops: seq<UpdateOp>)

  function Sending(q: Query, now: Value): Sent {
    Sent(CompileFilter(q, q.trashed), Cursor.PageSorts(q.sorts), Update.TimestampedOps(q, q.updates, now))
  }

  /** Sending every query of a pool, whatever they share: each is sent as if it shared
      nothing, and each reads as before when all have been sent. */
  method SendAll(pool: seq<QueryObject>, now: Value, ghost views: seq<Query>) returns (sent: seq<Sent>)
    requires |views| == |pool| && forall i :: 0 <= i < |pool| ==> pool[i].Valid() && pool[i].View() == views[i]
    ensures forall i :: 0 <= i < |pool| ==> pool[i].Valid() && pool[i].View() == views[i]
    ensures |sent| == |pool| && forall i :: 0 <= i < |pool| ==> sent[i] == Sending(views[i], now)
  {
    sent := [];
    for k := 0 to |pool|
      invariant |sent| == k && forall i :: 0 <= i < k ==> sent[i] == Sending(views[i], now)
    {
      var one := pool[k].Send(now);
      sent := sent + [one];
    }
  }
}
