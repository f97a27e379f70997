/** What a chain of builder calls is, said of the calls themselves: the first call that
    is no valid one and the error it leaves, and what the others contribute
    (odm/query.go, odm/update.go, odm/soft_delete.go, odm/relation.go). */
module Chains {
  import opened Bson
  import opened Filter
  import opened Queries

  // ---- Which calls are at fault ----

  /** The fields the valid Select and Exclude calls have named so far. */
  datatype Named = Named(selected: set<string>, excluded: set<string>)

  predicate IsOperator(a: Arg) {
    match a
    case OperatorArg(op) => op in {"=", "==", "!=", ">", ">=", "<", "<="}
    case ValueArg(v) => v.Str? && v.s in {"=", "==", "!=", ">", ">=", "<", "<="}
  }

  predicate GoodArgs(args: seq<Arg>) {
    |args| == 1 || (|args| == 2 && IsOperator(args[0]))
  }

  /** Select needs a field, no exclusion but _id's before it, and not to contradict that one. */
  function SelectFault(n: Named, fields: seq<string>): Option<string> {
    if fields == [] || n.excluded - {"_id"} != {} then Some("Select")
    else if "_id" in fields && "_id" in n.excluded then Some("projection")
    else None
  }

  /** Exclude needs a field; beside an inclusion only _id may go, unless it was
      selected. The first field at fault gives the error. */
  function ExcludeFault(n: Named, fields: seq<string>): Option<string> {
    if fields == [] then Some("Exclude") else ExcludedFault(n, fields)
  }

  function ExcludedFault(n: Named, fields: seq<string>): Option<string> {
    if fields == [] then None
    else if fields[0] != "_id" && n.selected != {} then Some("Exclude")
    else if fields[0] == "_id" && "_id" in n.selected then Some("projection")
    else ExcludedFault(n, fields[1..])
  }

  function StageName(operator: UpdateOperator): string {
    match operator
    case OpSet => "Set"
    case OpUnset => "Unset"
    case OpInc => "Inc"
    case OpPush => "Push"
    case OpPull => "Pull"
    case OpAddToSet => "AddToSet"
  }

  predicate StagedBefore(earlier: seq<Call>, field: string) {
    exists i :: 0 <= i < |earlier| && earlier[i].Stage? && earlier[i].field == field
  }

  /** The name under which a call is at fault after these earlier ones; none for a valid call. */
  function Fault(meta: Meta, earlier: seq<Call>, c: Call): Option<string>
    decreases |earlier|, 1
  {
    match c
    case Where(_, args) => if GoodArgs(args) then None else Some("Where")
    case OrWhere(_, args) => if GoodArgs(args) then None else Some("OrWhere")
    case WhereIn(_, values) => if values.Some? then None else Some("WhereIn")
    case WhereNotIn(_, values) => if values.Some? then None else Some("WhereNotIn")
    case WhereRaw(raw) => if raw.Some? then None else Some("WhereRaw")
    case OrderBy(_, direction) => if direction in {1, -1} then None else Some("OrderBy")
    case Limit(n) => if n >= 0 then None else Some("Limit")
    case Skip(n) => if n >= 0 then None else Some("Skip")
    case Stage(operator, field, _) => if StagedBefore(earlier, field) then Some(StageName(operator)) else None
    case With(relations) => if forall r | r in relations :: r.GoodRelation? then None else Some("With")
    case WithTrashed => if meta.softDeletes then None else Some("WithTrashed")
    case OnlyTrashed => if meta.softDeletes then None else Some("OnlyTrashed")
    case Select(fields) => SelectFault(NamedBy(meta, earlier), fields)
    case Exclude(fields) => ExcludeFault(NamedBy(meta, earlier), fields)
    case _ => None
  }

  function FieldSet(fields: seq<string>): set<string> {
    set f | f in fields
  }

  function NamedBy(meta: Meta, calls: seq<Call>): Named
    decreases |calls|, 2
  {
    if calls == [] then Named({}, {})
    else
      var earlier, c := calls[..|calls| - 1], calls[|calls| - 1];
      var n := NamedBy(meta, earlier);
      if c.Select? && SelectFault(n, c.fields).None? then n.(selected := n.selected + FieldSet(c.fields))
      else if c.Exclude? && ExcludeFault(n, c.fields).None? then n.(excluded := n.excluded + FieldSet(c.fields))
      else n
  }

  /** The first fault of a chain. */
  function FirstFault(meta: Meta, calls: seq<Call>): Option<string>
    decreases |calls|, 2
  {
    if calls == [] then None
    else
      var earlier := calls[..|calls| - 1];
      var before := FirstFault(meta, earlier);
      if before.Some? then before else Fault(meta, earlier, calls[|calls| - 1])
  }

  // ---- The query's projection, in those terms ----

  /** The projection document says 1 for the selected fields, 0 for the excluded ones
      and nothing of any other. */
  ghost predicate Projects(q: Query, n: Named) {
    && (forall f :: Projection(q.projection, f) ==
          if f in n.selected then Some(1) else if f in n.excluded then Some(0) else None)
    && n.selected * n.excluded == {}
    && (q.projectionMode == Inclusion <==> n.selected != {})
    && (q.projectionMode == Exclusion <==> n.excluded - {"_id"} != {})
  }

  lemma {:induction false} ProjectionAppend(ps: seq<Projected>, p: Projected, f: string)
    ensures Projection(ps + [p], f) ==
            if Projection(ps, f).Some? then Projection(ps, f) else if p.key == f then Some(p.value) else None
  {
    if ps == [] {
      assert ps + [p] == [p] && [p][1..] == [];
    } else {
      assert (ps + [p])[1..] == ps[1..] + [p];
      ProjectionAppend(ps[1..], p, f);
    }
  }

  lemma SelectTurn(q: Query, n: Named, f: string)
    requires Projects(q, n)
    ensures var r := SelectOne(q, f);
            if n.excluded - {"_id"} != {} then r == Err(InvalidQuery("Select"))
            else if f in n.excluded then r == Err(InvalidQuery("projection"))
            else r.Ok? && Projects(r.value, n.(selected := n.selected + {f}))
  {
    forall g { ProjectionAppend(q.projection, Projected(f, 1), g); }
    if f in n.excluded && f != "_id" { assert f in n.excluded - {"_id"}; }
  }

  lemma ExcludeTurn(q: Query, n: Named, f: string)
    requires Projects(q, n)
    ensures var r := ExcludeOne(q, f);
            if f != "_id" && n.selected != {} then r == Err(InvalidQuery("Exclude"))
            else if f in n.selected then r == Err(InvalidQuery("projection"))
            else r.Ok? && Projects(r.value, n.(excluded := n.excluded + {f}))
  {
    forall g { ProjectionAppend(q.projection, Projected(f, 0), g); }
    var m := n.(excluded := n.excluded + {f});
    if f == "_id" {
      assert m.excluded - {"_id"} == n.excluded - {"_id"};
    } else {
      assert f in m.excluded - {"_id"};
    }
  }

  lemma {:induction false} SelectTurns(q: Query, n: Named, fields: seq<string>)
    requires Projects(q, n) && fields != []
    ensures var r := SelectAll(q, fields);
            match SelectFault(n, fields)
            case Some(name) => r == Err(InvalidQuery(name))
            case None => r.Ok? && Projects(r.value, n.(selected := n.selected + FieldSet(fields)))
    decreases |fields|
  {
    var m := |fields| - 1;
    var prefix, f := fields[..m], fields[m];
    assert fields == prefix + [f];
    assert FieldSet(fields) == FieldSet(prefix) + {f};
    if prefix == [] {
      assert SelectAll(q, prefix) == Ok(q);
      assert FieldSet(fields) == {f};
      SelectTurn(q, n, f);
    } else {
      SelectTurns(q, n, prefix);
      if SelectFault(n, prefix).None? {
        SelectTurn(SelectAll(q, prefix).value, n.(selected := n.selected + FieldSet(prefix)), f);
      }
    }
    assert f in n.excluded && f != "_id" ==> f in n.excluded - {"_id"};
  }

  lemma {:induction false} ExcludeFaultAppend(n: Named, prefix: seq<string>, f: string)
    ensures ExcludedFault(n, prefix + [f]) ==
            if ExcludedFault(n, prefix).Some? then ExcludedFault(n, prefix) else ExcludedFault(n, [f])
  {
    if prefix == [] {
      assert prefix + [f] == [f];
    } else {
      assert (prefix + [f])[1..] == prefix[1..] + [f];
      ExcludeFaultAppend(n, prefix[1..], f);
    }
  }

  lemma {:induction false} ExcludeTurns(q: Query, n: Named, fields: seq<string>)
    requires Projects(q, n)
    ensures var r := ExcludeAll(q, fields);
            match ExcludedFault(n, fields)
            case Some(name) => r == Err(InvalidQuery(name))
            case None => r.Ok? && Projects(r.value, n.(excluded := n.excluded + FieldSet(fields)))
    decreases |fields|
  {
    if fields == [] {
      assert n.(excluded := n.excluded + FieldSet(fields)) == n;
    } else {
      var m := |fields| - 1;
      var prefix, f := fields[..m], fields[m];
      assert fields == prefix + [f];
      assert FieldSet(fields) == FieldSet(prefix) + {f};
      ExcludeFaultAppend(n, prefix, f);
      ExcludeTurns(q, n, prefix);
      if ExcludedFault(n, prefix).None? {
        ExcludeTurn(ExcludeAll(q, prefix).value, n.(excluded := n.excluded + FieldSet(prefix)), f);
      }
    }
  }

  lemma ProjectsKept(q: Query, r: Query, n: Named)
    requires Projects(q, n) && r.projection == q.projection && r.projectionMode == q.projectionMode
    ensures Projects(r, n)
  {
  }

  // ---- What the calls contribute ----

  function Stages(calls: seq<Call>): seq<UpdateOp>
    decreases |calls|
  {
    if calls == [] then []
    else
      var earlier, c := calls[..|calls| - 1], calls[|calls| - 1];
      Stages(earlier) +
      if c.Stage? && !StagedBefore(earlier, c.field) then [UpdateOp(c.operator, c.field, c.value)] else []
  }

  function SortsAll(fields: seq<string>, direction: int): seq<SortField> {
    if fields == [] then [SortField("created_at", GoInt(direction))]
    else seq(|fields|, i requires 0 <= i < |fields| => SortField(fields[i], GoInt(direction)))
  }

  /** OrderBy sorts as told, Latest descending and Oldest ascending, by created_at when
      no field is named. */
  function SortsOf(c: Call): seq<SortField> {
    match c
    case OrderBy(field, direction) => if direction in {1, -1} then [SortField(field, GoInt(direction))] else []
    case Latest(fields) => SortsAll(fields, -1)
    case Oldest(fields) => SortsAll(fields, 1)
    case _ => []
  }

  function Sorts(calls: seq<Call>): seq<SortField>
    decreases |calls|
  {
    if calls == [] then [] else Sorts(calls[..|calls| - 1]) + SortsOf(calls[|calls| - 1])
  }

  function Loads(calls: seq<Call>): seq<string>
    decreases |calls|
  {
    if calls == [] then []
    else
      var c := calls[|calls| - 1];
      Loads(calls[..|calls| - 1]) +
      if c.With? && AllGood(c.relations) then
        seq(|c.relations|, i requires 0 <= i < |c.relations| => c.relations[i].name)
      else []
  }

  /** The last valid Limit, and the last valid Skip. */
  function LastLimit(calls: seq<Call>): Option<int>
    decreases |calls|
  {
    if calls == [] then None
    else
      var c := calls[|calls| - 1];
      if c.Limit? && c.n >= 0 then Some(c.n) else LastLimit(calls[..|calls| - 1])
  }

  function LastSkip(calls: seq<Call>): Option<int>
    decreases |calls|
  {
    if calls == [] then None
    else
      var c := calls[|calls| - 1];
      if c.Skip? && c.n >= 0 then Some(c.n) else LastSkip(calls[..|calls| - 1])
  }

  /** The query holds what the calls contribute. */
  predicate Holds(q: Query, calls: seq<Call>) {
    && q.updates == Stages(calls) && q.sorts == Sorts(calls) && q.with == Loads(calls)
    && q.limit == LastLimit(calls) && q.skip == LastSkip(calls)
    && (q.skipTimestamps <==> WithoutTimestamps in calls)
  }

  lemma {:induction false} StagesAre(calls: seq<Call>, field: string)
    ensures Queries.Stages(Stages(calls), field) <==> StagedBefore(calls, field)
    decreases |calls|
  {
    if calls != [] {
      var m := |calls| - 1;
      var earlier, c := calls[..m], calls[m];
      StagesAre(earlier, field);
      if c.Stage? { StagesAre(earlier, c.field); }
      assert forall i :: 0 <= i < m ==> earlier[i] == calls[i];
      if Queries.Stages(Stages(earlier), field) {
        var op :| op in Stages(earlier) && op.field == field;
        assert op in Stages(calls);
      }
      if c.Stage? && c.field == field && !StagedBefore(earlier, field) {
        assert UpdateOp(c.operator, c.field, c.value) in Stages(calls);
      }
    }
  }

  lemma {:induction false} OrderedAll(q: Query, direction: int, fields: seq<string>)
    requires direction in {1, -1}
    ensures var sorts := seq(|fields|, i requires 0 <= i < |fields| => SortField(fields[i], GoInt(direction)));
            OrderByEach(q, direction, fields) == q.(sorts := q.sorts + sorts)
    decreases |fields|
  {
    if fields == [] {
      assert q.sorts + [] == q.sorts;
    } else {
      var m := |fields| - 1;
      var prefix := fields[..m];
      OrderedAll(q, direction, prefix);
      var all := seq(|fields|, i requires 0 <= i < |fields| => SortField(fields[i], GoInt(direction)));
      var some := seq(m, i requires 0 <= i < m => SortField(prefix[i], GoInt(direction)));
      assert all == some + [SortField(fields[m], GoInt(direction))];
    }
  }

  lemma ListsContribute(q: Query, direction: int, fields: seq<string>)
    requires direction in {1, -1}
    ensures OrderByEach(q, direction, if fields == [] then ["created_at"] else fields) ==
            q.(sorts := q.sorts + SortsAll(fields, direction))
  {
    OrderedAll(q, direction, if fields == [] then ["created_at"] else fields);
    assert seq(1, i requires 0 <= i < 1 => SortField(["created_at"][i], GoInt(direction))) == SortsAll([], direction);
  }

  // ---- One call ----

  /** A condition call, in or out of order. */
  lemma ConditionCall(meta: Meta, q: Query, calls: seq<Call>, c: Call)
    requires Fragment(c).Some?
    ensures Fault(meta, calls, c).None? <==> Fragment(c).value.Ok?
    ensures Fault(meta, calls, c).Some? ==> Fragment(c).value == Err(InvalidQuery(Fault(meta, calls, c).value))
  {
  }

  /** The error of one more call: the fault's, unless there is one already. */
  predicate ErrorAfter(q: Query, r: Query, fault: Option<string>) {
    r.err == if q.err.Some? then q.err else match fault case None => None case Some(name) => Some(InvalidQuery(name))
  }

  lemma ListCall(meta: Meta, q: Query, calls: seq<Call>, c: Call)
    requires c.Select? || c.Exclude?
    requires Projects(q, NamedBy(meta, calls))
    ensures var r := Apply(q, c);
            && ErrorAfter(q, r, Fault(meta, calls, c)) && Projects(r, NamedBy(meta, calls + [c]))
            && r == q.(projection := r.projection, projectionMode := r.projectionMode, err := r.err)
  {
    assert (calls + [c])[..|calls|] == calls;
    var n := NamedBy(meta, calls);
    ListFrame(q, c);
    if c.fields != [] {
      if c.Select? { SelectTurns(q, n, c.fields); } else { ExcludeTurns(q, n, c.fields); }
      SelectKeepsFilters(q, c.fields);
    }
    if Fault(meta, calls, c).Some? { ProjectsKept(q, Apply(q, c), n); }
  }

  lemma SettingError(meta: Meta, q: Query, calls: seq<Call>, c: Call)
    requires Fragment(c).None? && !c.Select? && !c.Exclude?
    requires q.meta == meta && Holds(q, calls)
    ensures ErrorAfter(q, Apply(q, c), Fault(meta, calls, c))
  {
    match c
    case Stage(_, field, _) => StagesAre(calls, field);
    case Latest(fields) => ListsContribute(q, -1, fields);
    case Oldest(fields) => ListsContribute(q, 1, fields);
    case _ =>
  }

  /** The query after a call that sorts by more fields and changes nothing else. */
  lemma SortsHold(q: Query, r: Query, calls: seq<Call>, c: Call)
    requires c.OrderBy? || c.Latest? || c.Oldest?
    requires Holds(q, calls)
    requires r == q.(sorts := q.sorts + SortsOf(c), err := r.err)
    ensures Holds(r, calls + [c])
  {
    assert (calls + [c])[..|calls|] == calls;
  }

  lemma SortingHolds(q: Query, calls: seq<Call>, c: Call)
    requires c.OrderBy? || c.Latest? || c.Oldest?
    requires Holds(q, calls)
    ensures Holds(Apply(q, c), calls + [c])
  {
    var r := Apply(q, c);
    assert r == q.(sorts := q.sorts + SortsOf(c), err := r.err) by {
      match c
      case OrderBy(_, _) =>
      case Latest(fields) => ListsContribute(q, -1, fields);
      case Oldest(fields) => ListsContribute(q, 1, fields);
    }
    SortsHold(q, r, calls, c);
  }

  lemma StagingHolds(q: Query, calls: seq<Call>, c: Call)
    requires c.Stage? && Holds(q, calls)
    ensures Holds(Apply(q, c), calls + [c])
  {
    assert (calls + [c])[..|calls|] == calls;
    StagesAre(calls, c.field);
  }

  lemma LimitHolds(q: Query, calls: seq<Call>, c: Call)
    requires c.Limit? && Holds(q, calls)
    ensures Holds(Apply(q, c), calls + [c])
  {
    assert (calls + [c])[..|calls|] == calls;
  }

  lemma SkipHolds(q: Query, calls: seq<Call>, c: Call)
    requires c.Skip? && Holds(q, calls)
    ensures Holds(Apply(q, c), calls + [c])
  {
    assert (calls + [c])[..|calls|] == calls;
  }

  lemma LoadingHolds(q: Query, calls: seq<Call>, c: Call)
    requires c.With? && Holds(q, calls)
    ensures Holds(Apply(q, c), calls + [c])
  {
    assert (calls + [c])[..|calls|] == calls;
  }

  lemma TimestampsHold(q: Query, calls: seq<Call>)
    requires Holds(q, calls)
    ensures Holds(Apply(q, WithoutTimestamps), calls + [WithoutTimestamps])
  {
    assert (calls + [WithoutTimestamps])[..|calls|] == calls;
  }

  predicate IsOther(c: Call) {
    && !c.Stage? && !c.OrderBy? && !c.Latest? && !c.Oldest? && !c.With?
    && !c.Limit? && !c.Skip? && !c.WithoutTimestamps?
  }

  lemma OtherCallAddsNothing(calls: seq<Call>, c: Call)
    requires IsOther(c)
    ensures Stages(calls + [c]) == Stages(calls)
    ensures Sorts(calls + [c]) == Sorts(calls)
    ensures Loads(calls + [c]) == Loads(calls)
  {
    assert (calls + [c])[..|calls|] == calls;
    assert SortsOf(c) == [];
  }

  lemma OtherCallSetsNothing(calls: seq<Call>, c: Call)
    requires IsOther(c)
    ensures LastLimit(calls + [c]) == LastLimit(calls)
    ensures LastSkip(calls + [c]) == LastSkip(calls)
    ensures WithoutTimestamps in calls + [c] <==> WithoutTimestamps in calls
  {
    assert (calls + [c])[..|calls|] == calls;
  }

  lemma OtherCallHolds(q: Query, r: Query, calls: seq<Call>, c: Call)
    requires IsOther(c) && Holds(q, calls)
    requires r.updates == q.updates && r.sorts == q.sorts && r.with == q.with
    requires r.limit == q.limit && r.skip == q.skip && r.skipTimestamps == q.skipTimestamps
    ensures Holds(r, calls + [c])
  {
    OtherCallAddsNothing(calls, c);
    OtherCallSetsNothing(calls, c);
  }

  lemma SettingCall(meta: Meta, q: Query, calls: seq<Call>, c: Call)
    requires Fragment(c).None? && !c.Select? && !c.Exclude?
    requires q.meta == meta && Holds(q, calls)
    ensures ErrorAfter(q, Apply(q, c), Fault(meta, calls, c)) && Holds(Apply(q, c), calls + [c])
  {
    SettingError(meta, q, calls, c);
    if c.OrderBy? || c.Latest? || c.Oldest? {
      SortingHolds(q, calls, c);
    } else if c.Stage? {
      StagingHolds(q, calls, c);
    } else if c.Limit? {
      LimitHolds(q, calls, c);
    } else if c.Skip? {
      SkipHolds(q, calls, c);
    } else if c.With? {
      LoadingHolds(q, calls, c);
    } else if c.WithoutTimestamps? {
      TimestampsHold(q, calls);
    } else {
      OtherCallHolds(q, Apply(q, c), calls, c);
    }
  }

  // ---- Whole chains ----

  lemma {:induction false} ChainBuilds(meta: Meta, calls: seq<Call>)
    ensures var q := Build(NewQuery(meta), calls);
            && q.meta == meta && Holds(q, calls) && Projects(q, NamedBy(meta, calls))
            && q.err == match FirstFault(meta, calls) case None => None case Some(name) => Some(InvalidQuery(name))
    decreases |calls|
  {
    if calls != [] {
      var earlier, c := calls[..|calls| - 1], calls[|calls| - 1];
      assert calls == earlier + [c];
      ChainBuilds(meta, earlier);
      var q := Build(NewQuery(meta), earlier);
      if Fragment(c).Some? {
        ConditionCall(meta, q, earlier, c);
        ConditionFrame(q, c);
        OtherCallHolds(q, Apply(q, c), earlier, c);
        ProjectsKept(q, Apply(q, c), NamedBy(meta, earlier));
      } else if c.Select? || c.Exclude? {
        ListCall(meta, q, earlier, c);
        OtherCallHolds(q, Apply(q, c), earlier, c);
      } else {
        SettingFrame(q, c);
        SettingCall(meta, q, earlier, c);
        ProjectsKept(q, Apply(q, c), NamedBy(meta, earlier));
      }
    }
  }

  function FaultAt(meta: Meta, calls: seq<Call>, i: nat): Option<string>
    requires i < |calls|
  {
    Fault(meta, calls[..i], calls[i])
  }

  /** Call i is at fault and none before it is. */
  predicate FirstAt(meta: Meta, calls: seq<Call>, i: nat)
    requires i < |calls|
  {
    FaultAt(meta, calls, i).Some? && forall j :: 0 <= j < i ==> FaultAt(meta, calls, j).None?
  }

  /** Nothing before a fault is at fault, or something before it is. */
  lemma {:induction false} FirstFaultIs(meta: Meta, calls: seq<Call>)
    ensures FirstFault(meta, calls).None? ==> forall i :: 0 <= i < |calls| ==> FaultAt(meta, calls, i).None?
    ensures FirstFault(meta, calls).Some? ==>
              exists i :: 0 <= i < |calls| && FirstAt(meta, calls, i) &&
                          FirstFault(meta, calls) == FaultAt(meta, calls, i)
    decreases |calls|
  {
    if calls != [] {
      var m := |calls| - 1;
      var earlier := calls[..m];
      FirstFaultIs(meta, earlier);
      forall i | 0 <= i < m ensures FaultAt(meta, earlier, i) == FaultAt(meta, calls, i) {
        assert earlier[..i] == calls[..i];
      }
      if FirstFault(meta, earlier).Some? {
        var i :| 0 <= i < m && FirstAt(meta, earlier, i) && FirstFault(meta, earlier) == FaultAt(meta, earlier, i);
        assert FirstAt(meta, calls, i);
      } else if FirstFault(meta, calls).Some? {
        assert FirstAt(meta, calls, m);
      }
    }
  }

  /** A chain carries an error exactly when one of its calls is at fault, and it is the
      first one's, under its name. */
  lemma ErrorIsFirstFault(meta: Meta, calls: seq<Call>)
    ensures var err := Build(NewQuery(meta), calls).err;
            && (err.None? <==> forall i :: 0 <= i < |calls| ==> FaultAt(meta, calls, i).None?)
            && (forall i :: 0 <= i < |calls| && FirstAt(meta, calls, i) ==>
                  err == Some(InvalidQuery(FaultAt(meta, calls, i).value)))
  {
    ChainBuilds(meta, calls);
    FirstFaultIs(meta, calls);
    var err := Build(NewQuery(meta), calls).err;
    forall i | 0 <= i < |calls| && FirstAt(meta, calls, i)
      ensures err == Some(InvalidQuery(FaultAt(meta, calls, i).value))
    {
      var j :| 0 <= j < |calls| && FirstAt(meta, calls, j) && FirstFault(meta, calls) == FaultAt(meta, calls, j);
      assert i == j;
    }
  }
}
