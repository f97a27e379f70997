/** Query as a value: the builder calls of odm/query.go, odm/update.go,
    odm/relation.go and odm/soft_delete.go as functions from query to query, and
    what the compiled filter of a whole chain means. QueryHeap refines this. */
module Queries {
  import opened Bson
  import opened Filter

  datatype TrashedMode = Excluded | Included | Only
  datatype ProjectionMode = NoProjection | Inclusion | Exclusion

  /** A sort document's value: OrderBy writes a Go int, a decoded cursor holds
      whatever the wire held. */
  datatype SortValue = GoInt(n: int) | Wire32(n: int) | Wire64(n: int) | NotANumber

  datatype SortField = SortField(key: string, value: SortValue)
  datatype Projected = Projected(key: string, value: int)

  datatype UpdateOperator = OpSet | OpUnset | OpInc | OpPush | OpPull | OpAddToSet
  datatype UpdateOp = UpdateOp(operator: UpdateOperator, field: string, value: Value)

  /** A relation handed to With: nil, one its own validate refuses, or a good one. */
  datatype RelationArg = NilRelation | BadRelation | GoodRelation(name: string)

  datatype Meta = Meta(timestamps: bool, softDeletes: bool, trackable: bool)

  datatype Query = Query(
    meta: Meta,
    filters: seq<Filter>,
    sorts: seq<SortField>,
    limit: Option<int>,
    skip: Option<int>,
    projection: seq<Projected>,
    projectionMode: ProjectionMode,
    updates: seq<UpdateOp>,
    with: seq<string>,
    trashed: TrashedMode,
    skipTimestamps: bool,
    err: Option<Error>)

  const DELETED_AT := "deleted_at"
  const UPDATED_AT := "updated_at"
  const CREATED_AT := "created_at"

  function NewQuery(meta: Meta): Query {
    Query(meta, [], [], None, None, [], NoProjection, [], [], Excluded, false, None)
  }

  datatype Call =
    | Where(field: string, args: seq<Arg>)
    | OrWhere(field: string, args: seq<Arg>)
    | WhereIn(field: string, values: Option<seq<Value>>)
    | WhereNotIn(field: string, values: Option<seq<Value>>)
    | WhereNull(field: string)
    | WhereNotNull(field: string)
    | WhereBetween(field: string, low: Value, high: Value)
    | WhereNotBetween(field: string, low: Value, high: Value)
    | WhereRaw(raw: Option<Filter>)
    | Select(fields: seq<string>)
    | Exclude(fields: seq<string>)
    | OrderBy(field: string, direction: int)
    | Latest(fields: seq<string>)
    | Oldest(fields: seq<string>)
    | Limit(n: int)
    | Skip(n: int)
    | Stage(operator: UpdateOperator, field: string, value: Value)
    | With(relations: seq<RelationArg>)
    | WithTrashed
    | OnlyTrashed
    | WithoutTimestamps

  function WithError(q: Query, e: Error): Query {
    if q.err.None? then q.(err := Some(e)) else q
  }

  function WithFilter(q: Query, f: Filter): Query {
    q.(filters := q.filters + [f])
  }

  function ApplyWhere(q: Query, fragment: Result<Filter>): Query {
    match fragment
    case Err(e) => WithError(q, e)
    case Ok(f) => WithFilter(q, f)
  }

  function ApplyOrWhere(q: Query, fragment: Result<Filter>): Query {
    match fragment
    case Err(e) => WithError(q, e)
    case Ok(f) =>
      if q.filters == [] then WithFilter(q, f)
      else q.(filters := [Or([BuildFilter(q.filters), f])])
  }

  function SetFragment(call: string, op: MongoOp, field: string, values: Option<seq<Value>>): Result<Filter> {
    match values
    case None => Err(InvalidQuery(call))
    case Some(vs) => Ok(Ops(field, [Cond(op, vs)]))
  }

  /** The value of the first projection entry for a field. */
  function Projection(ps: seq<Projected>, field: string): Option<int> {
    if ps == [] then None
    else if ps[0].key == field then Some(ps[0].value)
    else Projection(ps[1..], field)
  }

  /** withProjection, failing on a contradiction. */
  function WithProjection(q: Query, field: string, value: int, mode: ProjectionMode): Result<Query> {
    match Projection(q.projection, field)
    case None => Ok(q.(projectionMode := mode, projection := q.projection + [Projected(field, value)]))
    case Some(existing) =>
      if existing == value then Ok(q.(projectionMode := mode)) else Err(InvalidQuery("projection"))
  }

  function SelectOne(q: Query, field: string): Result<Query> {
    if q.projectionMode.Exclusion? then Err(InvalidQuery("Select")) else WithProjection(q, field, 1, Inclusion)
  }

  function ExcludeOne(q: Query, field: string): Result<Query> {
    if field == ID then WithProjection(q, field, 0, q.projectionMode)
    else if q.projectionMode.Inclusion? then Err(InvalidQuery("Exclude"))
    else WithProjection(q, field, 0, Exclusion)
  }

  function SelectAll(q: Query, fields: seq<string>): Result<Query>
    decreases |fields|
  {
    if fields == [] then Ok(q)
    else match SelectAll(q, fields[..|fields| - 1])
      case Err(e) => Err(e)
      case Ok(next) => SelectOne(next, fields[|fields| - 1])
  }

  function ExcludeAll(q: Query, fields: seq<string>): Result<Query>
    decreases |fields|
  {
    if fields == [] then Ok(q)
    else match ExcludeAll(q, fields[..|fields| - 1])
      case Err(e) => Err(e)
      case Ok(next) => ExcludeOne(next, fields[|fields| - 1])
  }

  function OrKeep(q: Query, r: Result<Query>): Query {
    match r
    case Err(e) => WithError(q, e)
    case Ok(next) => next
  }

  function ApplyOrderBy(q: Query, field: string, direction: int): Query {
    if direction != 1 && direction != -1 then WithError(q, InvalidQuery("OrderBy"))
    else q.(sorts := q.sorts + [SortField(field, GoInt(direction))])
  }

  function OrderByEach(q: Query, direction: int, fields: seq<string>): Query
    decreases |fields|
  {
    if fields == [] then q
    else ApplyOrderBy(OrderByEach(q, direction, fields[..|fields| - 1]), fields[|fields| - 1], direction)
  }

  predicate Stages(ops: seq<UpdateOp>, field: string) {
    exists op :: op in ops && op.field == field
  }

  /** The call that stages the operator. */
  function UpdateCall(operator: UpdateOperator): string {
    match operator
    case OpSet => "Set"
    case OpUnset => "Unset"
    case OpInc => "Inc"
    case OpPush => "Push"
    case OpPull => "Pull"
    case OpAddToSet => "AddToSet"
  }

  function WithUpdate(q: Query, operator: UpdateOperator, field: string, value: Value): Query {
    if Stages(q.updates, field) then WithError(q, InvalidQuery(UpdateCall(operator)))
    else q.(updates := q.updates + [UpdateOp(operator, field, value)])
  }

  function WithTrashedMode(q: Query, call: string, mode: TrashedMode): Query {
    if !q.meta.softDeletes then WithError(q, InvalidQuery(call)) else q.(trashed := mode)
  }

  predicate AllGood(relations: seq<RelationArg>) {
    forall r | r in relations :: r.GoodRelation?
  }

  function Names(relations: seq<RelationArg>): seq<string>
    requires AllGood(relations)
  {
    seq(|relations|, i requires 0 <= i < |relations| => relations[i].name)
  }

  /** The fragment a condition call compiles to; none for any other call. */
  function Fragment(c: Call): Option<Result<Filter>> {
    match c
    case Where(field, args) => Some(Comparison("Where", field, args))
    case OrWhere(field, args) => Some(Comparison("OrWhere", field, args))
    case WhereIn(field, values) => Some(SetFragment("WhereIn", OpIn, field, values))
    case WhereNotIn(field, values) => Some(SetFragment("WhereNotIn", OpNin, field, values))
    case WhereNull(field) => Some(Ok(Equals(field, Null)))
    case WhereNotNull(field) => Some(Ok(Ops(field, [Cond(OpNe, [Null])])))
    case WhereBetween(field, low, high) => Some(Ok(Ops(field, [Cond(OpGte, [low]), Cond(OpLte, [high])])))
    case WhereNotBetween(field, low, high) =>
      Some(Ok(Or([Ops(field, [Cond(OpLt, [low])]), Ops(field, [Cond(OpGt, [high])])])))
    case WhereRaw(raw) => Some(if raw.None? then Err(InvalidQuery("WhereRaw")) else Ok(raw.value))
    case _ => None
  }

  /** The calls that add no condition. */
  function ApplySetting(q: Query, c: Call): Query {
    match c
    case Select(fields) => OrKeep(q, if fields == [] then Err(InvalidQuery("Select")) else SelectAll(q, fields))
    case Exclude(fields) => OrKeep(q, if fields == [] then Err(InvalidQuery("Exclude")) else ExcludeAll(q, fields))
    case OrderBy(field, direction) => ApplyOrderBy(q, field, direction)
    case Latest(fields) => OrderByEach(q, -1, if fields == [] then [CREATED_AT] else fields)
    case Oldest(fields) => OrderByEach(q, 1, if fields == [] then [CREATED_AT] else fields)
    case Limit(n) => if n < 0 then WithError(q, InvalidQuery("Limit")) else q.(limit := Some(n))
    case Skip(n) => if n < 0 then WithError(q, InvalidQuery("Skip")) else q.(skip := Some(n))
    case Stage(operator, field, value) => WithUpdate(q, operator, field, value)
    case With(relations) =>
      if AllGood(relations) then q.(with := q.with + Names(relations)) else WithError(q, InvalidQuery("With"))
    case WithTrashed => WithTrashedMode(q, "WithTrashed", Included)
    case OnlyTrashed => WithTrashedMode(q, "OnlyTrashed", Only)
    case WithoutTimestamps => q.(skipTimestamps := true)
    case _ => q
  }

  function Apply(q: Query, c: Call): Query {
    match Fragment(c)
    case Some(r) => if c.OrWhere? then ApplyOrWhere(q, r) else ApplyWhere(q, r)
    case None => ApplySetting(q, c)
  }

  /** A whole chain, first call first. */
  function Build(q: Query, calls: seq<Call>): Query
    decreases |calls|
  {
    if calls == [] then q else Apply(Build(q, calls[..|calls| - 1]), calls[|calls| - 1])
  }

  lemma OneCall(q: Query, c: Call)
    ensures Build(q, [c]) == Apply(q, c)
  {
    assert [c][..0] == [] && Build(q, [c][..0]) == q;
  }

  function SoftDeleteFilter(mode: TrashedMode): Option<Filter> {
    match mode
    case Excluded => Some(Equals(DELETED_AT, Null))
    case Only => Some(Ops(DELETED_AT, [Cond(OpNe, [Null])]))
    case Included => None
  }

  function CompileFilter(q: Query, mode: TrashedMode): Filter {
    if !q.meta.softDeletes then BuildFilter(q.filters)
    else match SoftDeleteFilter(mode)
      case None => BuildFilter(q.filters)
      case Some(scope) => BuildFilter(q.filters + [scope])
  }

  // ---- What a chain means, said without any filter document ----

  predicate Trashed(d: Doc) {
    !EqualsAny(Candidates(d, DELETED_AT), Null)
  }

  predicate Admits(mode: TrashedMode, d: Doc) {
    match mode
    case Excluded => !Trashed(d)
    case Only => Trashed(d)
    case Included => true
  }

  predicate OperatorTest(operator: string, cs: seq<Value>, v: Value) {
    if operator == "=" || operator == "==" then EqualsAny(cs, v)
    else if operator == "!=" then !EqualsAny(cs, v)
    else if operator == ">" then OrderedAny(OpGt, cs, v)
    else if operator == ">=" then OrderedAny(OpGte, cs, v)
    else if operator == "<" then OrderedAny(OpLt, cs, v)
    else OrderedAny(OpLte, cs, v)
  }

  /** The condition a Where/OrWhere call puts on a document; none for a call that
      records an error. */
  function ArgsTest(field: string, args: seq<Arg>, d: Doc): Option<bool> {
    var cs := Candidates(d, field);
    if |args| == 1 then Some(EqualsAny(cs, ArgValue(args[0])))
    else if |args| == 2 && OperatorOf(args[0]).Some? && OperatorOf(args[0]).value in OPERATORS
    then Some(OperatorTest(OperatorOf(args[0]).value, cs, ArgValue(args[1])))
    else None
  }

  function CallTest(c: Call, d: Doc): Option<bool> {
    match c
    case Where(field, args) => ArgsTest(field, args, d)
    case OrWhere(field, args) => ArgsTest(field, args, d)
    case WhereIn(field, Some(vs)) => Some(exists i :: 0 <= i < |vs| && EqualsAny(Candidates(d, field), vs[i]))
    case WhereNotIn(field, Some(vs)) => Some(forall i :: 0 <= i < |vs| ==> !EqualsAny(Candidates(d, field), vs[i]))
    case WhereNull(field) => Some(EqualsAny(Candidates(d, field), Null))
    case WhereNotNull(field) => Some(!EqualsAny(Candidates(d, field), Null))
    case WhereBetween(field, low, high) =>
      Some(OrderedAny(OpGte, Candidates(d, field), low) && OrderedAny(OpLte, Candidates(d, field), high))
    case WhereNotBetween(field, low, high) =>
      Some(OrderedAny(OpLt, Candidates(d, field), low) || OrderedAny(OpGt, Candidates(d, field), high))
    case WhereRaw(Some(f)) => Some(Matches(f, d))
    case _ => None
  }

  /** The strict left-to-right fold: AND for every condition, OR for OrWhere, no
      precedence; an OrWhere with nothing before it is a plain condition. None
      while there is no condition yet. */
  function Fold(calls: seq<Call>, d: Doc): Option<bool>
    decreases |calls|
  {
    if calls == [] then None
    else
      var before := Fold(calls[..|calls| - 1], d);
      var c := calls[|calls| - 1];
      match CallTest(c, d)
      case None => before
      case Some(now) =>
        if before.None? then Some(now)
        else if c.OrWhere? then Some(before.value || now)
        else Some(before.value && now)
  }

  predicate FoldHolds(calls: seq<Call>, d: Doc) {
    var r := Fold(calls, d);
    r.None? || r.value
  }

  /** The mode in force at the end, wherever in the chain it was set. */
  function FinalMode(calls: seq<Call>): TrashedMode
    decreases |calls|
  {
    if calls == [] then Excluded
    else match calls[|calls| - 1]
      case WithTrashed => Included
      case OnlyTrashed => Only
      case _ => FinalMode(calls[..|calls| - 1])
  }

  predicate RawsWellFormed(calls: seq<Call>) {
    forall c | c in calls && c.WhereRaw? && c.raw.Some? :: WellFormed(c.raw.value)
  }

  lemma OneCond(field: string, c: Cond, d: Doc)
    ensures Matches(Ops(field, [c]), d) <==> MatchesCond(c, Candidates(d, field))
  {
    assert [c][0] == c;
  }

  lemma OrOfTwo(f: Filter, g: Filter, d: Doc)
    ensures Matches(Or([f, g]), d) <==> Matches(f, d) || Matches(g, d)
  {
    assert [f, g][0] == f && [f, g][1] == g;
  }

  lemma ComparisonTest(call: string, field: string, args: seq<Arg>, d: Doc)
    ensures var r := Comparison(call, field, args);
            && (r.Ok? <==> ArgsTest(field, args, d).Some?)
            && (r.Ok? ==> Matches(r.value, d) == ArgsTest(field, args, d).value && WellFormed(r.value))
  {
    var r := Comparison(call, field, args);
    if r.Ok? && r.value.Ops? {
      OneCond(field, r.value.conds[0], d);
    }
  }

  lemma SetTest(field: string, vs: seq<Value>, d: Doc)
    ensures Matches(Ops(field, [Cond(OpIn, vs)]), d) <==>
            exists i :: 0 <= i < |vs| && EqualsAny(Candidates(d, field), vs[i])
    ensures Matches(Ops(field, [Cond(OpNin, vs)]), d) <==>
            forall i :: 0 <= i < |vs| ==> !EqualsAny(Candidates(d, field), vs[i])
  {
    OneCond(field, Cond(OpIn, vs), d);
    OneCond(field, Cond(OpNin, vs), d);
  }

  lemma BetweenTest(field: string, low: Value, high: Value, d: Doc)
    ensures Matches(Ops(field, [Cond(OpGte, [low]), Cond(OpLte, [high])]), d) <==>
            OrderedAny(OpGte, Candidates(d, field), low) && OrderedAny(OpLte, Candidates(d, field), high)
    ensures Matches(Or([Ops(field, [Cond(OpLt, [low])]), Ops(field, [Cond(OpGt, [high])])]), d) <==>
            OrderedAny(OpLt, Candidates(d, field), low) || OrderedAny(OpGt, Candidates(d, field), high)
  {
    var conds := [Cond(OpGte, [low]), Cond(OpLte, [high])];
    assert conds[0].op == OpGte && conds[1].op == OpLte;
    OrOfTwo(Ops(field, [Cond(OpLt, [low])]), Ops(field, [Cond(OpGt, [high])]), d);
    OneCond(field, Cond(OpLt, [low]), d);
    OneCond(field, Cond(OpGt, [high]), d);
  }

  /** A condition call adds a fragment exactly when it has a meaning, and the
      fragment matches what the call means. */
  lemma FragmentTest(c: Call, d: Doc)
    ensures CallTest(c, d).Some? <==> Fragment(c).Some? && Fragment(c).value.Ok?
    ensures CallTest(c, d).Some? ==> Matches(Fragment(c).value.value, d) == CallTest(c, d).value
    ensures CallTest(c, d).Some? && RawsWellFormed([c]) ==> WellFormed(Fragment(c).value.value)
  {
    match c
    case Where(field, args) => ComparisonTest("Where", field, args, d);
    case OrWhere(field, args) => ComparisonTest("OrWhere", field, args, d);
    case WhereIn(field, Some(vs)) => SetTest(field, vs, d);
    case WhereNotIn(field, Some(vs)) => SetTest(field, vs, d);
    case WhereNotNull(field) => OneCond(field, Cond(OpNe, [Null]), d);
    case WhereBetween(field, low, high) => BetweenTest(field, low, high, d);
    case WhereNotBetween(field, low, high) => BetweenTest(field, low, high, d);
    case WhereRaw(Some(f)) => assert c in [c];
    case _ =>
  }

  lemma {:induction false} SelectKeepsFilters(q: Query, fields: seq<string>)
    ensures SelectAll(q, fields).Ok? ==>
              var r := SelectAll(q, fields).value; r == q.(projection := r.projection,
                  projectionMode := r.projectionMode)
    ensures ExcludeAll(q, fields).Ok? ==>
              var r := ExcludeAll(q, fields).value; r == q.(projection := r.projection,
                  projectionMode := r.projectionMode)
    decreases |fields|
  {
    if fields != [] {
      var prefix, last := fields[..|fields| - 1], fields[|fields| - 1];
      SelectKeepsFilters(q, prefix);
      if SelectAll(q, prefix).Ok? {
        assert SelectAll(q, fields) == SelectOne(SelectAll(q, prefix).value, last);
      }
      if ExcludeAll(q, prefix).Ok? {
        assert ExcludeAll(q, fields) == ExcludeOne(ExcludeAll(q, prefix).value, last);
      }
    }
  }

  lemma {:induction false} OrderByEachKeeps(q: Query, direction: int, fields: seq<string>)
    ensures var r := OrderByEach(q, direction, fields); r == q.(sorts := r.sorts, err := r.err)
    ensures direction == 1 || direction == -1 ==> OrderByEach(q, direction, fields).err == q.err
    decreases |fields|
  {
    if fields != [] { OrderByEachKeeps(q, direction, fields[..|fields| - 1]); }
  }

  /** Select and Exclude reach the projection, Latest and Oldest the sorts, and all
      four the error. */
  lemma ListFrame(q: Query, c: Call)
    requires c.Select? || c.Exclude? || c.Latest? || c.Oldest?
    ensures var r := Apply(q, c);
            && (c.Select? || c.Exclude? ==> r == q.(projection := r.projection, projectionMode := r.projectionMode,
                err := r.err))
            && (c.Latest? || c.Oldest? ==> r == q.(sorts := r.sorts, err := r.err))
            && (q.err.Some? ==> r.err == q.err)
  {
    match c
    case Select(fields) => SelectKeepsFilters(q, fields);
    case Exclude(fields) => SelectKeepsFilters(q, fields);
    case Latest(fields) => OrderByEachKeeps(q, -1, if fields == [] then [CREATED_AT] else fields);
    case Oldest(fields) => OrderByEachKeeps(q, 1, if fields == [] then [CREATED_AT] else fields);
  }

  /** Which parts of the query a setting call can reach at all. */
  lemma SettingFrame(q: Query, c: Call)
    requires Fragment(c).None?
    ensures Apply(q, c).meta == q.meta && Apply(q, c).filters == q.filters
    ensures !c.Stage? ==> Apply(q, c).updates == q.updates
    ensures !c.Select? && !c.Exclude? ==>
              Apply(q, c).projection == q.projection && Apply(q, c).projectionMode == q.projectionMode
    ensures !c.OrderBy? && !c.Latest? && !c.Oldest? ==> Apply(q, c).sorts == q.sorts
    ensures q.err.Some? ==> Apply(q, c).err == q.err
    ensures Apply(q, c).trashed ==
            if q.meta.softDeletes && c.WithTrashed? then Included
            else if q.meta.softDeletes && c.OnlyTrashed? then Only
            else q.trashed
  {
    if c.Select? || c.Exclude? || c.Latest? || c.Oldest? { ListFrame(q, c); }
  }

  /** A condition call reaches the filters and the error, nothing else. */
  lemma ConditionFrame(q: Query, c: Call)
    requires Fragment(c).Some?
    ensures var r := Apply(q, c); r == q.(filters := r.filters, err := r.err)
    ensures Apply(q, c).filters ==
            if Fragment(c).value.Err? then q.filters
            else if c.OrWhere? && q.filters != [] then [Or([BuildFilter(q.filters), Fragment(c).value.value])]
            else q.filters + [Fragment(c).value.value]
    ensures q.err.Some? ==> Apply(q, c).err == q.err
  {
  }

  /** ANDing or ORing one more fragment on, seen through the conjunction. */
  lemma ConditionStep(filters: seq<Filter>, c: Call, d: Doc)
    requires CallTest(c, d).Some? && Fragment(c).Some? && Fragment(c).value.Ok?
    requires Matches(Fragment(c).value.value, d) == CallTest(c, d).value
    ensures (forall g | g in filters + [Fragment(c).value.value] :: Matches(g, d)) <==>
            (forall g | g in filters :: Matches(g, d)) && CallTest(c, d).value
    ensures (forall g | g in [Or([BuildFilter(filters), Fragment(c).value.value])] :: Matches(g, d)) <==>
            (forall g | g in filters :: Matches(g, d)) || CallTest(c, d).value
    ensures (forall g | g in filters :: WellFormed(g)) && WellFormed(Fragment(c).value.value) ==>
              WellFormed(Or([BuildFilter(filters), Fragment(c).value.value]))
  {
    var f := Fragment(c).value.value;
    BuildFilterIsConjunction(filters, d);
    OrOfTwo(BuildFilter(filters), f, d);
    var one := [Or([BuildFilter(filters), f])];
    assert one[0] in one;
    assert f in filters + [f];
  }

  /** Invariant of a chain: the accumulated fragments, ANDed, are the fold so far. */
  lemma {:induction false} FragmentsAreFold(meta: Meta, calls: seq<Call>, d: Doc)
    ensures var q := Build(NewQuery(meta), calls);
            && q.meta == meta
            && (q.filters == [] <==> Fold(calls, d).None?)
            && ((forall g | g in q.filters :: Matches(g, d)) <==> FoldHolds(calls, d))
            && q.trashed == (if meta.softDeletes then FinalMode(calls) else Excluded)
            && (RawsWellFormed(calls) ==> forall g | g in q.filters :: WellFormed(g))
    decreases |calls|
  {
    if calls != [] {
      var prefix, c := calls[..|calls| - 1], calls[|calls| - 1];
      FragmentsAreFold(meta, prefix, d);
      var before := Build(NewQuery(meta), prefix);
      FragmentTest(c, d);
      if Fragment(c).None? {
        SettingFrame(before, c);
      } else {
        ConditionFrame(before, c);
        if CallTest(c, d).Some? { ConditionStep(before.filters, c, d); }
        assert RawsWellFormed(calls) ==> RawsWellFormed(prefix) && RawsWellFormed([c]);
      }
    }
  }

  lemma ScopeTest(mode: TrashedMode, d: Doc)
    ensures SoftDeleteFilter(mode).Some? ==> (Matches(SoftDeleteFilter(mode).value, d) <==> Admits(mode, d))
    ensures SoftDeleteFilter(mode).None? ==> Admits(mode, d)
  {
    OneCond(DELETED_AT, Cond(OpNe, [Null]), d);
  }

  /** A chain compiled under any mode matches exactly the documents the fold
      accepts and the mode admits: no OrWhere escapes the soft-delete scope, and
      no empty $and or $or is sent. */
  lemma CompiledUnderMode(meta: Meta, calls: seq<Call>, mode: TrashedMode, d: Doc)
    ensures var f := CompileFilter(Build(NewQuery(meta), calls), mode);
            && (Matches(f, d) <==> FoldHolds(calls, d) && (meta.softDeletes ==> Admits(mode, d)))
            && (RawsWellFormed(calls) ==> WellFormed(f))
  {
    var q := Build(NewQuery(meta), calls);
    FragmentsAreFold(meta, calls, d);
    BuildFilterIsConjunction(q.filters, d);
    if meta.softDeletes {
      ScopeTest(mode, d);
      if SoftDeleteFilter(mode).Some? {
        BuildFilterIsConjunction(q.filters + [SoftDeleteFilter(mode).value], d);
      }
    }
  }

  /** The filter a read sends. */
  lemma CompiledFilterIsFold(meta: Meta, calls: seq<Call>, d: Doc)
    ensures var q := Build(NewQuery(meta), calls);
            && (Matches(CompileFilter(q, q.trashed), d) <==>
                  FoldHolds(calls, d) && (meta.softDeletes ==> Admits(FinalMode(calls), d)))
            && (RawsWellFormed(calls) ==> WellFormed(CompileFilter(q, q.trashed)))
  {
    FragmentsAreFold(meta, calls, d);
    CompiledUnderMode(meta, calls, Build(NewQuery(meta), calls).trashed, d);
  }

  // ---- What every chain keeps ----

  predicate DistinctFields(ops: seq<UpdateOp>) {
    forall i, j :: 0 <= i < j < |ops| ==> ops[i].field != ops[j].field
  }

  /** A projection MongoDB accepts: no key twice, and no inclusion beside an
      exclusion other than that of _id. */
  predicate LegalProjection(ps: seq<Projected>) {
    && (forall i, j :: 0 <= i < j < |ps| ==> ps[i].key != ps[j].key)
    && (forall i :: 0 <= i < |ps| ==> ps[i].value == 0 || ps[i].value == 1)
    && (forall i, j :: 0 <= i < |ps| && 0 <= j < |ps| && ps[i].key != ID && ps[j].key != ID ==>
        ps[i].value == ps[j].value)
    && (forall i, j :: 0 <= i < |ps| && 0 <= j < |ps| && ps[i].key == ID && ps[i].value == 1 ==> ps[j].value == 1)
  }

  predicate ProjectionInvariant(q: Query) {
    var ps := q.projection;
    && (forall i, j :: 0 <= i < j < |ps| ==> ps[i].key != ps[j].key)
    && match q.projectionMode
       case NoProjection => forall p | p in ps :: p == Projected(ID, 0)
       case Inclusion => forall p | p in ps :: p.value == 1 || p == Projected(ID, 0)
       case Exclusion => forall p | p in ps :: p.value == 0
  }

  predicate GoodSorts(sorts: seq<SortField>) {
    forall s | s in sorts :: s.value == GoInt(1) || s.value == GoInt(-1)
  }

  predicate GoodBounds(q: Query) {
    && (q.limit.Some? ==> q.limit.value >= 0)
    && (q.skip.Some? ==> q.skip.value >= 0)
    && (!q.meta.softDeletes ==> q.trashed == Excluded)
  }

  predicate ChainInvariant(q: Query) {
    DistinctFields(q.updates) && ProjectionInvariant(q) && GoodSorts(q.sorts) && GoodBounds(q)
  }

  lemma {:induction false} ProjectionFinds(ps: seq<Projected>, field: string)
    ensures Projection(ps, field).None? <==> forall p | p in ps :: p.key != field
    ensures Projection(ps, field).Some? ==> Projected(field, Projection(ps, field).value) in ps
  {
    if ps != [] {
      ProjectionFinds(ps[1..], field);
      assert ps == [ps[0]] + ps[1..];
    }
  }

  lemma ProjectionStep(q: Query, field: string, value: int, mode: ProjectionMode)
    requires ProjectionInvariant(q)
    requires mode == q.projectionMode || q.projectionMode == NoProjection
    requires mode == NoProjection ==> field == ID && value == 0
    requires mode == Inclusion ==> value == 1 || (field == ID && value == 0)
    requires mode == Exclusion ==> value == 0
    ensures var r := WithProjection(q, field, value, mode); r.Ok? ==> ProjectionInvariant(r.value)
  {
    ProjectionFinds(q.projection, field);
    forall i | 0 <= i < |q.projection| ensures q.projection[i] in q.projection {}
  }

  lemma {:induction false} SelectKeepsProjection(q: Query, fields: seq<string>)
    requires ProjectionInvariant(q)
    ensures SelectAll(q, fields).Ok? ==> ProjectionInvariant(SelectAll(q, fields).value)
    ensures ExcludeAll(q, fields).Ok? ==> ProjectionInvariant(ExcludeAll(q, fields).value)
    decreases |fields|
  {
    if fields != [] {
      var prefix, last := fields[..|fields| - 1], fields[|fields| - 1];
      SelectKeepsProjection(q, prefix);
      if SelectAll(q, prefix).Ok? && SelectAll(q, prefix).value.projectionMode != Exclusion {
        ProjectionStep(SelectAll(q, prefix).value, last, 1, Inclusion);
      }
      if ExcludeAll(q, prefix).Ok? {
        var next := ExcludeAll(q, prefix).value;
        if last == ID {
          ProjectionStep(next, last, 0, next.projectionMode);
        } else if next.projectionMode != Inclusion {
          ProjectionStep(next, last, 0, Exclusion);
        }
      }
    }
  }

  lemma {:induction false} OrderByEachKeepsSorts(q: Query, direction: int, fields: seq<string>)
    requires GoodSorts(q.sorts)
    ensures GoodSorts(OrderByEach(q, direction, fields).sorts)
    decreases |fields|
  {
    if fields != [] { OrderByEachKeepsSorts(q, direction, fields[..|fields| - 1]); }
  }

  lemma PageBoundsKept(q: Query, c: Call)
    requires Fragment(c).None? && GoodBounds(q)
    ensures var r := Apply(q, c); (r.limit.Some? ==> r.limit.value >= 0) && (r.skip.Some? ==> r.skip.value >= 0)
  {
    if c.Select? || c.Exclude? || c.Latest? || c.Oldest? { ListFrame(q, c); }
  }

  /** One call keeps the invariant. */
  lemma ApplyKeepsInvariant(q: Query, c: Call)
    requires ChainInvariant(q)
    ensures ChainInvariant(Apply(q, c))
    ensures q.err.Some? ==> Apply(q, c).err == q.err
  {
    if Fragment(c).Some? {
      ConditionFrame(q, c);
    } else {
      SettingFrame(q, c);
      PageBoundsKept(q, c);
      match c {
        case Select(fields) => SelectKeepsProjection(q, fields);
        case Exclude(fields) => SelectKeepsProjection(q, fields);
        case Latest(fields) => OrderByEachKeepsSorts(q, -1, if fields == [] then [CREATED_AT] else fields);
        case Oldest(fields) => OrderByEachKeepsSorts(q, 1, if fields == [] then [CREATED_AT] else fields);
        case _ =>
      }
    }
  }

  lemma InvariantMakesLegal(q: Query)
    requires ProjectionInvariant(q)
    ensures LegalProjection(q.projection)
  {
    var ps := q.projection;
    assert forall i :: 0 <= i < |ps| ==> ps[i] in ps;
  }

  /** Every chain, whatever its calls: staged fields are pairwise distinct, the
      projection is one the server accepts, sort directions are 1 or -1, and the
      error of a prefix is the error of the whole. */
  lemma {:induction false} ChainKeepsInvariant(meta: Meta, calls: seq<Call>)
    ensures var q := Build(NewQuery(meta), calls);
            ChainInvariant(q) && LegalProjection(q.projection)
    ensures forall k :: 0 <= k <= |calls| && Build(NewQuery(meta), calls[..k]).err.Some? ==>
              Build(NewQuery(meta), calls).err == Build(NewQuery(meta), calls[..k]).err
    decreases |calls|
  {
    if calls != [] {
      var prefix := calls[..|calls| - 1];
      ChainKeepsInvariant(meta, prefix);
      var before := Build(NewQuery(meta), prefix);
      ApplyKeepsInvariant(before, calls[|calls| - 1]);
      forall k | 0 <= k <= |calls| && Build(NewQuery(meta), calls[..k]).err.Some?
        ensures Build(NewQuery(meta), calls).err == Build(NewQuery(meta), calls[..k]).err
      {
        if k < |calls| { assert calls[..k] == prefix[..k]; } else { assert calls[..k] == calls; }
      }
    }
    InvariantMakesLegal(Build(NewQuery(meta), calls));
  }
}
