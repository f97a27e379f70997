/** Filter documents, what they match, and the fragments one builder call
    compiles to (odm/filter.go). */
module Filter {
  import opened Bson

  datatype Result<T> = Ok(value: T) | Err(error: Error)

  /** The package's error sentinels. ErrInvalidQuery keeps the name of the call
      that caused it; the rest of the message text is not modelled. */
  datatype Error = InvalidQuery(call: string) | InvalidCursor | DuplicateKey | HookFailed | NoId | ServerFailed

  datatype MongoOp = OpNe | OpGt | OpGte | OpLt | OpLte | OpIn | OpNin

  /** One operator inside an operator document; $in and $nin read `values`. */
  datatype Cond = Cond(op: MongoOp, values: seq<Value>)

  /** A filter document. `Everything` is the empty document, `Ops` a field with
      an operator document, whose conditions all have to hold. */
  datatype Filter =
    | Everything
    | Equals(field: string, value: Value)
    | Ops(field: string, conds: seq<Cond>)
    | And(all: seq<Filter>)
    | Or(any: seq<Filter>)

  /** What a condition on a field is tried against: a missing field reads as null,
      and an array stands for itself and for each of its elements. */
  function Candidates(d: Doc, field: string): seq<Value> {
    if field !in d then [Null]
    else if d[field].Arr? then [d[field]] + d[field].elems
    else [d[field]]
  }

  predicate EqualsAny(cs: seq<Value>, v: Value) {
    exists i :: 0 <= i < |cs| && Compare(cs[i], v) == 0
  }

  /** The ordering operators never cross a type bracket. */
  predicate Ordered(op: MongoOp, c: Value, v: Value) {
    Bracket(c) == Bracket(v) &&
    match op
    case OpGt => Compare(c, v) > 0
    case OpGte => Compare(c, v) >= 0
    case OpLt => Compare(c, v) < 0
    case OpLte => Compare(c, v) <= 0
    case _ => false
  }

  predicate OrderedAny(op: MongoOp, cs: seq<Value>, v: Value) {
    exists i :: 0 <= i < |cs| && Ordered(op, cs[i], v)
  }

  predicate MatchesCond(c: Cond, cs: seq<Value>) {
    match c.op
    case OpIn => exists i :: 0 <= i < |c.values| && EqualsAny(cs, c.values[i])
    case OpNin => forall i :: 0 <= i < |c.values| ==> !EqualsAny(cs, c.values[i])
    case OpNe => |c.values| == 1 && !EqualsAny(cs, c.values[0])
    case _ => |c.values| == 1 && OrderedAny(c.op, cs, c.values[0])
  }

  predicate Matches(f: Filter, d: Doc) {
    match f
    case Everything => true
    case Equals(field, v) => EqualsAny(Candidates(d, field), v)
    case Ops(field, conds) => forall i :: 0 <= i < |conds| ==> MatchesCond(conds[i], Candidates(d, field))
    case And(fs) => forall g | g in fs :: Matches(g, d)
    case Or(fs) => exists g | g in fs :: Matches(g, d)
  }

  /** The server refuses an empty $and or $or. */
  predicate WellFormed(f: Filter) {
    match f
    case And(fs) => fs != [] && forall g | g in fs :: WellFormed(g)
    case Or(fs) => fs != [] && forall g | g in fs :: WellFormed(g)
    case _ => true
  }

  /** Does the filter read this field anywhere? */
  predicate Mentions(f: Filter, field: string) {
    match f
    case Everything => false
    case Equals(g, _) => g == field
    case Ops(g, _) => g == field
    case And(fs) => exists g | g in fs :: Mentions(g, field)
    case Or(fs) => exists g | g in fs :: Mentions(g, field)
  }

  /** A filter cannot tell apart documents that agree on every field it mentions. */
  lemma {:induction false} MatchesReadsMentioned(f: Filter, d: Doc, e: Doc)
    requires forall k :: Mentions(f, k) ==> (k in d <==> k in e) && (k in d ==> d[k] == e[k])
    ensures Matches(f, d) == Matches(f, e)
  {
    match f
    case Everything =>
    case Equals(field, _) => assert Mentions(f, field);
    case Ops(field, _) => assert Mentions(f, field);
    case And(fs) =>
      forall g | g in fs ensures Matches(g, d) == Matches(g, e) {
        assert forall k :: Mentions(g, k) ==> Mentions(f, k);
        MatchesReadsMentioned(g, d, e);
      }
    case Or(fs) =>
      forall g | g in fs ensures Matches(g, d) == Matches(g, e) {
        assert forall k :: Mentions(g, k) ==> Mentions(f, k);
        MatchesReadsMentioned(g, d, e);
      }
  }

  /** An argument after the field: an odm.Operator, or any other value. */
  datatype Arg = OperatorArg(op: string) | ValueArg(v: Value)

  function ArgValue(a: Arg): Value {
    match a
    case OperatorArg(op) => Str(op)
    case ValueArg(v) => v
  }

  function OperatorOf(a: Arg): Option<string> {
    match a
    case OperatorArg(op) => Some(op)
    case ValueArg(Str(s)) => Some(s)
    case ValueArg(_) => None
  }

  function OperatorFilter(call: string, field: string, operator: string, v: Value): Result<Filter> {
    if operator == "=" || operator == "==" then Ok(Equals(field, v))
    else if operator == "!=" then Ok(Ops(field, [Cond(OpNe, [v])]))
    else if operator == ">" then Ok(Ops(field, [Cond(OpGt, [v])]))
    else if operator == ">=" then Ok(Ops(field, [Cond(OpGte, [v])]))
    else if operator == "<" then Ok(Ops(field, [Cond(OpLt, [v])]))
    else if operator == "<=" then Ok(Ops(field, [Cond(OpLte, [v])]))
    else Err(InvalidQuery(call))
  }

  function Comparison(call: string, field: string, args: seq<Arg>): Result<Filter> {
    if |args| == 1 then Ok(Equals(field, ArgValue(args[0])))
    else if |args| == 2 then
      match OperatorOf(args[0])
      case None => Err(InvalidQuery(call))
      case Some(op) => OperatorFilter(call, field, op, ArgValue(args[1]))
    else Err(InvalidQuery(call))
  }

  /** What the operator spelling means for a field holding the number `x` when
      compared with the number `y`. */
  predicate NumberTest(operator: string, x: int, y: int) {
    if operator == "=" || operator == "==" then x == y
    else if operator == "!=" then x != y
    else if operator == ">" then x > y
    else if operator == ">=" then x >= y
    else if operator == "<" then x < y
    else operator == "<=" && x <= y
  }

  const OPERATORS := {"=", "==", "!=", ">", ">=", "<", "<="}

  /** A two-argument call compiles exactly for the seven operators and then means
      what the operator says, whichever integer encoding either side has; in
      either spelling of the operator. */
  lemma ComparisonMeansOperator(call: string, field: string, a: Arg, k: NumKind, y: int, d: Doc)
    ensures var r := Comparison(call, field, [a, ValueArg(Num(k, y))]);
            && (r.Ok? <==> OperatorOf(a).Some? && OperatorOf(a).value in OPERATORS)
            && (r.Ok? && field in d && d[field].Num? ==>
                  (Matches(r.value, d) <==> NumberTest(OperatorOf(a).value, d[field].n, y)))
  {
    var r := Comparison(call, field, [a, ValueArg(Num(k, y))]);
    if r.Ok? && field in d && d[field].Num? {
      var cs := Candidates(d, field);
      assert cs == [d[field]];
      assert EqualsAny(cs, Num(k, y)) <==> Compare(cs[0], Num(k, y)) == 0;
      forall op ensures OrderedAny(op, cs, Num(k, y)) <==> Ordered(op, cs[0], Num(k, y)) {}
      if r.value.Ops? {
        assert Matches(r.value, d) <==> MatchesCond(r.value.conds[0], cs);
      }
    }
  }

  /** Combines accumulated fragments; one fragment needs no wrapper. The copy into
      a fresh array is the loop. */
  function BuildFilter(fragments: seq<Filter>): Filter {
    if fragments == [] then Everything
    else if |fragments| == 1 then fragments[0]
    else And(fragments)
  }

  /** The combination matches exactly the documents every fragment matches, and
      never emits an empty $and. */
  lemma BuildFilterIsConjunction(fragments: seq<Filter>, d: Doc)
    ensures Matches(BuildFilter(fragments), d) <==> forall g | g in fragments :: Matches(g, d)
    ensures (forall g | g in fragments :: WellFormed(g)) ==> WellFormed(BuildFilter(fragments))
  {
    if |fragments| == 1 { assert fragments == [fragments[0]]; }
  }
}
