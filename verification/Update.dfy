/** Staged update operators (odm/update.go, odm/execute.go): grouping them into one
    update document means the same as applying them one by one in call order. */
module Update {
  import opened Bson
  import opened Filter
  import opened Queries

  // ---- What the server does with one operator on one field ----

  function Add(k: NumKind, a: int, l: NumKind, b: int): Option<Value> {
    var sum := a + b;
    if k == Int32 && l == Int32 && -0x8000_0000 <= sum < 0x8000_0000 then Some(Num(Int32, sum))
    else if -0x8000_0000_0000_0000 <= sum < 0x8000_0000_0000_0000 then Some(Num(Int64, sum))
    else None
  }

  function Without(elems: seq<Value>, v: Value): seq<Value> {
    if elems == [] then []
    else if Compare(elems[0], v) == 0 then Without(elems[1..], v)
    else [elems[0]] + Without(elems[1..], v)
  }

  /** The field's new content, or None when the server refuses the operation. */
  function Effect(operator: UpdateOperator, v: Value, was: Option<Value>): Option<Option<Value>> {
    match operator
    case OpSet => Some(Some(v))
    case OpUnset => Some(None)
    case OpInc =>
      if !v.Num? then None
      else if was.None? then Some(Some(v))
      else if !was.value.Num? then None
      else (match Add(was.value.kind, was.value.n, v.kind, v.n) case None => None case Some(x) => Some(Some(x)))
    case OpPush =>
      if was.None? then Some(Some(Arr([v])))
      else if was.value.Arr? then Some(Some(Arr(was.value.elems + [v])))
      else None
    case OpPull =>
      if was.None? then Some(None)
      else if was.value.Arr? then Some(Some(Arr(Without(was.value.elems, v))))
      else None
    case OpAddToSet =>
      if was.None? then Some(Some(Arr([v])))
      else if !was.value.Arr? then None
      else if EqualsAny(was.value.elems, v) then Some(was)
      else Some(Some(Arr(was.value.elems + [v])))
  }

  /** Pulling leaves the elements that are not equal to the value, each as often as it
      was, and nothing else. */
  lemma {:induction false} WithoutMeans(elems: seq<Value>, v: Value, x: Value)
    ensures multiset(Without(elems, v))[x] == if Compare(x, v) == 0 then 0 else multiset(elems)[x]
  {
    if elems != [] {
      WithoutMeans(elems[1..], v, x);
      assert elems == [elems[0]] + elems[1..];
    }
  }

  /** The operators on a field holding a number or an array. */
  lemma EffectMeans(v: Value, m: int, n: int, elems: seq<Value>)
    requires -0x8000_0000_0000_0000 <= n + m < 0x8000_0000_0000_0000
    ensures Effect(OpSet, v, None) == Effect(OpSet, v, Some(Num(Int64, n))) == Some(Some(v))
    ensures Effect(OpUnset, v, None) == Effect(OpUnset, v, Some(Arr(elems))) == Some(None)
    ensures Effect(OpInc, Num(Int64, m), Some(Num(Int64, n))) == Some(Some(Num(Int64, n + m)))
    ensures Effect(OpInc, Num(Int32, m), Some(Num(Int32, n))) ==
            Some(Some(Num(if -0x8000_0000 <= n + m < 0x8000_0000 then Int32 else Int64, n + m)))
    ensures Effect(OpInc, Num(Int64, m), None) == Some(Some(Num(Int64, m)))
    ensures Effect(OpInc, v, Some(Arr(elems))) == Effect(OpPush, v, Some(Num(Int64, n))) == None
    ensures Effect(OpPush, v, Some(Arr(elems))) == Some(Some(Arr(elems + [v])))
    ensures (exists i :: 0 <= i < |elems| && Compare(elems[i], v) == 0) ==>
              Effect(OpAddToSet, v, Some(Arr(elems))) == Some(Some(Arr(elems)))
    ensures (forall i :: 0 <= i < |elems| ==> Compare(elems[i], v) != 0) ==>
              Effect(OpAddToSet, v, Some(Arr(elems))) == Some(Some(Arr(elems + [v])))
  {
  }

  function ApplyOp(op: UpdateOp, d: Doc): Option<Doc> {
    match Effect(op.operator, op.value, Get(d, op.field))
    case None => None
    case Some(v) => Some(Put(d, op.field, v))
  }

  /** The operations one by one, first to last; a refusal refuses the whole update. */
  function ApplyAll(ops: seq<UpdateOp>, d: Doc): Option<Doc>
    decreases |ops|
  {
    if ops == [] then Some(d)
    else match ApplyAll(ops[..|ops| - 1], d)
      case None => None
      case Some(e) => ApplyOp(ops[|ops| - 1], e)
  }

  predicate Accepts(op: UpdateOp, d: Doc) {
    Effect(op.operator, op.value, Get(d, op.field)).Some?
  }

  function NewValue(op: UpdateOp, d: Doc): Option<Value>
    requires Accepts(op, d)
  {
    Effect(op.operator, op.value, Get(d, op.field)).value
  }

  /** With pairwise distinct fields each operation sees the original document. */
  lemma {:induction false} EachSeesOriginal(ops: seq<UpdateOp>, d: Doc)
    requires DistinctFields(ops)
    ensures ApplyAll(ops, d).Some? <==> forall op | op in ops :: Accepts(op, d)
    ensures ApplyAll(ops, d).Some? ==>
              var e := ApplyAll(ops, d).value;
              && (forall op | op in ops :: Get(e, op.field) == NewValue(op, d))
              && (forall k | !Stages(ops, k) :: Get(e, k) == Get(d, k))
    decreases |ops|
  {
    if ops != [] {
      var prefix, last := ops[..|ops| - 1], ops[|ops| - 1];
      EachSeesOriginal(prefix, d);
      assert last in ops && forall op :: op in ops <==> op in prefix || op == last;
      assert !Stages(prefix, last.field);
      if ApplyAll(prefix, d).Some? {
        var e := ApplyAll(prefix, d).value;
        assert Get(e, last.field) == Get(d, last.field);
        if ApplyOp(last, e).Some? {
          var r := ApplyOp(last, e).value;
          forall k | k != last.field ensures Get(r, k) == Get(e, k) {}
          forall k | !Stages(ops, k) ensures Get(r, k) == Get(d, k) {
            assert k != last.field;
            assert !Stages(prefix, k);
          }
        }
      }
    }
  }

  /** On pairwise distinct fields the order of application is irrelevant. */
  lemma OrderIrrelevant(ops: seq<UpdateOp>, others: seq<UpdateOp>, d: Doc)
    requires DistinctFields(ops) && DistinctFields(others)
    requires forall op :: op in ops <==> op in others
    ensures ApplyAll(ops, d) == ApplyAll(others, d)
  {
    EachSeesOriginal(ops, d);
    EachSeesOriginal(others, d);
    if ApplyAll(ops, d).Some? {
      var e, f := ApplyAll(ops, d).value, ApplyAll(others, d).value;
      forall k ensures Get(e, k) == Get(f, k) {
        if Stages(ops, k) {
          var op :| op in ops && op.field == k;
          assert op in others;
        } else {
          assert !Stages(others, k);
        }
      }
      SameContents(e, f);
    }
  }

  // ---- The update document ----

  datatype Entry = Entry(field: string, value: Value)
  datatype Group = Group(operator: UpdateOperator, entries: seq<Entry>)

  /** The operators in the order they were first used. */
  function FirstUses(ops: seq<UpdateOp>): seq<UpdateOperator>
    decreases |ops|
  {
    if ops == [] then []
    else
      var before := FirstUses(ops[..|ops| - 1]);
      var operator := ops[|ops| - 1].operator;
      if operator in before then before else before + [operator]
  }

  /** One operator's fields in the order they were staged. */
  function EntriesOf(ops: seq<UpdateOp>, operator: UpdateOperator): seq<Entry>
    decreases |ops|
  {
    if ops == [] then []
    else
      var before := EntriesOf(ops[..|ops| - 1], operator);
      var op := ops[|ops| - 1];
      if op.operator == operator then before + [Entry(op.field, op.value)] else before
  }

  function Grouped(ops: seq<UpdateOp>): seq<Group> {
    var uses := FirstUses(ops);
    seq(|uses|, i requires 0 <= i < |uses| => Group(uses[i], EntriesOf(ops, uses[i])))
  }

  predicate NoRepeat(uses: seq<UpdateOperator>) {
    forall i, j :: 0 <= i < j < |uses| ==> uses[i] != uses[j]
  }

  lemma AppendNew(uses: seq<UpdateOperator>, operator: UpdateOperator)
    requires NoRepeat(uses) && operator !in uses
    ensures NoRepeat(uses + [operator])
  {
  }

  lemma {:induction false} FirstUsesDistinct(ops: seq<UpdateOp>)
    ensures NoRepeat(FirstUses(ops))
    ensures forall o :: o in FirstUses(ops) <==> exists op :: op in ops && op.operator == o
    decreases |ops|
  {
    if ops != [] {
      var prefix, last := ops[..|ops| - 1], ops[|ops| - 1];
      FirstUsesDistinct(prefix);
      assert last in ops && forall op :: op in ops <==> op in prefix || op == last;
      if last.operator !in FirstUses(prefix) {
        AppendNew(FirstUses(prefix), last.operator);
      }
    }
  }

  /** compileUpdate: each operation goes to its operator's entry, found by scanning
      and extended in place, or opens a new one at the end. */
  method CompileUpdate(ops: seq<UpdateOp>) returns (update: seq<Group>)
    ensures update == Grouped(ops)
  {
    update := [];
    for n := 0 to |ops|
      invariant update == Grouped(ops[..n])
    {
      var op := ops[n];
      var entry := Entry(op.field, op.value);
      ghost var uses := FirstUses(ops[..n]);
      FirstUsesDistinct(ops[..n]);
      var index := -1;
      for i := 0 to |update|
        invariant index == -1 && forall k :: 0 <= k < i ==> update[k].operator != op.operator
      {
        if update[i].operator == op.operator {
          index := i;
          break;
        }
      }
      GroupedStep(ops, n, index);
      if index < 0 {
        update := update + [Group(op.operator, [entry])];
      } else {
        update := update[index := Group(op.operator, update[index].entries + [entry])];
      }
    }
    assert ops[..|ops|] == ops;
  }

  lemma {:induction false} NoEntries(ops: seq<UpdateOp>, operator: UpdateOperator)
    requires forall op | op in ops :: op.operator != operator
    ensures EntriesOf(ops, operator) == []
    decreases |ops|
  {
    if ops != [] { NoEntries(ops[..|ops| - 1], operator); }
  }

  /** One more operation, seen in the grouping. */
  lemma GroupedStep(ops: seq<UpdateOp>, n: nat, index: int)
    requires n < |ops|
    requires var g := Grouped(ops[..n]);
             if index < 0 then forall k :: 0 <= k < |g| ==> g[k].operator != ops[n].operator
             else index < |g| && g[index].operator == ops[n].operator
    ensures var g, op := Grouped(ops[..n]), ops[n];
            Grouped(ops[..n + 1]) ==
            if index < 0 then g + [Group(op.operator, [Entry(op.field, op.value)])]
            else g[index := Group(op.operator, g[index].entries + [Entry(op.field, op.value)])]
  {
    var prefix, op := ops[..n], ops[n];
    assert ops[..n + 1][..n] == prefix && ops[..n + 1][n] == op;
    var uses := FirstUses(prefix);
    FirstUsesDistinct(prefix);
    var g := Grouped(prefix);
    assert NoRepeat(uses);
    assert forall k :: 0 <= k < |uses| ==> g[k].operator == uses[k];
    if index < 0 {
      assert op.operator !in uses;
      NoEntries(prefix, op.operator);
      var grown := uses + [op.operator];
      assert FirstUses(ops[..n + 1]) == grown;
      assert EntriesOf(ops[..n + 1], op.operator) == [Entry(op.field, op.value)];
      forall k | 0 <= k < |uses| ensures EntriesOf(ops[..n + 1], grown[k]) == EntriesOf(prefix, uses[k]) {
        assert uses[k] in uses;
      }
      assert Grouped(ops[..n + 1]) == g + [Group(op.operator, [Entry(op.field, op.value)])];
    } else {
      assert uses[index] == op.operator && op.operator in uses;
      forall k | 0 <= k < |uses| && k != index
        ensures EntriesOf(ops[..n + 1], uses[k]) == EntriesOf(prefix, uses[k])
      {
        if k < index { assert uses[k] != uses[index]; } else { assert uses[index] != uses[k]; }
      }
      assert FirstUses(ops[..n + 1]) == uses;
      assert EntriesOf(ops[..n + 1], uses[index]) == g[index].entries + [Entry(op.field, op.value)];
    }
  }

  /** The update document read back as operations, operator by operator. */
  function Ungrouped(update: seq<Group>): seq<UpdateOp> {
    if update == [] then [] else Spread(update[0].operator, update[0].entries) + Ungrouped(update[1..])
  }

  function Spread(operator: UpdateOperator, entries: seq<Entry>): (r: seq<UpdateOp>)
    ensures |r| == |entries|
  {
    seq(|entries|, i requires 0 <= i < |entries| => UpdateOp(operator, entries[i].field, entries[i].value))
  }

  lemma {:induction false} UngroupedLength(update: seq<Group>, tail: seq<Group>)
    ensures |Ungrouped(update + tail)| == |Ungrouped(update)| + |Ungrouped(tail)|
    ensures Ungrouped(update + tail) == Ungrouped(update) + Ungrouped(tail)
  {
    if update == [] {
      assert update + tail == tail;
    } else {
      assert (update + tail)[1..] == update[1..] + tail;
      UngroupedLength(update[1..], tail);
    }
  }

  lemma {:induction false} CountUngrouped(ops: seq<UpdateOp>)
    ensures multiset(Ungrouped(Grouped(ops))) == multiset(ops)
    decreases |ops|
  {
    if ops == [] {
      assert Grouped(ops) == [];
    } else {
      var n := |ops| - 1;
      var prefix, op := ops[..n], ops[n];
      CountUngrouped(prefix);
      assert ops == prefix + [op] && ops[..n + 1] == ops;
      FirstUsesDistinct(prefix);
      var g, entry := Grouped(prefix), Entry(op.field, op.value);
      var uses := FirstUses(prefix);
      assert forall k :: 0 <= k < |uses| ==> g[k].operator == uses[k];
      if op.operator in uses {
        var i :| 0 <= i < |uses| && uses[i] == op.operator;
        GroupedStep(ops, n, i);
        ExtendOne(g, i, entry);
      } else {
        GroupedStep(ops, n, -1);
        UngroupedLength(g, [Group(op.operator, [entry])]);
        assert Spread(op.operator, [entry]) == [op];
        assert Ungrouped([Group(op.operator, [entry])]) == [op];
      }
    }
  }

  lemma ExtendOne(g: seq<Group>, i: nat, entry: Entry)
    requires i < |g|
    ensures var op := UpdateOp(g[i].operator, entry.field, entry.value);
            multiset(Ungrouped(g[i := Group(g[i].operator, g[i].entries + [entry])])) ==
            multiset(Ungrouped(g)) + multiset([op])
  {
    var grown := Group(g[i].operator, g[i].entries + [entry]);
    var op := UpdateOp(g[i].operator, entry.field, entry.value);
    var left, right := g[..i], g[i + 1..];
    assert g == left + ([g[i]] + right);
    assert g[i := grown] == left + ([grown] + right);
    UngroupedLength(left, [g[i]] + right);
    UngroupedLength(left, [grown] + right);
    assert ([g[i]] + right)[1..] == right && ([grown] + right)[1..] == right;
    assert Spread(grown.operator, grown.entries) == Spread(g[i].operator, g[i].entries) + [op];
  }

  lemma PermutationKeepsDistinct(ops: seq<UpdateOp>, others: seq<UpdateOp>)
    requires DistinctFields(ops) && multiset(others) == multiset(ops)
    ensures DistinctFields(others)
  {
    forall i, j | 0 <= i < j < |others| ensures others[i].field != others[j].field {
      var a, b := others[i], others[j];
      if a.field == b.field {
        assert a in multiset(others) && b in multiset(others);
        assert a in ops && b in ops;
        assert a == b;
        TwoOccurrences(others, i, j);
        OnceInDistinct(ops, a);
        assert false;
      }
    }
  }

  lemma TwoOccurrences(ops: seq<UpdateOp>, i: nat, j: nat)
    requires i < j < |ops| && ops[i] == ops[j]
    ensures multiset(ops)[ops[i]] >= 2
  {
    assert ops == ops[..i] + [ops[i]] + ops[i + 1..j] + [ops[j]] + ops[j + 1..];
  }

  lemma {:induction false} OnceInDistinct(ops: seq<UpdateOp>, op: UpdateOp)
    requires DistinctFields(ops)
    ensures multiset(ops)[op] <= 1
    decreases |ops|
  {
    if ops != [] {
      var n := |ops| - 1;
      assert ops == ops[..n] + [ops[n]];
      OnceInDistinct(ops[..n], op);
      if ops[n] == op { assert op !in ops[..n]; }
    }
  }

  /** The compiled update, in whatever order the server applies its entries, has the
      effect of the staged operations one by one in call order, refusals included. */
  lemma CompiledMeansStaged(ops: seq<UpdateOp>, d: Doc, applied: seq<UpdateOp>)
    requires DistinctFields(ops)
    requires multiset(applied) == multiset(Ungrouped(Grouped(ops)))
    ensures ApplyAll(applied, d) == ApplyAll(ops, d)
  {
    CountUngrouped(ops);
    PermutationKeepsDistinct(ops, applied);
    forall op ensures op in ops <==> op in applied {
      assert op in multiset(ops) <==> op in multiset(applied);
    }
    OrderIrrelevant(ops, applied, d);
  }

  // ---- What Update sends ----

  /** timestampedOps, its scan and its append. */
  function TimestampedOps(q: Query, ops: seq<UpdateOp>, now: Value): seq<UpdateOp> {
    if !q.meta.timestamps || q.skipTimestamps || Stages(ops, UPDATED_AT) then ops
    else ops + [UpdateOp(OpSet, UPDATED_AT, now)]
  }

  /** What Update answers before it sends, or the document it sends. */
  function StagedUpdateOf(q: Query, now: Value): Result<seq<Group>> {
    if q.err.Some? then Err(q.err.value)
    else if q.updates == [] then Err(InvalidQuery("Update"))
    else Ok(Grouped(TimestampedOps(q, q.updates, now)))
  }

  method StagedUpdate(q: Query, now: Value) returns (r: Result<seq<Group>>)
    ensures r == StagedUpdateOf(q, now)
  {
    if q.err.Some? {
      return Err(q.err.value);
    }
    if q.updates == [] {
      return Err(InvalidQuery("Update"));
    }
    var update := CompileUpdate(TimestampedOps(q, q.updates, now));
    return Ok(update);
  }

  /** For every chain of builder calls: what Update sends has the effect of the
      chain's staged operations in call order, followed by the refresh of updated_at
      unless the model has no timestamps, the caller opted out, or the chain writes
      updated_at itself, when nothing is added; no field is targeted twice. */
  lemma UpdateMeansChain(meta: Meta, calls: seq<Call>, now: Value, d: Doc)
    ensures var q := Build(NewQuery(meta), calls);
            var ops := TimestampedOps(q, q.updates, now);
            && DistinctFields(ops)
            && ApplyAll(Ungrouped(Grouped(ops)), d) ==
               match ApplyAll(q.updates, d)
               case None => None
               case Some(e) =>
                 if meta.timestamps && !q.skipTimestamps && !Stages(q.updates, "updated_at")
                 then Some(e["updated_at" := now])
                 else Some(e)
  {
    var q := Build(NewQuery(meta), calls);
    var ops := TimestampedOps(q, q.updates, now);
    ChainKeepsInvariant(meta, calls);
    MetaKept(meta, calls);
    forall i, j | 0 <= i < j < |ops| ensures ops[i].field != ops[j].field {
      if j == |q.updates| { assert q.updates[i] in q.updates; }
    }
    CompiledMeansStaged(ops, d, Ungrouped(Grouped(ops)));
    if ops != q.updates {
      assert ops[..|ops| - 1] == q.updates;
    }
  }

  lemma MetaKept(meta: Meta, calls: seq<Call>)
    ensures Build(NewQuery(meta), calls).meta == meta
  {
    FragmentsAreFold(meta, calls, map[]);
  }
}
