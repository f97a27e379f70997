/** BSON values as the package meets them: typed, with MongoDB's cross-type sort
    order. A document is a finite map from a field path to a value, so a missing
    field and an explicit null stay different things. */
module Bson {
  datatype Option<T> = None | Some(value: T)

  /** The two integer encodings. They are different bytes but the same number. */
  datatype NumKind = Int32 | Int64

  datatype Value =
    | Null
    | Num(kind: NumKind, n: int)
    | Str(s: string)
    | Arr(elems: seq<Value>)
    | Oid(id: int)
    | Bool(b: bool)
    | Date(ms: int)

  type Doc = map<string, Value>

  const ID := "_id"

  function Get(d: Doc, field: string): Option<Value> {
    if field in d then Some(d[field]) else None
  }

  function Put(d: Doc, field: string, v: Option<Value>): Doc {
    match v
    case None => d - {field}
    case Some(x) => d[field := x]
  }

  lemma SameContents(d: Doc, e: Doc)
    requires forall k :: Get(d, k) == Get(e, k)
    ensures d == e
  {
    assert forall k :: (k in d <==> Get(d, k).Some?) && (k in e <==> Get(e, k).Some?);
    assert forall k :: k in d ==> Get(d, k) == Some(d[k]) && Get(e, k) == Some(e[k]);
  }

  /** The BSON type bracket, in MongoDB's sort order. */
  function Bracket(v: Value): int {
    match v
    case Null => 0
    case Num(_, _) => 1
    case Str(_) => 2
    case Arr(_) => 3
    case Oid(_) => 4
    case Bool(_) => 5
    case Date(_) => 6
  }

  predicate Scalar(v: Value) {
    !v.Arr?
  }

  function Sign(a: int, b: int): int {
    if a < b then -1 else if a == b then 0 else 1
  }

  function CompareStr(s: string, t: string): int {
    if s == [] then (if t == [] then 0 else -1)
    else if t == [] then 1
    else if s[0] != t[0] then Sign(s[0] as int, t[0] as int)
    else CompareStr(s[1..], t[1..])
  }

  /** The server's comparison: bracket first, then value. Zero is the server's
      equality, which is coarser than equality of bytes. */
  function Compare(a: Value, b: Value): int
    decreases a
  {
    if Bracket(a) != Bracket(b) then Sign(Bracket(a), Bracket(b))
    else match a
      case Null => 0
      case Num(_, n) => Sign(n, b.n)
      case Str(s) => CompareStr(s, b.s)
      case Arr(es) => CompareSeq(es, b.elems)
      case Oid(id) => Sign(id, b.id)
      case Bool(x) => Sign(if x then 1 else 0, if b.b then 1 else 0)
      case Date(ms) => Sign(ms, b.ms)
  }

  function CompareSeq(a: seq<Value>, b: seq<Value>): int
    decreases a
  {
    if a == [] then (if b == [] then 0 else -1)
    else if b == [] then 1
    else
      var c := Compare(a[0], b[0]);
      if c != 0 then c else CompareSeq(a[1..], b[1..])
  }

  lemma {:induction false} CompareStrOpposite(s: string, t: string)
    ensures CompareStr(t, s) == -CompareStr(s, t)
    ensures CompareStr(s, t) == 0 <==> s == t
  {
    if s != [] && t != [] && s[0] == t[0] {
      CompareStrOpposite(s[1..], t[1..]);
      assert s == [s[0]] + s[1..] && t == [t[0]] + t[1..];
    }
  }

  lemma {:induction false} CompareStrChain(s: string, t: string, u: string)
    requires CompareStr(s, t) <= 0 && CompareStr(t, u) <= 0
    ensures CompareStr(s, u) <= 0
    ensures CompareStr(s, u) == 0 <==> CompareStr(s, t) == 0 && CompareStr(t, u) == 0
  {
    if s != [] && t != [] && u != [] && s[0] == t[0] && t[0] == u[0] {
      CompareStrChain(s[1..], t[1..], u[1..]);
    }
  }

  /** Strings compare at their first difference, a proper prefix being smaller. */
  predicate FirstDiffers(s: string, t: string, n: nat) {
    n <= |s| && n < |t| && s[..n] == t[..n] && (n == |s| || s[n] < t[n])
  }

  lemma {:induction false} CompareStrMeans(s: string, t: string)
    ensures CompareStr(s, t) < 0 <==> exists n: nat :: FirstDiffers(s, t, n)
  {
    if s == [] || t == [] || s[0] != t[0] {
      if t != [] && (s == [] || s[0] < t[0]) { assert FirstDiffers(s, t, 0); }
    } else {
      CompareStrMeans(s[1..], t[1..]);
      if n: nat :| FirstDiffers(s[1..], t[1..], n) {
        assert s[..n + 1] == [s[0]] + s[1..][..n] && t[..n + 1] == [t[0]] + t[1..][..n];
        assert FirstDiffers(s, t, n + 1);
      }
      if n: nat :| FirstDiffers(s, t, n) {
        assert n > 0;
        assert s[1..][..n - 1] == s[..n][1..] && t[1..][..n - 1] == t[..n][1..];
        assert FirstDiffers(s[1..], t[1..], n - 1);
      }
    }
  }

  /** The order on the values the model knows: numbers by size whatever their encoding,
      dates and ids by size, false before true; null, numbers, strings, arrays, ids,
      booleans, dates in this order. */
  lemma CompareMeans(k: NumKind, l: NumKind, m: int, n: int, s: string, es: seq<Value>, b: bool)
    ensures Compare(Num(k, m), Num(l, n)) < 0 <==> m < n
    ensures Compare(Date(m), Date(n)) < 0 <==> m < n
    ensures Compare(Oid(m), Oid(n)) < 0 <==> m < n
    ensures Compare(Bool(false), Bool(true)) < 0
    ensures Compare(Null, Num(k, m)) < 0 && Compare(Num(k, m), Str(s)) < 0 && Compare(Str(s), Arr(es)) < 0
    ensures Compare(Arr(es), Oid(m)) < 0 && Compare(Oid(m), Bool(b)) < 0 && Compare(Bool(b), Date(m)) < 0
  {
  }

  /** Swapping the operands flips the sign. */
  lemma {:induction false} CompareOpposite(a: Value, b: Value)
    ensures Compare(b, a) == -Compare(a, b)
    decreases a
  {
    if a.Str? && b.Str? {
      CompareStrOpposite(a.s, b.s);
    } else if a.Arr? && b.Arr? {
      CompareSeqOpposite(a.elems, b.elems);
    }
  }

  lemma {:induction false} CompareSeqOpposite(a: seq<Value>, b: seq<Value>)
    ensures CompareSeq(b, a) == -CompareSeq(a, b)
    decreases a
  {
    if a != [] && b != [] {
      CompareOpposite(a[0], b[0]);
      CompareSeqOpposite(a[1..], b[1..]);
    }
  }

  /** The order is transitive, and a chain of two steps is an equality exactly
      when both steps are. */
  lemma {:induction false} CompareChain(a: Value, b: Value, c: Value)
    requires Compare(a, b) <= 0 && Compare(b, c) <= 0
    ensures Compare(a, c) <= 0
    ensures Compare(a, c) == 0 <==> Compare(a, b) == 0 && Compare(b, c) == 0
    decreases a
  {
    if a.Str? && b.Str? && c.Str? {
      CompareStrChain(a.s, b.s, c.s);
    } else if a.Arr? && b.Arr? && c.Arr? {
      CompareSeqChain(a.elems, b.elems, c.elems);
    }
  }

  lemma {:induction false} CompareSeqChain(a: seq<Value>, b: seq<Value>, c: seq<Value>)
    requires CompareSeq(a, b) <= 0 && CompareSeq(b, c) <= 0
    ensures CompareSeq(a, c) <= 0
    ensures CompareSeq(a, c) == 0 <==> CompareSeq(a, b) == 0 && CompareSeq(b, c) == 0
    decreases a
  {
    if a != [] && b != [] && c != [] {
      CompareChain(a[0], b[0], c[0]);
      if Compare(a[0], b[0]) == 0 && Compare(b[0], c[0]) == 0 {
        CompareSeqChain(a[1..], b[1..], c[1..]);
      }
    }
  }

  /** Equal bytes are equal for the server. */
  lemma CompareSelf(a: Value)
    ensures Compare(a, a) == 0
  {
    CompareOpposite(a, a);
  }

  /** Server-equal values compare alike with everything. */
  lemma CompareCongruent(a: Value, b: Value, c: Value)
    requires Compare(a, b) == 0
    ensures Compare(a, c) == Compare(b, c)
    ensures Bracket(a) == Bracket(b)
  {
    CompareOpposite(a, b);
    CompareOpposite(a, c);
    CompareOpposite(b, c);
    if Compare(a, c) <= 0 { CompareChain(b, a, c); } else { CompareChain(c, a, b); }
    CompareRange(a, c);
    CompareRange(b, c);
  }

  lemma {:induction false} CompareStrRange(s: string, t: string)
    ensures -1 <= CompareStr(s, t) <= 1
  {
    if s != [] && t != [] && s[0] == t[0] { CompareStrRange(s[1..], t[1..]); }
  }

  lemma {:induction false} CompareRange(a: Value, b: Value)
    ensures -1 <= Compare(a, b) <= 1
    decreases a
  {
    if a.Str? && b.Str? {
      CompareStrRange(a.s, b.s);
    } else if a.Arr? && b.Arr? {
      CompareSeqRange(a.elems, b.elems);
    }
  }

  lemma {:induction false} CompareSeqRange(a: seq<Value>, b: seq<Value>)
    ensures -1 <= CompareSeq(a, b) <= 1
    decreases a
  {
    if a != [] && b != [] {
      CompareRange(a[0], b[0]);
      CompareSeqRange(a[1..], b[1..]);
    }
  }
}
