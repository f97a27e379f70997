/** Insertion into an ordered sequence, for the library sorts the source calls. */
module Sorting {
  function Insert<T(!new)>(x: T, s: seq<T>, before: (T, T) -> bool): (r: seq<T>)
    ensures |r| == |s| + 1
    ensures forall y :: y in r <==> y == x || y in s
  {
    if s == [] || before(x, s[0]) then [x] + s else [s[0]] + Insert(x, s[1..], before)
  }

  function Sort<T(!new)>(s: seq<T>, before: (T, T) -> bool): (r: seq<T>)
    ensures |r| == |s|
    ensures forall y :: y in r <==> y in s
  {
    if s == [] then [] else Insert(s[0], Sort(s[1..], before), before)
  }

  predicate Ordered<T>(s: seq<T>, before: (T, T) -> bool) {
    forall i, j :: 0 <= i < j < |s| ==> before(s[i], s[j])
  }

  ghost predicate Transitive<T(!new)>(before: (T, T) -> bool) {
    forall a, b, c :: before(a, b) && before(b, c) ==> before(a, c)
  }

  lemma {:induction false} InsertOrdered<T(!new)>(x: T, s: seq<T>, before: (T, T) -> bool)
    requires Transitive(before) && Ordered(s, before)
    requires forall y | y in s :: before(x, y) || before(y, x)
    ensures Ordered(Insert(x, s, before), before)
  {
    if s != [] {
      if before(x, s[0]) {
        forall j | 0 < j < |s| ensures before(x, s[j]) { assert before(s[0], s[j]); }
      } else {
        InsertOrdered(x, s[1..], before);
        var rest := Insert(x, s[1..], before);
        forall j | 0 <= j < |rest| ensures before(s[0], rest[j]) {
          assert rest[j] in rest;
          if rest[j] != x {
            var k :| 0 <= k < |s[1..]| && s[1..][k] == rest[j];
            assert before(s[0], s[k + 1]);
          }
        }
      }
    }
  }

  /** A transitive relation that decides every two members at different places puts
      them in order. */
  lemma {:induction false} SortOrdered<T(!new)>(s: seq<T>, before: (T, T) -> bool)
    requires Transitive(before)
    requires forall i, j :: 0 <= i < j < |s| ==> before(s[i], s[j]) || before(s[j], s[i])
    ensures Ordered(Sort(s, before), before)
  {
    if s != [] {
      SortOrdered(s[1..], before);
      forall y | y in s[1..] ensures before(s[0], y) || before(y, s[0]) {
        var k :| 0 <= k < |s[1..]| && s[1..][k] == y;
        assert s[k + 1] == y;
      }
      InsertOrdered(s[0], Sort(s[1..], before), before);
    }
  }
}
