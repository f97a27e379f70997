/** Go slices on the heap: a backing array, a length, and the array's own length as
    capacity. Append writes into spare capacity; CloneAppend never does
    (odm/query.go). */
module Slices {
  datatype Slice<T> = Slice(arr: array<T>, len: nat) {
    predicate Valid() {
      len <= arr.Length
    }

    function Contents(): (s: seq<T>)
      requires Valid()
      reads arr
      ensures |s| == len
    {
      arr[..len]
    }

    predicate Spare() {
      len < arr.Length
    }
  }

  /** make(S, 0, capacity) */
  method Make<T(0)>(capacity: nat) returns (s: Slice<T>)
    ensures fresh(s.arr) && s.arr.Length == capacity && s.len == 0 && s.Valid()
  {
    var backing := new T[capacity];
    s := Slice(backing, 0);
  }

  /** Go's append: in place when it fits, otherwise into a new array whose extra
      capacity is the runtime's choice. */
  method Append<T(0)>(s: Slice<T>, extra: seq<T>, growth: nat) returns (r: Slice<T>)
    requires s.Valid()
    modifies s.arr
    ensures r.Valid() && r.Contents() == old(s.Contents()) + extra
    ensures s.len + |extra| <= s.arr.Length ==> r.arr == s.arr
    ensures s.len + |extra| > s.arr.Length ==>
              fresh(r.arr) && r.arr.Length == s.len + |extra| + growth && s.arr[..] == old(s.arr[..])
    ensures s.Contents() == old(s.Contents())
  {
    if s.len + |extra| <= s.arr.Length {
      forall i | 0 <= i < |extra| { s.arr[s.len + i] := extra[i]; }
      r := Slice(s.arr, s.len + |extra|);
    } else {
      var grown := new T[s.len + |extra| + growth];
      forall i | 0 <= i < s.len { grown[i] := s.arr[i]; }
      forall i | 0 <= i < |extra| { grown[s.len + i] := extra[i]; }
      r := Slice(grown, s.len + |extra|);
    }
  }

  /** cloneAppend: a copy with extra appended, always on a fresh array with no
      capacity to spare. It writes nothing that existed before. */
  method CloneAppend<T(0)>(s: Slice<T>, extra: seq<T>) returns (r: Slice<T>)
    requires s.Valid()
    ensures r.Valid() && !r.Spare() && fresh(r.arr)
    ensures r.Contents() == s.Contents() + extra
  {
    var out := Make<T>(s.len + |extra|);
    out := Append(out, s.Contents(), 0);
    r := Append(out, extra, 0);
  }

  /** What cloneAppend is there to avoid: appending two different entries to one
      parent with capacity to spare leaves the first branch holding the second
      branch's entry. */
  method PlainAppendAliases<T(0)>(parent: Slice<T>, x: T, y: T) returns (left: Slice<T>, right: Slice<T>)
    requires parent.Valid() && parent.Spare()
    modifies parent.arr
    ensures left.Valid() && left.Contents() == old(parent.Contents()) + [y]
    ensures right.Valid() && right.Contents() == old(parent.Contents()) + [y]
  {
    left := Append(parent, [x], 0);
    right := Append(parent, [y], 0);
  }
}
