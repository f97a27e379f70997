/** The directory tree rebuilt from a flat listing of object keys (storage/s3/s3.go). */
module Directories {
  import opened Bson
  import F = Filter
  import Sorting

  predicate HasSuffix(s: string, t: string) {
    |t| <= |s| && s[|s| - |t|..] == t
  }

  function TrimPrefix(s: string, p: string): string {
    if p <= s then s[|p|..] else s
  }

  /** strings.TrimSuffix(s, "/") */
  function TrimSlash(s: string): string {
    if HasSuffix(s, "/") then s[..|s| - 1] else s
  }

  function TrimLeft(s: string): string {
    if s != [] && s[0] == '/' then TrimLeft(s[1..]) else s
  }

  function TrimRight(s: string): string {
    if s != [] && s[|s| - 1] == '/' then TrimRight(s[..|s| - 1]) else s
  }

  /** strings.Trim(s, "/") */
  function Trim(s: string): string {
    TrimRight(TrimLeft(s))
  }

  /** strings.Split(s, "/") */
  function Split(s: string): (parts: seq<string>)
    ensures |parts| >= 1
  {
    if s == [] then [[]]
    else
      var rest := Split(s[1..]);
      if s[0] == '/' then [[]] + rest else [[s[0]] + rest[0]] + rest[1..]
  }

  /** strings.Join(parts, "/") */
  function Join(parts: seq<string>): string {
    if parts == [] then []
    else if |parts| == 1 then parts[0]
    else parts[0] + "/" + Join(parts[1..])
  }

  lemma JoinFirst(c: char, parts: seq<string>)
    requires parts != []
    ensures Join([[c] + parts[0]] + parts[1..]) == [c] + Join(parts)
  {
    var longer := [[c] + parts[0]] + parts[1..];
    assert longer[1..] == parts[1..];
    if |parts| == 1 { assert longer == [[c] + parts[0]]; }
  }

  /** Joining the first segments of a path gives one of its ancestors... */
  lemma {:induction false} JoinedIsAncestor(s: string, i: nat)
    requires 1 <= i < |Split(s)|
    ensures Join(Split(s)[..i]) + "/" <= s
  {
    var rest := Split(s[1..]);
    if s[0] == '/' {
      if i == 1 {
        assert Split(s)[..1] == [[]];
      } else {
        JoinedIsAncestor(s[1..], i - 1);
        var parts := Split(s)[..i];
        assert parts[1..] == rest[..i - 1];
        assert Join(parts) == "/" + Join(rest[..i - 1]);
        assert s == [s[0]] + s[1..];
      }
    } else {
      JoinedIsAncestor(s[1..], i);
      JoinFirst(s[0], rest[..i]);
      assert Split(s)[..i] == [[s[0]] + rest[..i][0]] + rest[..i][1..];
      assert s == [s[0]] + s[1..];
    }
  }

  /** ...and every ancestor is reached that way, empty segments or not. */
  lemma {:induction false} AncestorIsJoined(s: string, p: string) returns (i: nat)
    requires p + "/" <= s
    ensures 1 <= i < |Split(s)| && Join(Split(s)[..i]) == p
    decreases |p|
  {
    var rest := Split(s[1..]);
    if p == [] {
      assert s[0] == "/"[0];
      assert Split(s)[..1] == [[]];
      i := 1;
    } else {
      assert s[0] == (p + "/")[0] == p[0];
      assert p[1..] + "/" <= s[1..] by { assert (p + "/")[1..] == p[1..] + "/"; }
      var j := AncestorIsJoined(s[1..], p[1..]);
      if s[0] == '/' {
        i := j + 1;
        assert Split(s)[..i][1..] == rest[..j];
        assert p == "/" + p[1..];
      } else {
        i := j;
        JoinFirst(s[0], rest[..j]);
        assert Split(s)[..i] == [[s[0]] + rest[..j][0]] + rest[..j][1..];
      }
    }
  }

  predicate Increasing(s: seq<string>) {
    forall i, j :: 0 <= i < j < |s| ==> CompareStr(s[i], s[j]) < 0
  }

  predicate Distinct(s: seq<string>) {
    forall i, j :: 0 <= i < j < |s| ==> s[i] != s[j]
  }

  /** sort.Strings */
  function Sorted(s: seq<string>): (r: seq<string>)
    ensures forall y :: y in r <==> y in s
  {
    Sorting.Sort(s, (x, y) => CompareStr(x, y) < 0)
  }

  lemma SortedIncreases(s: seq<string>)
    requires Distinct(s)
    ensures Increasing(Sorted(s))
  {
    var before := (x: string, y: string) => CompareStr(x, y) < 0;
    forall x, y, z | before(x, y) && before(y, z) ensures before(x, z) { CompareStrChain(x, y, z); }
    forall i, j | 0 <= i < j < |s| ensures before(s[i], s[j]) || before(s[j], s[i]) {
      CompareStrOpposite(s[i], s[j]);
    }
    Sorting.SortOrdered(s, before);
    assert Sorting.Sort(s, before) == Sorted(s);
  }

  function Key(prefix: string, p: string): string {
    prefix + TrimPrefix(p, "/")
  }

  function Unkey(prefix: string, key: string): string {
    TrimPrefix(key, prefix)
  }

  /** The prefix list asks the server for. */
  function ListPrefix(prefix: string, dir: string): string {
    var p := TrimSlash(Key(prefix, dir));
    if p != "" then p + "/" else p
  }

  /** The prefix AllDirectories keeps only paths under. */
  function DirPrefix(dir: string): string {
    var p := Trim(dir);
    if p != "" then p + "/" else p
  }

  /** Some listed key lies below the path, or is its marker. */
  ghost predicate Below(prefix: string, keys: seq<string>, p: string) {
    exists k :: k in keys && p + "/" <= Unkey(prefix, k)
  }

  /** What AllDirectories should report of a listing. */
  ghost predicate Reported(prefix: string, dir: string, keys: seq<string>, p: string) {
    p != "" && DirPrefix(dir) <= p && Below(prefix, keys, p)
  }

  /** list: the items of the listing, up to an error item (None), which fails it. */
  method List(listing: seq<Option<string>>) returns (r: F.Result<seq<string>>)
    ensures r.Ok? <==> None !in listing
    ensures r.Ok? ==> |r.value| == |listing| && forall i :: 0 <= i < |listing| ==> listing[i] == Some(r.value[i])
  {
    var items: seq<string> := [];
    for n := 0 to |listing|
      invariant |items| == n && forall i :: 0 <= i < n ==> listing[i] == Some(items[i])
    {
      if listing[n].None? { return F.Err(F.ServerFailed); }
      items := items + [listing[n].value];
    }
    return F.Ok(items);
  }

  /** The closure add: skip the root, paths outside dir, and repeats. */
  method Add(dirs: seq<string>, seen: set<string>, dirPrefix: string, p: string)
    returns (dirs': seq<string>, seen': set<string>)
    requires Distinct(dirs) && (forall x :: x in seen <==> x in dirs)
    ensures Distinct(dirs') && (forall x :: x in seen' <==> x in dirs')
    ensures forall x :: x in dirs' <==> x in dirs || (x == p && p != "" && dirPrefix <= p)
  {
    if p == "" || !(dirPrefix <= p) || p in seen { return dirs, seen; }
    return dirs + [p], seen + {p};
  }

  /** The path is one the body adds for this key. */
  ghost predicate AddedFor(rel: string, p: string) {
    p != "" && p + "/" <= rel
  }

  /** Stripping one trailing slash splits the paths under a key in two: the ancestors
      of what is left, and, for a marker, what is left itself. */
  lemma MarkerOrAncestor(rel: string, p: string)
    requires p != ""
    ensures p + "/" <= rel <==>
            || p + "/" <= TrimSlash(rel)
            || (HasSuffix(rel, "/") && p == TrimSlash(rel))
  {
    var t := TrimSlash(rel);
    if HasSuffix(rel, "/") {
      assert rel == t + "/";
      if p + "/" <= rel && |p| < |t| {
        assert (p + "/") == rel[..|p| + 1] == t[..|p| + 1];
      } else if p + "/" <= rel {
        assert p == rel[..|p|] == t;
      }
    }
  }

  /** The body of the loop over the listing, for one key. */
  method AddKey(dirs: seq<string>, seen: set<string>, dirPrefix: string, rel0: string)
    returns (dirs': seq<string>, seen': set<string>)
    requires Distinct(dirs) && (forall x :: x in seen <==> x in dirs)
    ensures Distinct(dirs') && (forall x :: x in seen' <==> x in dirs')
    ensures forall x :: x in dirs' <==> x in dirs || (dirPrefix <= x && AddedFor(rel0, x))
  {
    dirs', seen' := dirs, seen;
    var isMarker := HasSuffix(rel0, "/");
    var rel := TrimSlash(rel0);
    forall p | p != "" ensures AddedFor(rel0, p) <==> p + "/" <= rel || (isMarker && p == rel) {
      MarkerOrAncestor(rel0, p);
    }
    if rel == "" { return; }
    var segments := Split(rel);
    for i := 1 to |segments|
      invariant Distinct(dirs') && (forall x :: x in seen' <==> x in dirs')
      invariant forall x :: x in dirs' <==>
        x in dirs || (x != "" && dirPrefix <= x && exists j :: 1 <= j < i && Join(segments[..j]) == x)
    {
      dirs', seen' := Add(dirs', seen', dirPrefix, Join(segments[..i]));
    }
    forall x ensures (exists j :: 1 <= j < |segments| && Join(segments[..j]) == x) <==> x + "/" <= rel {
      if x + "/" <= rel {
        var j := AncestorIsJoined(rel, x);
      } else if j :| 1 <= j < |segments| && Join(segments[..j]) == x {
        JoinedIsAncestor(rel, j);
      }
    }
    if isMarker {
      dirs', seen' := Add(dirs', seen', dirPrefix, rel);
    }
  }

  /** AllDirectories: in order and without repeats, exactly the paths under dir that
      are a proper ancestor of some listed key or an explicit marker, for any keys. */
  method AllDirectories(prefix: string, dir: string, listing: seq<Option<string>>) returns (r: F.Result<seq<string>>)
    ensures r.Ok? <==> None !in listing
    ensures r.Ok? ==> Increasing(r.value)
    ensures r.Ok? ==> forall p :: p in r.value <==> Reported(prefix, dir, Keys(listing), p)
  {
    var items := List(listing);
    if items.Err? { return F.Err(items.error); }
    KeysAre(listing, items.value);
    var dirPrefix := DirPrefix(dir);
    var seen: set<string> := {};
    var dirs: seq<string> := [];
    for n := 0 to |items.value|
      invariant Distinct(dirs) && (forall x :: x in seen <==> x in dirs)
      invariant forall p :: p in dirs <==> Reported(prefix, dir, items.value[..n], p)
    {
      ghost var before := dirs;
      dirs, seen := AddKey(dirs, seen, dirPrefix, Unkey(prefix, items.value[n]));
      forall p ensures p in dirs <==> Reported(prefix, dir, items.value[..n + 1], p) {
        BelowOneMore(prefix, items.value, n, p);
        assert p in before <==> Reported(prefix, dir, items.value[..n], p);
      }
    }
    assert items.value[..|items.value|] == items.value;
    SortedIncreases(dirs);
    return F.Ok(Sorted(dirs));
  }

  function Keys(listing: seq<Option<string>>): seq<string> {
    if listing == [] then []
    else (if listing[0].Some? then [listing[0].value] else []) + Keys(listing[1..])
  }

  lemma {:induction false} KeysAre(listing: seq<Option<string>>, items: seq<string>)
    requires |items| == |listing| && forall i :: 0 <= i < |listing| ==> listing[i] == Some(items[i])
    ensures Keys(listing) == items
  {
    if listing != [] {
      KeysAre(listing[1..], items[1..]);
      assert items == [items[0]] + items[1..];
    }
  }

  lemma BelowOneMore(prefix: string, keys: seq<string>, n: nat, p: string)
    requires n < |keys|
    ensures Below(prefix, keys[..n + 1], p) <==>
            Below(prefix, keys[..n], p) || p + "/" <= Unkey(prefix, keys[n])
  {
    assert keys[..n + 1] == keys[..n] + [keys[n]];
    assert keys[n] in keys[..n + 1];
  }

  /** The listing the server answers with: the keys of the bucket that carry the
      prefix asked for. */
  ghost predicate Answers(keys: seq<string>, bucket: set<string>, asked: string) {
    forall k :: k in keys <==> k in bucket && asked <= k
  }

  /** A directory of the disk: something of its own in the bucket lies under it. */
  ghost predicate Directory(prefix: string, dir: string, bucket: set<string>, p: string) {
    p != "" && DirPrefix(dir) <= p && exists k :: k in bucket && prefix + p + "/" <= k
  }

  /** The prefix a disk was configured with: empty, or ending in a slash. */
  predicate ValidPrefix(prefix: string) {
    prefix == "" || HasSuffix(prefix, "/")
  }

  /** The directories the caller may ask about: at most one slash at either end, and
      for the root no disk scoped to "/" alone. */
  predicate Tidy(prefix: string, dir: string) {
    if Trim(dir) == "" then (if prefix == "" then |dir| <= 2 else prefix != "/" && |dir| <= 1)
    else !("//" <= dir) && !HasSuffix(dir, "//")
  }

  lemma {:induction false} TrimLeftShape(s: string)
    ensures |TrimLeft(s)| <= |s| && s[|s| - |TrimLeft(s)|..] == TrimLeft(s)
    ensures forall i :: 0 <= i < |s| - |TrimLeft(s)| ==> s[i] == '/'
    ensures TrimLeft(s) != "" ==> TrimLeft(s)[0] != '/'
  {
    if s != [] && s[0] == '/' {
      TrimLeftShape(s[1..]);
      var t := TrimLeft(s);
      assert s[|s| - |t|..] == s[1..][|s| - 1 - |t|..];
      forall i | 0 <= i < |s| - |t| ensures s[i] == '/' {
        if i > 0 { assert s[i] == s[1..][i - 1]; }
      }
    }
  }

  lemma {:induction false} TrimRightShape(s: string)
    ensures TrimRight(s) <= s
    ensures forall i :: |TrimRight(s)| <= i < |s| ==> s[i] == '/'
    ensures TrimRight(s) != "" ==> TrimRight(s)[|TrimRight(s)| - 1] != '/'
  {
    if s != [] && s[|s| - 1] == '/' {
      TrimRightShape(s[..|s| - 1]);
      forall i | |TrimRight(s)| <= i < |s| ensures s[i] == '/' {
        if i < |s| - 1 { assert s[i] == s[..|s| - 1][i]; }
      }
    }
  }

  /** A path is slashes, its trimmed core, and slashes again. */
  lemma TrimShape(dir: string) returns (left: nat)
    ensures left + |Trim(dir)| <= |dir| && dir[left..left + |Trim(dir)|] == Trim(dir)
    ensures forall i :: 0 <= i < left || left + |Trim(dir)| <= i < |dir| ==> dir[i] == '/'
    ensures Trim(dir) != "" ==> Trim(dir)[0] != '/' && Trim(dir)[|Trim(dir)| - 1] != '/'
  {
    var t := TrimLeft(dir);
    TrimLeftShape(dir);
    TrimRightShape(t);
    left := |dir| - |t|;
    var core := Trim(dir);
    assert dir[left..left + |core|] == t[..|core|];
    forall i | left + |core| <= i < |dir| ensures dir[i] == '/' {
      assert dir[i] == t[i - left];
    }
    if core != "" { assert core[0] == t[0]; }
  }

  /** The prefix asked for when dir is all slashes, and so means the root. */
  lemma RootAsks(prefix: string, dir: string)
    requires ValidPrefix(prefix) && Trim(dir) == ""
    ensures ListPrefix(prefix, dir) ==
            if |dir| <= 1 then (if prefix == "/" then "" else prefix)
            else if prefix == "" && |dir| == 2 then ""
            else prefix + dir[1..]
    ensures forall i :: 0 <= i < |dir| ==> dir[i] == '/'
  {
    var left := TrimShape(dir);
    assert forall i :: 0 <= i < |dir| ==> dir[i] == '/';
    if |dir| <= 1 {
      assert TrimPrefix(dir, "/") == "";
      assert prefix + "" == prefix;
    } else {
      var inner := dir[1..];
      assert TrimPrefix(dir, "/") == inner;
      var key := prefix + inner;
      assert key[|key| - 1] == '/';
      assert key[|key| - 1..] == "/";
      assert TrimSlash(key) + "/" == key;
    }
  }

  /** The prefix asked for otherwise: one slash trimmed from either end. */
  lemma UnderAsks(prefix: string, dir: string)
    requires Trim(dir) != ""
    ensures ListPrefix(prefix, dir) == prefix + TrimSlash(TrimPrefix(dir, "/")) + "/"
  {
    var left := TrimShape(dir);
    var inner := TrimPrefix(dir, "/");
    assert inner != "" by {
      if dir == "/" { assert dir[left] == Trim(dir)[0]; }
    }
    var key := prefix + inner;
    assert key[|key| - 1..] == inner[|inner| - 1..];
    assert TrimSlash(key) == prefix + TrimSlash(inner);
  }

  /** The server is asked for exactly the keys under the directory when it is tidy. */
  lemma TidyAsksRight(prefix: string, dir: string)
    requires ValidPrefix(prefix) && Tidy(prefix, dir)
    ensures ListPrefix(prefix, dir) == prefix + DirPrefix(dir)
  {
    if Trim(dir) == "" {
      RootAsks(prefix, dir);
    } else {
      UnderAsks(prefix, dir);
      TidyTrims(dir);
    }
  }

  /** With at most one slash at either end, trimming one is trimming all. */
  lemma TidyTrims(dir: string)
    requires Trim(dir) != "" && !("//" <= dir) && !HasSuffix(dir, "//")
    ensures TrimSlash(TrimPrefix(dir, "/")) == Trim(dir)
  {
    var left := TrimShape(dir);
    OneSlashTrims(dir, Trim(dir), left);
  }

  lemma OneSlashTrims(dir: string, core: string, left: nat)
    requires !("//" <= dir) && !HasSuffix(dir, "//")
    requires core != "" && left + |core| <= |dir| && dir[left..left + |core|] == core
    requires forall i :: 0 <= i < left || left + |core| <= i < |dir| ==> dir[i] == '/'
    requires core[0] != '/' && core[|core| - 1] != '/'
    ensures TrimSlash(TrimPrefix(dir, "/")) == core
  {
    var right := |dir| - left - |core|;
    assert left <= 1;
    assert right <= 1;
    assert dir[left] == core[0];
    var inner := dir[left..];
    assert TrimPrefix(dir, "/") == inner;
    assert inner[..|core|] == core;
    assert inner[|core| - 1] == core[|core| - 1];
    if right == 1 {
      assert inner[|core|..] == "/";
    } else {
      assert inner == core;
    }
  }

  /** With two slashes in a row at either end, the prefix asked for leaves the
      directory's own keys out. */
  lemma UntidyAsksElsewhere(dir: string)
    requires Trim(dir) != "" && ("//" <= dir || HasSuffix(dir, "//"))
    ensures !(TrimSlash(TrimPrefix(dir, "/")) + "/" <= Trim(dir) + "/x/y")
  {
    var left := TrimShape(dir);
    if "//" <= dir {
      LeadingSlashes(dir, Trim(dir), left);
    } else {
      TrailingSlashes(dir, Trim(dir), left);
    }
  }

  lemma LeadingSlashes(dir: string, core: string, left: nat)
    requires "//" <= dir
    requires core != "" && left + |core| <= |dir| && dir[left..left + |core|] == core && core[0] != '/'
    ensures !(TrimSlash(TrimPrefix(dir, "/")) + "/" <= core + "/x/y")
  {
    var inner := dir[1..];
    assert TrimPrefix(dir, "/") == inner;
    assert dir[left] == core[0];
    assert |inner| >= 2 && inner[0] == '/';
    assert (TrimSlash(inner) + "/")[0] == '/';
    assert (core + "/x/y")[0] == core[0];
  }

  lemma TrailingSlashes(dir: string, core: string, left: nat)
    requires !("//" <= dir) && HasSuffix(dir, "//")
    requires core != "" && left + |core| <= |dir| && dir[left..left + |core|] == core
    requires forall i :: 0 <= i < left || left + |core| <= i < |dir| ==> dir[i] == '/'
    requires core[0] != '/' && core[|core| - 1] != '/'
    ensures !(TrimSlash(TrimPrefix(dir, "/")) + "/" <= core + "/x/y")
  {
    assert left <= 1;
    assert dir[left] == core[0];
    var inner := dir[left..];
    assert TrimPrefix(dir, "/") == inner;
    assert dir[|dir| - 2..][0] == '/' && dir[|dir| - 2..][1] == '/';
    assert dir[left + |core| - 1] == core[|core| - 1];
    var right := |dir| - left - |core|;
    assert right >= 2;
    assert inner[|core|] == '/' && inner[|core| + 1] == '/';
    assert (TrimSlash(inner) + "/")[|core| + 1] == '/';
    assert (core + "/x/y")[|core| + 1] == 'x';
  }

  /** Otherwise the prefix asked for leaves the directory's own keys out... */
  lemma UntidyAsksWrong(prefix: string, dir: string)
    requires ValidPrefix(prefix) && !Tidy(prefix, dir) && !WholeBucket(prefix, dir)
    ensures !(ListPrefix(prefix, dir) <= prefix + (DirPrefix(dir) + "x/y"))
  {
    if Trim(dir) == "" {
      RootAsks(prefix, dir);
      assert dir[1..][0] == '/';
      NotUnder(prefix, dir[1..], "x/y");
      assert DirPrefix(dir) + "x/y" == "x/y";
    } else {
      UnderAsks(prefix, dir);
      UntidyAsksElsewhere(dir);
      NotUnder(prefix, TrimSlash(TrimPrefix(dir, "/")) + "/", Trim(dir) + "/x/y");
      assert prefix + (TrimSlash(TrimPrefix(dir, "/")) + "/") == ListPrefix(prefix, dir);
      assert Trim(dir) + "/x/y" == Trim(dir) + "/" + "x/y";
    }
  }

  /** ...or, for the root of a disk scoped to "/" alone, takes in the whole bucket. */
  predicate WholeBucket(prefix: string, dir: string) {
    prefix == "/" && Trim(dir) == "" && |dir| <= 1
  }

  lemma NotUnder(prefix: string, s: string, t: string)
    requires !(s <= t)
    ensures !(prefix + s <= prefix + t)
  {
    PrefixTails(prefix, prefix + s, prefix + t);
    assert (prefix + s)[|prefix|..] == s && (prefix + t)[|prefix|..] == t;
  }

  lemma PrefixTails(prefix: string, s: string, t: string)
    requires prefix <= s && prefix <= t
    ensures s <= t <==> s[|prefix|..] <= t[|prefix|..]
  {
    if s[|prefix|..] <= t[|prefix|..] {
      assert s == prefix + s[|prefix|..] && t == prefix + t[|prefix|..];
    }
  }

  lemma UnderPrefix(prefix: string, under: string, p: string, k: string)
    requires under <= p && prefix + p + "/" <= k
    ensures prefix + under <= k && p + "/" <= Unkey(prefix, k)
  {
    assert prefix <= prefix + p + "/";
    PrefixTails(prefix, prefix + p + "/", k);
    assert (prefix + p + "/")[|prefix|..] == p + "/";
    PrefixTails(prefix, prefix + under, k);
    assert (prefix + under)[|prefix|..] == under;
  }

  /** AllDirectories over a bucket, listing included, is right about every path
      exactly when the directory asked about is tidy. */
  lemma BucketExactIff(prefix: string, dir: string)
    requires ValidPrefix(prefix)
    ensures Tidy(prefix, dir) <==>
            forall keys, bucket, p :: Answers(keys, bucket, ListPrefix(prefix, dir)) ==>
              (Reported(prefix, dir, keys, p) <==> Directory(prefix, dir, bucket, p))
  {
    if Tidy(prefix, dir) {
      TidyAsksRight(prefix, dir);
      forall keys, bucket, p | Answers(keys, bucket, ListPrefix(prefix, dir))
        ensures Reported(prefix, dir, keys, p) <==> Directory(prefix, dir, bucket, p)
      {
        TidyExact(prefix, dir, keys, bucket, p);
      }
    } else {
      var keys, bucket, p := UntidyFails(prefix, dir);
    }
  }

  lemma TidyExact(prefix: string, dir: string, keys: seq<string>, bucket: set<string>, p: string)
    requires Answers(keys, bucket, prefix + DirPrefix(dir))
    ensures Reported(prefix, dir, keys, p) <==> Directory(prefix, dir, bucket, p)
  {
    if Reported(prefix, dir, keys, p) {
      var k :| k in keys && p + "/" <= Unkey(prefix, k);
      assert prefix <= k;
      assert k == prefix + Unkey(prefix, k);
      assert prefix + p + "/" <= k;
    } else if Directory(prefix, dir, bucket, p) {
      var k :| k in bucket && prefix + p + "/" <= k;
      UnderPrefix(prefix, DirPrefix(dir), p, k);
    }
  }

  /** A bucket, and a path it is wrong about. */
  lemma UntidyFails(prefix: string, dir: string) returns (keys: seq<string>, bucket: set<string>, p: string)
    requires ValidPrefix(prefix) && !Tidy(prefix, dir)
    ensures Answers(keys, bucket, ListPrefix(prefix, dir))
    ensures Reported(prefix, dir, keys, p) != Directory(prefix, dir, bucket, p)
  {
    if WholeBucket(prefix, dir) {
      RootAsks(prefix, dir);
      keys, bucket, p := ["x/y"], {"x/y"}, "x";
      OtherDisk(keys, bucket, dir);
    } else {
      UntidyAsksWrong(prefix, dir);
      keys, bucket, p := [], {prefix + (DirPrefix(dir) + "x/y")}, DirPrefix(dir) + "x";
      MissedKey(prefix, dir, bucket);
    }
  }

  /** A key of the disk the listing never returns. */
  lemma MissedKey(prefix: string, dir: string, bucket: set<string>)
    requires bucket == {prefix + (DirPrefix(dir) + "x/y")}
    ensures Directory(prefix, dir, bucket, DirPrefix(dir) + "x")
    ensures forall keys: seq<string> :: keys == [] ==> !Reported(prefix, dir, keys, DirPrefix(dir) + "x")
  {
    var k := prefix + (DirPrefix(dir) + "x/y");
    assert k in bucket;
    assert prefix + (DirPrefix(dir) + "x") + "/" <= k by {
      assert k == prefix + (DirPrefix(dir) + "x") + "/" + "y";
    }
  }

  /** A key outside the disk scoped to "/", reported as if it were inside. */
  lemma OtherDisk(keys: seq<string>, bucket: set<string>, dir: string)
    requires keys == ["x/y"] && bucket == {"x/y"} && Trim(dir) == ""
    ensures Reported("/", dir, keys, "x") && !Directory("/", dir, bucket, "x")
  {
    var k := keys[0];
    assert k[0] == 'x';
    assert !("/" <= k) && Unkey("/", k) == k;
    assert k[..2] == "x" + "/";
    assert ("/" + "x" + "/")[0] == '/';
    assert Below("/", keys, "x");
  }
}
