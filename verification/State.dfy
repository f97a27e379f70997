/** Dirty tracking (odm/state.go): what a model remembers of the document it came
    from, and the changeset Save would send. */
module State {
  import opened Bson

  datatype Element = Element(key: string, value: Value)

  predicate DistinctKeys(elements: seq<Element>) {
    forall i, j :: 0 <= i < j < |elements| ==> elements[i].key != elements[j].key
  }

  /** A marshalled model: its fields in struct order, each once. Values are compared
      by type and bytes, which is equality here. */
  type Raw = r: seq<Element> | DistinctKeys(r)

  /** LookupErr */
  function Lookup(raw: seq<Element>, key: string): Option<Value> {
    if raw == [] then None else if raw[0].key == key then Some(raw[0].value) else Lookup(raw[1..], key)
  }

  lemma {:induction false} LookupFinds(raw: Raw, i: nat)
    requires i < |raw|
    ensures Lookup(raw, raw[i].key) == Some(raw[i].value)
  {
    if i > 0 { LookupFinds(raw[1..], i - 1); }
  }

  lemma {:induction false} LookupOnlyFinds(raw: seq<Element>, key: string)
    ensures Lookup(raw, key).Some? <==> exists i :: 0 <= i < |raw| && raw[i].key == key
  {
    if raw != [] {
      LookupOnlyFinds(raw[1..], key);
      if exists i :: 0 <= i < |raw| && raw[i].key == key {
        var i :| 0 <= i < |raw| && raw[i].key == key;
        if i > 0 { assert raw[1..][i - 1].key == key; }
      }
      if Lookup(raw[1..], key).Some? {
        var i :| 0 <= i < |raw| - 1 && raw[1..][i].key == key;
        assert raw[i + 1].key == key;
      }
    }
  }

  /** What Save would write: `set` as sent in $set, `unset` the fields gone away. */
  datatype Changeset = Changeset(set_: Doc, unset: seq<string>)

  const NO_CHANGES := Changeset(map[], [])

  /** Does the field go into $set? */
  predicate Differs(original: Raw, current: Raw, key: string) {
    key != ID && Lookup(current, key).Some? && Lookup(current, key) != Lookup(original, key)
  }

  predicate Gone(original: Raw, current: Raw, key: string) {
    key != ID && Lookup(original, key).Some? && Lookup(current, key).None?
  }

  function ChangedFields(original: Raw, current: Raw, n: nat): Doc
    requires n <= |current|
  {
    if n == 0 then map[]
    else
      var before := ChangedFields(original, current, n - 1);
      var e := current[n - 1];
      if e.key == ID || Lookup(original, e.key) == Some(e.value) then before else before[e.key := e.value]
  }

  function GoneFields(original: Raw, current: Raw, n: nat): seq<string>
    requires n <= |original|
  {
    if n == 0 then []
    else
      var before := GoneFields(original, current, n - 1);
      var e := original[n - 1];
      if e.key == ID || Lookup(current, e.key).Some? then before else before + [e.key]
  }

  function Diff(original: Raw, current: Raw): Changeset {
    Changeset(ChangedFields(original, current, |current|), GoneFields(original, current, |original|))
  }

  /** diff: one pass over each version. */
  method ComputeDiff(original: Raw, current: Raw) returns (c: Changeset)
    ensures c == Diff(original, current)
  {
    var changed: Doc := map[];
    for i := 0 to |current|
      invariant changed == ChangedFields(original, current, i)
    {
      var key, value := current[i].key, current[i].value;
      if key == ID {
        continue;
      }
      if Lookup(original, key) == Some(value) {
        continue;
      }
      changed := changed[key := value];
    }
    var unset: seq<string> := [];
    for i := 0 to |original|
      invariant unset == GoneFields(original, current, i)
    {
      var key := original[i].key;
      if key == ID {
        continue;
      }
      if Lookup(current, key).None? {
        unset := unset + [key];
      }
    }
    return Changeset(changed, unset);
  }

  lemma {:induction false} ChangedAre(original: Raw, current: Raw, n: nat)
    requires n <= |current|
    ensures var m := ChangedFields(original, current, n);
            && (forall i | 0 <= i < n :: Differs(original, current, current[i].key) ==> current[i].key in m)
            && (forall k | k in m :: Differs(original, current, k) && Some(m[k]) == Lookup(current, k))
  {
    if n > 0 {
      ChangedAre(original, current, n - 1);
      LookupFinds(current, n - 1);
    }
  }

  lemma {:induction false} GoneAre(original: Raw, current: Raw, n: nat)
    requires n <= |original|
    ensures var u := GoneFields(original, current, n);
            && (forall i | 0 <= i < n :: Gone(original, current, original[i].key) ==> original[i].key in u)
            && (forall k | k in u :: Gone(original, current, k) && exists i :: 0 <= i < n && original[i].key == k)
            && (forall i, j :: 0 <= i < j < |u| ==> u[i] != u[j])
  {
    if n > 0 {
      GoneAre(original, current, n - 1);
      LookupFinds(original, n - 1);
      var u := GoneFields(original, current, n - 1);
      assert forall i :: 0 <= i < |u| ==> u[i] in u;
      assert original[n - 1].key !in u;
    }
  }

  /** The changeset holds exactly the fields that differ, with their current values,
      and exactly the fields that have gone, _id apart; no field is in both. */
  lemma DiffExact(original: Raw, current: Raw, k: string)
    ensures var c := Diff(original, current);
            && (k in c.set_ <==> Differs(original, current, k))
            && (k in c.set_ ==> Some(c.set_[k]) == Lookup(current, k))
            && (k in c.unset <==> Gone(original, current, k))
            && !(k in c.set_ && k in c.unset)
            && (forall i, j :: 0 <= i < j < |c.unset| ==> c.unset[i] != c.unset[j])
  {
    ChangedAre(original, current, |current|);
    GoneAre(original, current, |original|);
    LookupOnlyFinds(current, k);
    LookupOnlyFinds(original, k);
  }

  predicate Empty(c: Changeset) {
    c.set_ == map[] && c.unset == []
  }

  /** touches, with no names and with names. */
  predicate Touches(c: Changeset, fields: seq<string>) {
    if fields == [] then !Empty(c) else exists i :: 0 <= i < |fields| && TouchesField(c, fields[i])
  }

  predicate TouchesField(c: Changeset, k: string) {
    k in c.set_ || k in c.unset
  }

  method ComputeTouches(c: Changeset, fields: seq<string>) returns (r: bool)
    ensures r <==> Touches(c, fields)
  {
    if |fields| == 0 {
      return |c.set_| > 0 || |c.unset| > 0;
    }
    for i := 0 to |fields|
      invariant forall k :: 0 <= k < i ==> !TouchesField(c, fields[k])
    {
      if fields[i] in c.set_ {
        assert TouchesField(c, fields[i]);
        return true;
      }
      for j := 0 to |c.unset|
        invariant fields[i] !in c.unset[..j]
      {
        if c.unset[j] == fields[i] {
          assert TouchesField(c, fields[i]);
          return true;
        }
      }
      assert c.unset[..|c.unset|] == c.unset;
    }
    return false;
  }

  /** Named fields: touched when any one of them is set or unset. No names: when anything
      is set or unset at all. */
  lemma TouchesMeans(c: Changeset, fields: seq<string>)
    ensures fields != [] ==> (Touches(c, fields) <==> exists k :: k in fields && (k in c.set_ || k in c.unset))
    ensures Touches(c, []) <==> exists k :: k in c.set_ || k in c.unset
  {
    if exists k :: k in fields && TouchesField(c, k) {
      var k :| k in fields && TouchesField(c, k);
      var i :| 0 <= i < |fields| && fields[i] == k;
      assert TouchesField(c, fields[i]);
    }
    if forall k :: !TouchesField(c, k) { NothingIn(c); }
  }

  /** The two versions agree on every field but _id. */
  ghost predicate SameFields(original: Raw, current: Raw) {
    forall k :: k != ID ==> Lookup(original, k) == Lookup(current, k)
  }

  /** A model is clean exactly when nothing but _id differs from the snapshot; in
      particular right after a snapshot. */
  lemma CleanIff(original: Raw, current: Raw)
    ensures Empty(Diff(original, current)) <==> SameFields(original, current)
    ensures Empty(Diff(current, current))
  {
    if Empty(Diff(original, current)) {
      CleanIsSame(original, current);
    }
    if SameFields(original, current) {
      SameIsClean(original, current);
    }
    SameIsClean(current, current);
  }

  lemma CleanIsSame(original: Raw, current: Raw)
    requires Empty(Diff(original, current))
    ensures SameFields(original, current)
  {
    forall k | k != ID ensures Lookup(original, k) == Lookup(current, k) {
      DiffExact(original, current, k);
    }
  }

  lemma SameIsClean(original: Raw, current: Raw)
    requires SameFields(original, current)
    ensures Empty(Diff(original, current))
  {
    forall k ensures !TouchesField(Diff(original, current), k) { DiffExact(original, current, k); }
    NothingIn(Diff(original, current));
  }

  lemma NothingIn(c: Changeset)
    requires forall k :: !TouchesField(c, k)
    ensures Empty(c)
  {
    if c.unset != [] { assert TouchesField(c, c.unset[0]); }
    if c.set_ != map[] {
      assert exists k :: k in c.set_;
      var k :| k in c.set_;
      assert TouchesField(c, k);
    }
  }

  // ---- The changeset as a patch ----

  /** The server's $set and $unset of one changeset. */
  function Patch(c: Changeset, d: Doc): Doc {
    (d - (set k | k in c.unset)) + c.set_
  }

  lemma PatchField(c: Changeset, d: Doc, k: string)
    requires !(k in c.set_ && k in c.unset)
    ensures Get(Patch(c, d), k) == if k in c.set_ then Some(c.set_[k]) else if k in c.unset then None else Get(d, k)
  {
  }

  /** The document holds what the model's version says on these fields. */
  predicate Agrees(d: Doc, raw: Raw, fields: set<string>) {
    forall k | k in fields :: Get(d, k) == Lookup(raw, k)
  }

  predicate Covers(fields: set<string>, raw: Raw) {
    forall i | 0 <= i < |raw| :: raw[i].key in fields
  }

  /** Patching any document that agrees with the snapshot on the model's fields gives
      one that agrees with the model on all of them but _id, untouched elsewhere. */
  lemma PatchReaches(original: Raw, current: Raw, fields: set<string>, d: Doc)
    requires Covers(fields, original) && Covers(fields, current)
    requires Agrees(d, original, fields - {ID})
    ensures var e := Patch(Diff(original, current), d);
            && Agrees(e, current, fields - {ID})
            && (forall k :: k == ID || k !in fields ==> Get(e, k) == Get(d, k))
  {
    var c := Diff(original, current);
    var e := Patch(c, d);
    forall k ensures k in fields && k != ID ==> Get(e, k) == Lookup(current, k)
             ensures k == ID || k !in fields ==> Get(e, k) == Get(d, k)
    {
      DiffExact(original, current, k);
      PatchField(c, d, k);
      LookupOnlyFinds(original, k);
      LookupOnlyFinds(current, k);
    }
  }

  /** Any changeset that patches the snapshot into the model sets and unsets at least
      what the diff does: the diff is minimal. */
  lemma DiffMinimal(original: Raw, current: Raw, d: Doc, other: Changeset)
    requires forall k :: Get(d, k) == Lookup(original, k)
    requires forall k :: !(k in other.set_ && k in other.unset)
    requires forall k :: k != ID ==> Get(Patch(other, d), k) == Lookup(current, k)
    ensures var c := Diff(original, current);
            && (forall k | k in c.set_ :: k in other.set_ && other.set_[k] == c.set_[k])
            && (forall k | k in c.unset :: k in other.unset)
  {
    forall k ensures Differs(original, current, k) ==> k in other.set_ && Some(other.set_[k]) == Lookup(current, k)
             ensures Gone(original, current, k) ==> k in other.unset
    {
      PatchField(other, d, k);
    }
    forall k { DiffExact(original, current, k); }
  }

  // ---- The model object ----

  /** A model and its bookkeeping. `fields` is what marshalling it yields; a type
      embedding neither base model is untracked and keeps no state. */
  class Model {
    const tracked: bool
    var fields: Raw
    var exists_: bool
    var original: Raw
    var written: Changeset

    constructor (tracked: bool, fields: Raw)
      ensures this.tracked == tracked
      ensures this.fields == fields && !exists_ && original == [] && written == NO_CHANGES
    {
      this.tracked, this.fields := tracked, fields;
      exists_, original, written := false, [], NO_CHANGES;
    }

    function View(): ModelState
      reads this
    {
      ModelState(fields, exists_, original, written)
    }

    /** IsPersisted */
    predicate Persisted()
      reads this
    {
      tracked && exists_
    }

    method Snapshot()
      modifies this
      ensures View() == Snapshotted(tracked, old(View()))
    {
      if !tracked {
        return;
      }
      exists_ := true;
      original := fields;
    }

    method RecordWrite(c: Changeset)
      modifies this
      ensures View() == Recorded(tracked, old(View()), c)
    {
      if tracked {
        written := c;
      }
    }

    /** Changes: a model that does not exist yet reports none. */
    method Changes() returns (c: Changeset)
      ensures c == ChangesOf(tracked, View())
    {
      if !Persisted() {
        return NO_CHANGES;
      }
      c := ComputeDiff(original, fields);
    }

    method IsDirty(names: seq<string>) returns (r: bool)
      ensures r <==> Touches(ChangesOf(tracked, View()), names)
    {
      var c := Changes();
      r := ComputeTouches(c, names);
    }

    method WasChanged(names: seq<string>) returns (r: bool)
      ensures r <==> tracked && Touches(written, names)
    {
      if !tracked {
        return false;
      }
      r := ComputeTouches(written, names);
    }

    /** Original: the snapshot's value, for a tracked model that exists. */
    method Original(field: string) returns (v: Option<Value>)
      ensures v == OriginalOf(tracked, View(), field)
    {
      if !Persisted() {
        return None;
      }
      return Lookup(original, field);
    }
  }

  /** The model as a value. */
  datatype ModelState = ModelState(fields: Raw, exists_: bool, original: Raw, written: Changeset)

  function Snapshotted(tracked: bool, m: ModelState): ModelState {
    if tracked then m.(exists_ := true, original := m.fields) else m
  }

  function Recorded(tracked: bool, m: ModelState, c: Changeset): ModelState {
    if tracked then m.(written := c) else m
  }

  function ChangesOf(tracked: bool, m: ModelState): Changeset {
    if tracked && m.exists_ then Diff(m.original, m.fields) else NO_CHANGES
  }

  function OriginalOf(tracked: bool, m: ModelState, field: string): Option<Value> {
    if tracked && m.exists_ then Lookup(m.original, field) else None
  }

  /** On a persisted model a field is dirty exactly when its original value is not its
      current one, absent counting as a value; nothing is dirty on any other. */
  lemma DirtyIffOriginalDiffers(tracked: bool, m: ModelState, field: string)
    requires field != ID
    ensures TouchesField(ChangesOf(tracked, m), field) <==>
            tracked && m.exists_ && OriginalOf(tracked, m, field) != Lookup(m.fields, field)
  {
    DiffExact(m.original, m.fields, field);
  }
}
