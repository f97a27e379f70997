/** What a bulk create (odm/bulk.go) leaves behind: WasChanged as it was, and, when its
    insert is refused part way, written models that do not know it. */
module BulkCreate {
  import opened Bson
  import opened Filter
  import Queries
  import opened State
  import opened Lifecycle
  import opened LifecycleRuns

  lemma {:induction false} PrepareKeepsState<K>(kind: Kind, w: World<K>, ks: seq<K>, envs: seq<Env>, j: K)
    requires |envs| == |ks| && AllIn(ks, w) && j in w.models
    ensures var r := PrepareAll(kind, w, ks, envs).w.models[j];
            r.written == w.models[j].written && r.exists_ == w.models[j].exists_ && r.original == w.models[j].original
    decreases |ks|
  {
    if ks != [] { PrepareKeepsState(kind, w, ks[..|ks| - 1], envs[..|ks| - 1], j); }
  }

  lemma {:induction false} FinishKeepsWritten<K>(kind: Kind, w: World<K>, ks: seq<K>, envs: seq<Env>, j: K)
    requires |envs| == |ks| && AllIn(ks, w) && j in w.models
    ensures FinishAll(kind, w, ks, envs).w.models[j].written == w.models[j].written
    decreases |ks|
  {
    if ks != [] { FinishKeepsWritten(kind, w, ks[..|ks| - 1], envs[..|ks| - 1], j); }
  }

  /** Unlike Create, CreateMany leaves WasChanged as it was, on every model. */
  lemma CreateManyKeepsWritten<K>(kind: Kind, w: World<K>, ks: seq<K>, envs: seq<Env>, j: K)
    requires |envs| == |ks| && AllIn(ks, w) && j in w.models
    ensures CreateMany(kind, w, ks, envs).w.models[j].written == w.models[j].written
  {
    PrepareKeepsState(kind, w, ks, envs, j);
    var p := PrepareAll(kind, w, ks, envs);
    if p.err.None? && WriteAll(p.w, ks, envs).err.None? {
      FinishKeepsWritten(kind, WriteAll(p.w, ks, envs).w, ks, envs, j);
    }
  }

  // ---- A successful bulk create after which WasChanged is true ----

  const NAMED := Kind(true, false, _ => [])

  function Quiet(newId: int): Env {
    Env([], [], Date(0), Oid(newId), false)
  }

  function Named(id: Value, name: string): Raw {
    [Element(ID, id), Element("name", Str(name))]
  }

  /** A model created, renamed and saved, then given back the zero id. */
  const RESET: seq<Step<int>> := [
    New(1, Named(ZERO_ID, "a")),
    CreateStep(1, Quiet(1)),
    Edit(1, Named(Oid(1), "b")),
    SaveStep(1, Quiet(0)),
    Edit(1, Named(ZERO_ID, "b"))]

  const RENAMED := Changeset(map["name" := Str("b")], [])

  lemma NamedDiff()
    ensures Diff(Named(Oid(1), "a"), Named(Oid(1), "b")) == RENAMED
  {
    var a, b := Named(Oid(1), "a"), Named(Oid(1), "b");
    assert Lookup(a, "name") == Lookup(a[1..], "name") == Some(Str("a"));
    assert Lookup(b, "name") == Lookup(b[1..], "name") == Some(Str("b"));
    assert ChangedFields(a, b, 1) == map[];
    assert GoneFields(a, b, 1) == [];
    assert GoneFields(a, b, 2) == [];
  }

  lemma NamedPrepared(id: int, name: string)
    requires id != 0
    ensures Prepared(NAMED, Named(ZERO_ID, name), Quiet(id)) == Named(Oid(id), name)
  {
  }

  function Created(): ModelState {
    ModelState(Named(Oid(1), "a"), true, Named(Oid(1), "a"), NO_CHANGES)
  }

  function Saved(): ModelState {
    ModelState(Named(Oid(1), "b"), true, Named(Oid(1), "b"), RENAMED)
  }

  lemma FirstCreate(o: One<int>)
    requires o == One(ModelState(Named(ZERO_ID, "a"), false, [], NO_CHANGES), map[], [Built(1)])
    ensures var r := Insert(NAMED, 1, o, Quiet(1));
            r.err.None? && r.o.m == Created() && r.o.db.Keys == {Oid(1)}
  {
    NamedPrepared(1, "a");
    assert HookEntries(1, 0) == [];
  }

  lemma ThenSave(o: One<int>)
    requires o.m == Created().(fields := Named(Oid(1), "b")) && o.db.Keys == {Oid(1)}
    ensures var r := Save(NAMED, 1, o, Quiet(0));
            r.err.None? && r.o.m == Saved() && r.o.db.Keys == {Oid(1)}
  {
    NamedDiff();
    assert "name" in RENAMED.set_;
    assert !Empty(RENAMED);
    var h := Hooked(1, o, []);
    assert h.o.m == o.m && h.err.None?;
    var s := Send(NAMED, 1, h.o, Quiet(0));
    assert s.err.None? && s.o.m == o.m.(written := RENAMED);
    assert Hooked(1, s.o, []).o.m == s.o.m;
  }

  lemma SavedWorld(w: World<int>) returns (r: World<int>)
    requires w.models == map[1 := Created()] && w.db.Keys == {Oid(1)}
    ensures r == StepWorld(NAMED, RESET[3], StepWorld(NAMED, RESET[2], w))
    ensures r.models == map[1 := Saved()] && r.db.Keys == {Oid(1)}
  {
    var edited := StepWorld(NAMED, RESET[2], w);
    ThenSave(At(edited, 1));
    r := StepWorld(NAMED, RESET[3], edited);
  }

  lemma ResetWorld()
    ensures var w := Run(NAMED, RESET, Beginning(map[]));
            w.models == map[1 := Saved().(fields := Named(ZERO_ID, "b"))] && w.db.Keys == {Oid(1)}
  {
    var w0: World<int> := Beginning(map[]);
    var w1 := StepWorld(NAMED, RESET[0], w0);
    FirstCreate(At(w1, 1));
    var w2 := StepWorld(NAMED, RESET[1], w1);
    var w4 := SavedWorld(w2);
    var w3 := StepWorld(NAMED, RESET[2], w2);
    assert RESET[4..] == [RESET[4]] && RESET[3..][1..] == RESET[4..] && RESET[2..][1..] == RESET[3..];
    assert RESET[1..][1..] == RESET[2..];
    RunOne(NAMED, RESET[4..], w4);
    RunOne(NAMED, RESET[3..], w3);
    RunOne(NAMED, RESET[2..], w2);
    RunOne(NAMED, RESET[1..], w1);
    RunOne(NAMED, RESET, w0);
  }

  lemma RunOne<K>(kind: Kind, steps: seq<Step<K>>, w: World<K>)
    requires steps != []
    ensures Run(kind, steps, w) == Run(kind, steps[1..], StepWorld(kind, steps[0], w))
    ensures |steps| == 1 ==> Run(kind, steps, w) == StepWorld(kind, steps[0], w)
  {
    if |steps| == 1 { assert steps[1..] == []; }
  }

  /** Inserting that model again succeeds either way; after Create WasChanged is false,
      after CreateMany it still is what the Save before made it. */
  lemma BulkCreateAnswersForTheSave()
    ensures var w := Run(NAMED, RESET, Beginning(map[]));
            1 in w.models &&
            var many, one := CreateMany(NAMED, w, [1], [Quiet(2)]), Insert(NAMED, 1, At(w, 1), Quiet(2));
            && many.err.None? && Oid(2) in many.w.db && Touches(many.w.models[1].written, [])
            && one.err.None? && Oid(2) in one.o.db && !Touches(one.o.m.written, [])
  {
    ResetWorld();
    var w := Run(NAMED, RESET, Beginning(map[]));
    var ks, envs := [1], [Quiet(2)];
    assert ks[..0] == [] && envs[..0] == [];
    NamedPrepared(2, "b");
    CreateManyKeepsWritten(NAMED, w, ks, envs, 1);
    assert "name" in RENAMED.set_;
    OneInBatch(w, 1, Quiet(2));
  }

  /** A batch of one model with quiet hooks. */
  lemma OneInBatch<K>(w: World<K>, k: K, env: Env)
    requires k in w.models && env.before == [] && env.after == [] && !env.serverFails
    requires var raw := Prepared(NAMED, w.models[k].fields, env); Lookup(raw, ID) == Some(env.newId)
    requires env.newId !in w.db
    ensures var r := CreateMany(NAMED, w, [k], [env]); r.err.None? && env.newId in r.w.db
  {
    var ks, envs := [k], [env];
    assert ks[..0] == [] && envs[..0] == [];
    assert PrepareAll(NAMED, w, ks[..0], envs[..0]) == Stepped(w, None);
    var p := PrepareAll(NAMED, w, ks, envs);
    assert p.err.None? && p.w.models[k].fields == Prepared(NAMED, w.models[k].fields, env);
    assert WriteAll(p.w, ks[..0], envs[..0]) == Stepped(p.w, None);
    var s := WriteAll(p.w, ks, envs);
    assert s.err.None? && env.newId in s.w.db;
    assert FinishAll(NAMED, s.w, ks[..0], envs[..0]) == Stepped(s.w, None);
  }

  // ---- A batch that succeeds ----

  lemma {:induction false} FinishOthers<K>(kind: Kind, w: World<K>, ks: seq<K>, envs: seq<Env>, k: K)
    requires |envs| == |ks| && AllIn(ks, w) && k in w.models && k !in ks
    ensures FinishAll(kind, w, ks, envs).w.models[k] == w.models[k]
    decreases |ks|
  {
    if ks != [] { FinishOthers(kind, w, ks[..|ks| - 1], envs[..|ks| - 1], k); }
  }

  /** The finishing loop marks every listed model. */
  lemma {:induction false} FinishMarks<K>(kind: Kind, w: World<K>, ks: seq<K>, envs: seq<Env>, k: K)
    requires |envs| == |ks| && AllIn(ks, w) && kind.tracked && k in ks
    requires FinishAll(kind, w, ks, envs).err.None?
    ensures FinishAll(kind, w, ks, envs).w.models[k].exists_
    decreases |ks|
  {
    var n := |ks| - 1;
    if k != ks[n] {
      assert k in ks[..n];
      FinishMarks(kind, w, ks[..n], envs[..n], k);
    }
  }

  predicate ListedOnce<K(==)>(ks: seq<K>, j: nat) {
    j < |ks| && forall i :: 0 <= i < |ks| && i != j ==> ks[i] != ks[j]
  }

  /** And snapshots it as it was, before its after-hooks run. */
  lemma {:induction false} FinishSnapshots<K>(kind: Kind, w: World<K>, ks: seq<K>, envs: seq<Env>, j: nat)
    requires |envs| == |ks| && AllIn(ks, w) && kind.tracked && ListedOnce(ks, j) && ks[j] in w.models
    requires FinishAll(kind, w, ks, envs).err.None?
    ensures FinishAll(kind, w, ks, envs).w.models[ks[j]].original == w.models[ks[j]].fields
    decreases |ks|
  {
    var n := |ks| - 1;
    if j == n {
      FinishOthers(kind, w, ks[..n], envs[..n], ks[n]);
    } else {
      assert ks[..n][j] == ks[j] && forall i :: 0 <= i < n ==> ks[..n][i] == ks[i];
      FinishSnapshots(kind, w, ks[..n], envs[..n], j);
    }
  }

  /** A successful insert stores every document of the batch under its id. */
  lemma {:induction false} WriteStores<K>(w: World<K>, ks: seq<K>, envs: seq<Env>, j: nat)
    requires |envs| == |ks| && AllIn(ks, w) && j < |ks| && ks[j] in w.models && WriteAll(w, ks, envs).err.None?
    ensures var raw := w.models[ks[j]].fields;
            var id, db := InsertId(raw, envs[j]), WriteAll(w, ks, envs).w.db;
            id in db && db[id] == AsDoc(raw)[ID := id]
    decreases |ks|
  {
    var n := |ks| - 1;
    if j < n {
      assert ks[..n][j] == ks[j] && envs[..n][j] == envs[j];
      WriteStores(w, ks[..n], envs[..n], j);
    }
  }

  /** Where the model's document is: under its own _id, or a driver's. */
  function IdOf(raw: Raw, env: Env): Value {
    match Lookup(raw, "_id")
    case Some(id) => id
    case None => env.newId
  }

  /** What a successful bulk create leaves: every listed model of a tracked type is
      persisted; one listed once remembers, field by field, the document stored for it,
      whatever its after-hooks did; and saving it as it was stored sends nothing. */
  lemma BatchPersists<K>(kind: Kind, w: World<K>, ks: seq<K>, envs: seq<Env>, j: nat, env: Env)
    requires |envs| == |ks| && AllIn(ks, w) && j < |ks| && kind.tracked
    requires CreateMany(kind, w, ks, envs).err.None?
    ensures var r := CreateMany(kind, w, ks, envs).w;
            ks[j] in r.models && r.models[ks[j]].exists_
    ensures var r := CreateMany(kind, w, ks, envs).w;
            ListedOnce(ks, j) ==>
              var m := r.models[ks[j]];
              && IdOf(m.original, envs[j]) in r.db
              && (forall f :: f != "_id" || Lookup(m.original, "_id").Some? ==>
                    Get(r.db[IdOf(m.original, envs[j])], f) == Lookup(m.original, f))
              && var o := One(m.(fields := m.original), r.db, r.log);
                 Save(kind, ks[j], o, env) == OneStep(o, None)
  {
    assert ks[j] in ks;
    var p := PrepareAll(kind, w, ks, envs).w;
    var s := WriteAll(p, ks, envs).w;
    var r := CreateMany(kind, w, ks, envs).w;
    FinishMarks(kind, s, ks, envs, ks[j]);
    if ListedOnce(ks, j) {
      FinishSnapshots(kind, s, ks, envs, j);
      WriteStores(p, ks, envs, j);
      var m := r.models[ks[j]];
      forall f ensures Get(AsDoc(m.original), f) == Lookup(m.original, f) { AsDocLookup(m.original, f); }
      CleanSaveIsSilent(kind, ks[j], One(m.(fields := m.original), r.db, r.log), env);
    }
  }

  /** The smallest batch: one unsaved model, an empty database, quiet hooks. */
  lemma OnePersists()
    ensures var w := World(map[1 := Unsaved(1, "a")], map[], [Built(1)]);
            var r := CreateMany(NAMED, w, [1], [Quiet(2)]);
            && r.err.None? && 1 in r.w.models && r.w.models[1].exists_
            && r.w.models[1].original == r.w.models[1].fields == Named(Oid(1), "a")
            && Save(NAMED, 1, At(r.w, 1), Quiet(3)) == OneStep(At(r.w, 1), None)
  {
    var w: World<int> := World(map[1 := Unsaved(1, "a")], map[], [Built(1)]);
    var ks, envs := [1], [Quiet(2)];
    assert ks[..0] == [] && envs[..0] == [];
    assert Prepared(NAMED, Named(Oid(1), "a"), Quiet(2)) == Named(Oid(1), "a");
    var p := PrepareAll(NAMED, w, ks, envs);
    assert p.err.None? && p.w.models[1] == Unsaved(1, "a");
    var s := WriteAll(p.w, ks, envs);
    assert s.err.None? && s.w.models[1] == Unsaved(1, "a");
    var r := FinishAll(NAMED, s.w, ks, envs);
    assert FinishAll(NAMED, s.w, ks[..0], envs[..0]) == Stepped(s.w, None);
    assert r.err.None? && r.w.models[1].original == r.w.models[1].fields;
    CleanSaveIsSilent(NAMED, 1, At(r.w, 1), Quiet(3));
  }

  // ---- A batch refused part way ----

  /** How many documents the server wrote before it stopped. */
  function WrittenCount<K>(w: World<K>, ks: seq<K>, envs: seq<Env>): (n: nat)
    requires |envs| == |ks| && AllIn(ks, w)
    ensures n <= |ks|
    decreases |ks|
  {
    if ks == [] then 0
    else
      var n := |ks| - 1;
      if WriteAll(w, ks[..n], envs[..n]).err.Some? then WrittenCount(w, ks[..n], envs[..n])
      else if WriteAll(w, ks, envs).err.Some? then n
      else n + 1
  }

  /** The _id the i-th document of the batch is sent under. */
  function BatchId<K>(w: World<K>, ks: seq<K>, envs: seq<Env>, i: nat): Value
    requires |envs| == |ks| && AllIn(ks, w) && i < |ks|
  {
    assert ks[i] in ks;
    InsertId(w.models[ks[i]].fields, envs[i])
  }

  predicate IdWritten<K>(w: World<K>, ks: seq<K>, envs: seq<Env>, n: nat, id: Value)
    requires |envs| == |ks| && AllIn(ks, w) && n <= |ks|
  {
    exists i :: 0 <= i < n && BatchId(w, ks, envs, i) == id
  }

  function BatchEntries<K>(ks: seq<K>): seq<Entry<K>> {
    seq(|ks|, i requires 0 <= i < |ks| => InsertedInBatch(ks[i]))
  }

  /** What the server's ordered insert did: it logged and stored exactly the models
      before the first refusal, each under its own id. */
  lemma {:induction false} WrittenArePrefix<K>(w: World<K>, ks: seq<K>, envs: seq<Env>)
    requires |envs| == |ks| && AllIn(ks, w)
    ensures WrotePrefix(w, ks, envs, WriteAll(w, ks, envs), WrittenCount(w, ks, envs))
    decreases |ks|
  {
    if ks != [] {
      var m := |ks| - 1;
      var before, n := WriteAll(w, ks[..m], envs[..m]), WrittenCount(w, ks[..m], envs[..m]);
      WrittenArePrefix(w, ks[..m], envs[..m]);
      assert ks[..m][..n] == ks[..n];
      IdsOfPrefix(w, ks, envs, m, n);
      if before.err.None? { OneMoreWritten(w, ks, envs, before); }
    }
  }

  /** The first n were logged and stored, and that is all unless there were no more. */
  ghost predicate WrotePrefix<K>(w: World<K>, ks: seq<K>, envs: seq<Env>, r: Stepped<K>, n: nat)
    requires |envs| == |ks| && AllIn(ks, w) && n <= |ks|
  {
    && (r.err.None? <==> n == |ks|)
    && r.w.log == w.log + BatchEntries(ks[..n])
    && (forall id :: id in r.w.db <==> id in w.db || IdWritten(w, ks, envs, n, id))
  }

  lemma OneMoreWritten<K>(w: World<K>, ks: seq<K>, envs: seq<Env>, before: Stepped<K>)
    requires |envs| == |ks| && ks != [] && AllIn(ks, w)
    requires before == WriteAll(w, ks[..|ks| - 1], envs[..|ks| - 1]) && before.err.None?
    requires before.w.log == w.log + BatchEntries(ks[..|ks| - 1])
    requires forall id :: id in before.w.db <==> id in w.db || IdWritten(w, ks, envs, |ks| - 1, id)
    ensures WrotePrefix(w, ks, envs, WriteAll(w, ks, envs), WrittenCount(w, ks, envs))
  {
    LastWrite(w, ks, envs, before);
    if WriteAll(w, ks, envs).err.None? { WroteLast(w, ks, envs, before.w, WriteAll(w, ks, envs)); }
  }

  lemma WroteLast<K>(w: World<K>, ks: seq<K>, envs: seq<Env>, before: World<K>, r: Stepped<K>)
    requires |envs| == |ks| && ks != [] && AllIn(ks, w) && r.err.None?
    requires before.log == w.log + BatchEntries(ks[..|ks| - 1])
    requires forall id :: id in before.db <==> id in w.db || IdWritten(w, ks, envs, |ks| - 1, id)
    requires r.w.log == before.log + [InsertedInBatch(ks[|ks| - 1])]
    requires r.w.db.Keys == before.db.Keys + {BatchId(w, ks, envs, |ks| - 1)}
    ensures WrotePrefix(w, ks, envs, r, |ks|)
  {
    var m := |ks| - 1;
    assert ks[..m + 1] == ks && BatchEntries(ks) == BatchEntries(ks[..m]) + [InsertedInBatch(ks[m])];
    OneMoreId(w, ks, envs, m);
    forall id ensures id in r.w.db <==> id in w.db || IdWritten(w, ks, envs, m + 1, id) {
      assert id in r.w.db <==> id in before.db || id == BatchId(w, ks, envs, m);
    }
  }

  lemma LastWrite<K>(w: World<K>, ks: seq<K>, envs: seq<Env>, before: Stepped<K>)
    requires |envs| == |ks| && ks != [] && AllIn(ks, w)
    requires before == WriteAll(w, ks[..|ks| - 1], envs[..|ks| - 1]) && before.err.None?
    ensures var r, m := WriteAll(w, ks, envs), |ks| - 1;
            && (r.err.Some? ==> r.w.log == before.w.log && r.w.db == before.w.db && WrittenCount(w, ks, envs) == m)
            && (r.err.None? ==>
                  && r.w.log == before.w.log + [InsertedInBatch(ks[m])]
                  && WrittenCount(w, ks, envs) == m + 1
                  && r.w.db.Keys == before.w.db.Keys + {BatchId(w, ks, envs, m)})
  {
    assert ks[|ks| - 1] in ks;
  }

  lemma OneMoreId<K>(w: World<K>, ks: seq<K>, envs: seq<Env>, m: nat)
    requires |envs| == |ks| && AllIn(ks, w) && m < |ks|
    ensures forall id :: IdWritten(w, ks, envs, m + 1, id) <==>
              IdWritten(w, ks, envs, m, id) || id == BatchId(w, ks, envs, m)
  {
    var last := BatchId(w, ks, envs, m);
    assert IdWritten(w, ks, envs, m + 1, last);
  }

  lemma IdsOfPrefix<K>(w: World<K>, ks: seq<K>, envs: seq<Env>, m: nat, n: nat)
    requires |envs| == |ks| && AllIn(ks, w) && n <= m <= |ks|
    ensures AllIn(ks[..m], w)
    ensures forall id :: IdWritten(w, ks[..m], envs[..m], n, id) <==> IdWritten(w, ks, envs, n, id)
  {
    assert forall i :: 0 <= i < m ==> BatchId(w, ks[..m], envs[..m], i) == BatchId(w, ks, envs, i);
  }

  /** Saving a model that does not count as persisted, with before-hooks that succeed
      and leave its _id alone and a server that is up, is refused as a duplicate exactly
      when its _id is taken. */
  lemma SaveRefusedIff<K>(kind: Kind, k: K, o: One<K>, env: Env, id: Value)
    requires !o.m.exists_ && !env.serverFails && id != ZERO_ID
    requires var h := RunHooks(env.before, o.m.fields); !h.failed && Lookup(h.fields, ID) == Some(id)
    ensures Save(kind, k, o, env).err == Some(DuplicateKey) <==> id in o.db
  {
    var raw := RunHooks(env.before, o.m.fields).fields;
    LookupReplaced(raw, Queries.CREATED_AT, env.now, ID);
    LookupReplaced(ReplaceIf(raw, Queries.CREATED_AT, ZERO_TIME, env.now), Queries.UPDATED_AT, env.now, ID);
    assert Lookup(Prepared(kind, raw, env), ID) == Some(id);
  }

  /** The ids of the batch are pairwise different and none was taken before it. */
  predicate FreshIds<K>(w: World<K>, ks: seq<K>, envs: seq<Env>)
    requires |envs| == |ks| && AllIn(ks, w)
  {
    && (forall i :: 0 <= i < |ks| ==> BatchId(w, ks, envs, i) !in w.db)
    && (forall i, j :: 0 <= i < j < |ks| ==> BatchId(w, ks, envs, i) != BatchId(w, ks, envs, j))
  }

  /** A bulk create whose insert is refused: it answers the refusal, runs no after-hook,
      has written exactly the models before the refused one, and marks none of them. */
  lemma RefusedBatch<K>(kind: Kind, w: World<K>, ks: seq<K>, envs: seq<Env>, j: K)
    requires |envs| == |ks| && AllIn(ks, w) && j in w.models
    requires PrepareAll(kind, w, ks, envs).err.None?
    requires WriteAll(PrepareAll(kind, w, ks, envs).w, ks, envs).err.Some?
    ensures var p, r := PrepareAll(kind, w, ks, envs).w, CreateMany(kind, w, ks, envs);
            var n := WrittenCount(p, ks, envs);
            && r.err == WriteAll(p, ks, envs).err && n < |ks|
            && r.w.log == p.log + BatchEntries(ks[..n])
            && (forall id :: id in r.w.db <==> id in w.db || IdWritten(p, ks, envs, n, id))
            && r.w.models[j].exists_ == w.models[j].exists_ && r.w.models[j].original == w.models[j].original
  {
    PrepareKeepsState(kind, w, ks, envs, j);
    WrittenArePrefix(PrepareAll(kind, w, ks, envs).w, ks, envs);
  }

  /** Saving a listed model after such a batch: refused as a duplicate exactly when its
      id was taken before the batch or was written by it. When the ids were fresh and
      different, those are exactly the models before the refused one: the batch stored
      them, and their own Save can no longer. */
  lemma StrandedSaves<K>(kind: Kind, w: World<K>, ks: seq<K>, envs: seq<Env>, j: nat, env: Env)
    requires |envs| == |ks| && AllIn(ks, w) && j < |ks|
    requires PrepareAll(kind, w, ks, envs).err.None?
    requires WriteAll(PrepareAll(kind, w, ks, envs).w, ks, envs).err.Some?
    requires ks[j] in w.models && !w.models[ks[j]].exists_ && !env.serverFails
    requires var p := PrepareAll(kind, w, ks, envs).w;
             var h := RunHooks(env.before, p.models[ks[j]].fields);
             !h.failed && Lookup(h.fields, ID) == Some(BatchId(p, ks, envs, j)) && BatchId(p, ks, envs, j) != ZERO_ID
    ensures var p, r := PrepareAll(kind, w, ks, envs).w, CreateMany(kind, w, ks, envs).w;
            var n := WrittenCount(p, ks, envs);
            var refused := Save(kind, ks[j], At(r, ks[j]), env).err == Some(DuplicateKey);
            && (refused <==> BatchId(p, ks, envs, j) in w.db || IdWritten(p, ks, envs, n, BatchId(p, ks, envs, j)))
            && (FreshIds(p, ks, envs) ==> (refused <==> j < n))
  {
    var p, r := PrepareAll(kind, w, ks, envs).w, CreateMany(kind, w, ks, envs).w;
    RefusedBatch(kind, w, ks, envs, ks[j]);
    SaveRefusedIff(kind, ks[j], At(r, ks[j]), env, BatchId(p, ks, envs, j));
    if FreshIds(p, ks, envs) {
      FreshWritten(p, ks, envs, WrittenCount(p, ks, envs), j);
    }
  }

  lemma FreshWritten<K>(w: World<K>, ks: seq<K>, envs: seq<Env>, n: nat, j: nat)
    requires |envs| == |ks| && AllIn(ks, w) && j < |ks| && n <= |ks| && FreshIds(w, ks, envs)
    ensures IdWritten(w, ks, envs, n, BatchId(w, ks, envs, j)) <==> j < n
  {
    if IdWritten(w, ks, envs, n, BatchId(w, ks, envs, j)) {
      var i :| 0 <= i < n && BatchId(w, ks, envs, i) == BatchId(w, ks, envs, j);
      assert i == j;
    }
  }

  // ---- A batch that strands a model ----

  /** Two unsaved models, and a database in which the second one's id is taken. */
  function TakenWorld(taken: Doc): World<int> {
    World(map[1 := Unsaved(1, "a"), 2 := Unsaved(2, "b")], map[Oid(2) := taken], [Built(1), Built(2)])
  }

  function Unsaved(id: int, name: string): ModelState {
    ModelState(Named(Oid(id), name), false, [], NO_CHANGES)
  }

  /** That world is where building the two models leads. */
  lemma TakenWorldIsReached(taken: Doc)
    ensures Run(NAMED, [New(1, Named(Oid(1), "a")), New(2, Named(Oid(2), "b"))], Beginning(map[Oid(2) := taken])) ==
            TakenWorld(taken)
  {
    var steps: seq<Step<int>> := [New(1, Named(Oid(1), "a")), New(2, Named(Oid(2), "b"))];
    var w: World<int> := Beginning(map[Oid(2) := taken]);
    RunOne(NAMED, steps, w);
    RunOne(NAMED, steps[1..], StepWorld(NAMED, steps[0], w));
    assert [Built(1)] + [Built(2)] == [Built(1), Built(2)];
  }

  lemma FirstOfTwo(taken: Doc)
    ensures var w, ks, envs := TakenWorld(taken), [1, 2], [Quiet(3), Quiet(4)];
            && PrepareAll(NAMED, w, ks, envs) == Stepped(w, None)
            && WriteAll(w, [1], [Quiet(3)]).err.None? && Oid(1) in WriteAll(w, [1], [Quiet(3)]).w.db
            && Oid(2) in WriteAll(w, [1], [Quiet(3)]).w.db
  {
    var w, ks, envs := TakenWorld(taken), [1, 2], [Quiet(3), Quiet(4)];
    assert ks[..1] == [1] && envs[..1] == [Quiet(3)] && ks[..1][..0] == [] && envs[..1][..0] == [];
    assert Prepared(NAMED, Named(Oid(1), "a"), Quiet(3)) == Named(Oid(1), "a");
    assert Prepared(NAMED, Named(Oid(2), "b"), Quiet(4)) == Named(Oid(2), "b");
    assert Prepare(NAMED, 1, At(w, 1), Quiet(3)).o == At(w, 1);
    assert Prepare(NAMED, 2, At(w, 2), Quiet(4)).o == At(w, 2);
    assert PrepareAll(NAMED, w, ks[..1], envs[..1]) == Stepped(w, None);
    assert WriteAll(w, ks[..1][..0], envs[..1][..0]) == Stepped(w, None);
  }

  /** The bulk create answers DuplicateKey having stored the first model, which is not
      marked persisted; saving that model then answers DuplicateKey as well. */
  lemma StrandedByATakenId(taken: Doc)
    ensures var r := CreateMany(NAMED, TakenWorld(taken), [1, 2], [Quiet(3), Quiet(4)]);
            && r.err == Some(DuplicateKey) && Oid(1) in r.w.db
            && 1 in r.w.models && !r.w.models[1].exists_
            && Save(NAMED, 1, At(r.w, 1), Quiet(5)).err == Some(DuplicateKey)
  {
    var w, ks, envs := TakenWorld(taken), [1, 2], [Quiet(3), Quiet(4)];
    FirstOfTwo(taken);
    assert ks[..1] == [1] && envs[..1] == [Quiet(3)];
    var s := WriteAll(w, ks, envs);
    assert s.err == Some(DuplicateKey) && Oid(1) in s.w.db;
    var r := CreateMany(NAMED, w, ks, envs);
    assert r == s;
    assert RunHooks([], r.w.models[1].fields).fields == Named(Oid(1), "a");
    SaveRefusedIff(NAMED, 1, At(r.w, 1), Quiet(5), Oid(1));
  }
}
