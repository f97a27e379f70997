/** What one Create, one Save and one bulk create do, step by step and in order, and what
    they leave on the model and in the database (odm/collection.go, odm/bulk.go,
    odm/model.go). */
module CreateAndSave {
  import opened Bson
  import opened Filter
  import opened State
  import opened Lifecycle
  import BulkCreate
  import LifecycleRuns

  // ---- Hooks ----

  /** Hooks from the first on: each is handed what the one before left, and the first
      error ends it. */
  function Through(hooks: seq<Hook>, fields: Raw): HookRun {
    if hooks == [] then HookRun(fields, 0, false)
    else
      var r := hooks[0](fields);
      if r.failed then HookRun(r.fields, 1, true)
      else
        var rest := Through(hooks[1..], r.fields);
        rest.(ran := rest.ran + 1)
  }

  lemma {:induction false} ThroughAppend(hooks: seq<Hook>, hook: Hook, fields: Raw)
    ensures var before := Through(hooks, fields);
            Through(hooks + [hook], fields) ==
            if before.failed then before
            else HookRun(hook(before.fields).fields, before.ran + 1, hook(before.fields).failed)
  {
    if hooks == [] {
      assert hooks + [hook] == [hook] && [hook][1..] == [];
    } else {
      assert (hooks + [hook])[1..] == hooks[1..] + [hook];
      if !hooks[0](fields).failed { ThroughAppend(hooks[1..], hook, hooks[0](fields).fields); }
    }
  }

  lemma {:induction false} HooksInOrder(hooks: seq<Hook>, fields: Raw)
    ensures RunHooks(hooks, fields) == Through(hooks, fields)
    ensures !Through(hooks, fields).failed ==> Through(hooks, fields).ran == |hooks|
    decreases |hooks|
  {
    if hooks != [] {
      var n := |hooks| - 1;
      HooksInOrder(hooks[..n], fields);
      ThroughAppend(hooks[..n], hooks[n], fields);
      assert hooks == hooks[..n] + [hooks[n]];
    }
  }

  // ---- The stamp of an insert ----

  lemma ReplacedIf(raw: Raw, key: string, was: Value, v: Value, f: string)
    ensures Lookup(ReplaceIf(raw, key, was, v), f) ==
            if f == key && Lookup(raw, f) == Some(was) then Some(v) else Lookup(raw, f)
  {
    LifecycleRuns.LookupReplaced(raw, key, v, f);
  }

  /** A tracked model gets an _id if it has the zero one; a timestamped one its updated_at
      in any case and its created_at only if that is the zero time. Nothing else changes,
      and an untracked model not at all. */
  lemma PreparedMeans(kind: Kind, raw: Raw, env: Env, f: string)
    ensures Lookup(Prepared(kind, raw, env), f) ==
            if !kind.tracked || Lookup(raw, f).None? then Lookup(raw, f)
            else if f == "_id" && Lookup(raw, f) == Some(Oid(0)) then Some(env.newId)
            else if kind.timestamped && f == "updated_at" then Some(env.now)
            else if kind.timestamped && f == "created_at" && Lookup(raw, f) == Some(Date(-62135596800000))
            then Some(env.now)
            else Lookup(raw, f)
  {
    var withId := ReplaceIf(raw, "_id", Oid(0), env.newId);
    var created := ReplaceIf(withId, "created_at", Date(-62135596800000), env.now);
    ReplacedIf(raw, "_id", Oid(0), env.newId, f);
    ReplacedIf(withId, "created_at", Date(-62135596800000), env.now, f);
    LifecycleRuns.LookupReplaced(created, "updated_at", env.now, f);
  }

  // ---- Create ----

  /** What the insert itself answers, and where the document goes. */
  function Refused(db: Database, id: Value, serverFails: bool): Option<Error> {
    if serverFails then Some(ServerFailed) else if id in db then Some(DuplicateKey) else None
  }

  /** The database with one more document: the fields as they are, under their id. */
  ghost predicate Inserts(before: Database, after: Database, id: Value, raw: Raw) {
    && after.Keys == before.Keys + {id}
    && (forall x | x in before && x != id :: after[x] == before[x])
    && (forall f :: f != "_id" ==> Get(after[id], f) == Lookup(raw, f))
    && Get(after[id], "_id") == Some(id)
  }

  lemma StoredInserts(db: Database, raw: Raw, env: Env)
    ensures Inserts(db, Stored(db, raw, env), BulkCreate.IdOf(raw, env), raw)
  {
    var id := BulkCreate.IdOf(raw, env);
    forall f ensures f != "_id" ==> Get(Stored(db, raw, env)[id], f) == Lookup(raw, f) {
      LifecycleRuns.AsDocLookup(raw, f);
    }
  }

  /** Create: every before-hook and the stamp, then the write, then the snapshot, then
      the after-hooks, whose error does not undo it; a failing before-hook or a refused
      write ends it with nothing stored and the model no more persisted than it was. */
  lemma CreateInOrder<K>(kind: Kind, k: K, o: One<K>, env: Env)
    ensures var before := Through(env.before, o.m.fields);
            before.failed ==>
              Insert(kind, k, o, env) ==
              OneStep(One(o.m.(fields := before.fields), o.db, o.log + HookEntries(k, before.ran)), Some(HookFailed))
    ensures var before := Through(env.before, o.m.fields);
            var raw := Prepared(kind, before.fields, env);
            var id := BulkCreate.IdOf(raw, env);
            !before.failed && Refused(o.db, id, env.serverFails).Some? ==>
              Insert(kind, k, o, env) ==
              OneStep(One(o.m.(fields := raw), o.db, o.log + HookEntries(k, |env.before|)),
                      Refused(o.db, id, env.serverFails))
    ensures var before := Through(env.before, o.m.fields);
            var raw := Prepared(kind, before.fields, env);
            var id, after := BulkCreate.IdOf(raw, env), Through(env.after, raw);
            var r := Insert(kind, k, o, env);
            !before.failed && Refused(o.db, id, env.serverFails).None? ==>
              && r.err == (if after.failed then Some(HookFailed) else None)
              && r.o.log == o.log + HookEntries(k, |env.before|) + [Inserted(k, raw)] + HookEntries(k, after.ran)
              && Inserts(o.db, r.o.db, id, raw)
              && r.o.m == (if kind.tracked then ModelState(after.fields, true, raw, Changeset(map[], []))
                           else o.m.(fields := after.fields))
  {
    HooksInOrder(env.before, o.m.fields);
    var raw := Prepared(kind, Through(env.before, o.m.fields).fields, env);
    HooksInOrder(env.after, raw);
    StoredInserts(o.db, raw, env);
  }

  // ---- Save of a persisted model ----

  /** The fields a save sends: those left by the before-hooks, updated_at refreshed. */
  function Refreshed(kind: Kind, raw: Raw, now: Value): Raw {
    if kind.timestamped then Replace(raw, "updated_at", now) else raw
  }

  function RefreshedChange(kind: Kind, c: Changeset, now: Value): Changeset {
    if kind.timestamped then Changeset(c.set_["updated_at" := now], c.unset) else c
  }

  lemma SendInOrder<K>(kind: Kind, k: K, o: One<K>, env: Env, id: Value)
    requires kind.tracked && !env.serverFails && Lookup(o.m.fields, "_id") == Some(id)
    ensures var c := RefreshedChange(kind, Diff(o.m.original, o.m.fields), env.now);
            var r := Send(kind, k, o, env);
            && r.err.None?
            && r.o.m == ModelState(Refreshed(kind, o.m.fields, env.now), o.m.exists_, o.m.original, c)
            && r.o.log == o.log + [Updated(k, id, c)]
            && r.o.db == if id in o.db then o.db[id := Patch(c, o.db[id])] else o.db
  {
  }

  /** Save of a dirty model that reaches the server: before-hooks, the changeset against
      the snapshot with updated_at refreshed, the update of that one document, the
      after-hooks, and the snapshot of what these left unless one failed. */
  lemma SaveInOrder<K>(kind: Kind, k: K, o: One<K>, env: Env, id: Value)
    requires kind.tracked && o.m.exists_ && !env.serverFails
    requires !SameFields(o.m.original, o.m.fields)
    requires var before := Through(env.before, o.m.fields);
             && !before.failed && !SameFields(o.m.original, before.fields)
             && Lookup(before.fields, "_id") == Some(id)
    ensures var raw := Through(env.before, o.m.fields).fields;
            var c := RefreshedChange(kind, Diff(o.m.original, raw), env.now);
            var after := Through(env.after, Refreshed(kind, raw, env.now));
            var r := Save(kind, k, o, env);
            && r.err == (if after.failed then Some(HookFailed) else None)
            && r.o.log == o.log + HookEntries(k, |env.before|) + [Updated(k, id, c)] + HookEntries(k, after.ran) +
               (if after.failed then [] else [Settled(k, after.fields)])
            && r.o.m == ModelState(after.fields, true, if after.failed then o.m.original else after.fields, c)
            && r.o.db.Keys == o.db.Keys
            && (forall x | x in o.db :: r.o.db[x] == if x == id then Patch(c, o.db[x]) else o.db[x])
  {
    var raw := Through(env.before, o.m.fields).fields;
    HooksInOrder(env.before, o.m.fields);
    HooksInOrder(env.after, Refreshed(kind, raw, env.now));
    CleanIff(o.m.original, o.m.fields);
    CleanIff(o.m.original, raw);
    SendInOrder(kind, k, Hooked(k, o, env.before).o, env, id);
  }

  /** A Save that does not get that far: a failing before-hook, hooks that left nothing
      dirty, a model without an _id, or a server that fails. No document changes and the
      snapshot stays what it was. */
  lemma SaveCutShort<K>(kind: Kind, k: K, o: One<K>, env: Env)
    requires kind.tracked && o.m.exists_ && !SameFields(o.m.original, o.m.fields)
    ensures var before := Through(env.before, o.m.fields);
            var r := Save(kind, k, o, env);
            var clean := SameFields(o.m.original, before.fields);
            && (before.failed ==> r.err == Some(HookFailed))
            && (!before.failed && clean ==> r.err == None)
            && (!before.failed && !clean && Lookup(before.fields, "_id").None? ==> r.err == Some(NoId))
            && (!before.failed && !clean && Lookup(before.fields, "_id").Some? && env.serverFails ==>
                  r.err == Some(ServerFailed))
            && (before.failed || clean || Lookup(before.fields, "_id").None? || env.serverFails ==>
                  && r.o.db == o.db && r.o.log == o.log + HookEntries(k, before.ran)
                  && r.o.m == o.m.(fields := if before.failed || clean then before.fields
                                             else Refreshed(kind, before.fields, env.now)))
  {
    HooksInOrder(env.before, o.m.fields);
    CleanIff(o.m.original, o.m.fields);
    CleanIff(o.m.original, Through(env.before, o.m.fields).fields);
  }

  // ---- CreateMany ----

  lemma {:induction false} PrepareOthers<K>(kind: Kind, w: World<K>, ks: seq<K>, envs: seq<Env>, k: K)
    requires |envs| == |ks| && AllIn(ks, w) && k in w.models && k !in ks
    ensures PrepareAll(kind, w, ks, envs).w.models[k] == w.models[k]
    decreases |ks|
  {
    if ks != [] { PrepareOthers(kind, w, ks[..|ks| - 1], envs[..|ks| - 1], k); }
  }

  lemma {:induction false} PreparedInBatch<K>(kind: Kind, w: World<K>, ks: seq<K>, envs: seq<Env>, j: nat)
    requires |envs| == |ks| && AllIn(ks, w) && BulkCreate.ListedOnce(ks, j) && ks[j] in w.models
    requires PrepareAll(kind, w, ks, envs).err.None?
    ensures var before := Through(envs[j].before, w.models[ks[j]].fields);
            && !before.failed
            && PrepareAll(kind, w, ks, envs).w.models[ks[j]].fields == Prepared(kind, before.fields, envs[j])
    decreases |ks|
  {
    var n := |ks| - 1;
    if j == n {
      PrepareOthers(kind, w, ks[..n], envs[..n], ks[n]);
      HooksInOrder(envs[n].before, w.models[ks[n]].fields);
    } else {
      assert ks[..n][j] == ks[j] && envs[..n][j] == envs[j] && forall i :: 0 <= i < n ==> ks[..n][i] == ks[i];
      PreparedInBatch(kind, w, ks[..n], envs[..n], j);
    }
  }

  lemma {:induction false} FinishedInBatch<K>(kind: Kind, w: World<K>, ks: seq<K>, envs: seq<Env>, j: nat)
    requires |envs| == |ks| && AllIn(ks, w) && BulkCreate.ListedOnce(ks, j) && ks[j] in w.models
    requires FinishAll(kind, w, ks, envs).err.None?
    ensures var after := Through(envs[j].after, w.models[ks[j]].fields);
            !after.failed && FinishAll(kind, w, ks, envs).w.models[ks[j]].fields == after.fields
    decreases |ks|
  {
    var n := |ks| - 1;
    if j == n {
      BulkCreate.FinishOthers(kind, w, ks[..n], envs[..n], ks[n]);
      HooksInOrder(envs[n].after, w.models[ks[n]].fields);
    } else {
      assert ks[..n][j] == ks[j] && envs[..n][j] == envs[j] && forall i :: 0 <= i < n ==> ks[..n][i] == ks[i];
      FinishedInBatch(kind, w, ks[..n], envs[..n], j);
    }
  }

  /** A successful bulk create did to every model listed once what Create does: its
      before-hooks and its stamp made what it remembers as stored, its after-hooks ran on
      that, and none of them failed. */
  lemma BatchInOrder<K>(kind: Kind, w: World<K>, ks: seq<K>, envs: seq<Env>, j: nat)
    requires |envs| == |ks| && AllIn(ks, w) && BulkCreate.ListedOnce(ks, j) && ks[j] in w.models
    requires kind.tracked && CreateMany(kind, w, ks, envs).err.None?
    ensures var r := CreateMany(kind, w, ks, envs).w;
            var before := Through(envs[j].before, w.models[ks[j]].fields);
            var raw := Prepared(kind, before.fields, envs[j]);
            var after := Through(envs[j].after, raw);
            && !before.failed && !after.failed && ks[j] in r.models
            && r.models[ks[j]] == ModelState(after.fields, true, raw, w.models[ks[j]].written)
  {
    assert ks[j] in ks;
    var p := PrepareAll(kind, w, ks, envs).w;
    var s := WriteAll(p, ks, envs).w;
    PreparedInBatch(kind, w, ks, envs, j);
    FinishedInBatch(kind, s, ks, envs, j);
    BulkCreate.FinishMarks(kind, s, ks, envs, ks[j]);
    BulkCreate.FinishSnapshots(kind, s, ks, envs, j);
    BulkCreate.CreateManyKeepsWritten(kind, w, ks, envs, ks[j]);
  }

  // ---- Reading ----

  /** A tracked model that was just read is persisted, with the document as decoded for
      its snapshot, and saving it sends nothing. */
  lemma ReadPersists<K>(kind: Kind, w: World<K>, k: K, id: Value, env: Env)
    requires kind.tracked && id in w.db
    ensures var r := LifecycleRuns.StepWorld(kind, LifecycleRuns.Read(k, id), w);
            var raw := kind.decode(w.db[id]);
            && k in r.models && r.models[k] == ModelState(raw, true, raw, Changeset(map[], [])) && r.db == w.db
            && Save(kind, k, At(r, k), env) == OneStep(At(r, k), None)
  {
    var r := LifecycleRuns.StepWorld(kind, LifecycleRuns.Read(k, id), w);
    LifecycleRuns.CleanSaveIsSilent(kind, k, At(r, k), env);
  }
}
