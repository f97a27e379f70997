/** The collection's writes as the source performs them: in place, on model objects
    handed over by reference, hook by hook. Each is proved against its function in
    Lifecycle, on the world made of the models it was given. */
module Collections {
  import opened Bson
  import opened Filter
  import opened Queries
  import opened State
  import opened Lifecycle

  class Collection {
    const kind: Kind
    var db: Database
    var log: seq<Entry<Model>>

    constructor (kind: Kind, db: Database)
      ensures this.kind == kind && this.db == db && log == []
    {
      this.kind, this.db, this.log := kind, db, [];
    }

    ghost function WorldOf(models: set<Model>): World<Model>
      reads this, models
    {
      World(map m | m in models :: m.View(), db, log)
    }

    ghost function OneOf(model: Model): One<Model>
      reads this, model
    {
      One(model.View(), db, log)
    }

    /** A model type's hook, then the observers, stopping at the first error. */
    method RunAll(model: Model, hooks: seq<Hook>) returns (err: Option<Error>)
      modifies this`log, model`fields
      ensures OneStep(OneOf(model), err) == Hooked(model, old(OneOf(model)), hooks)
    {
      for i := 0 to |hooks|
        invariant var r := RunHooks(hooks[..i], old(model.fields));
                  model.fields == r.fields && log == old(log) + HookEntries(model, r.ran) && !r.failed
      {
        var result := hooks[i](model.fields);
        HookStep(hooks, i, old(model.fields), model);
        model.fields := result.fields;
        log := log + [HookRan(model)];
        if result.failed {
          StoppedEarly(hooks, i + 1, old(model.fields));
          return Some(HookFailed);
        }
      }
      assert hooks[..|hooks|] == hooks;
      return None;
    }

    /** The before-hooks and the stamp. */
    method PrepareModel(model: Model, env: Env) returns (err: Option<Error>)
      modifies this`log, model`fields
      ensures OneStep(OneOf(model), err) == Prepare(kind, model, old(OneOf(model)), env)
    {
      err := RunAll(model, env.before);
      if err.None? {
        model.fields := Prepared(kind, model.fields, env);
      }
    }

    /** insert */
    method Insert(model: Model, env: Env) returns (err: Option<Error>)
      requires model.tracked == kind.tracked
      modifies this, model
      ensures OneStep(OneOf(model), err) == Lifecycle.Insert(kind, model, old(OneOf(model)), env)
    {
      err := PrepareModel(model, env);
      if err.Some? {
        return;
      }
      ghost var p := OneOf(model);
      err := InsertRefused(db, model.fields, env);
      if err.Some? {
        return;
      }
      db := Stored(db, model.fields, env);
      log := log + [Inserted(model, model.fields)];
      model.RecordWrite(NO_CHANGES);
      model.Snapshot();
      assert OneOf(model) == Saved(kind, model, p, env);
      err := RunAll(model, env.after);
    }

    /** The sending half of update. */
    method SendUpdate(model: Model, env: Env) returns (err: Option<Error>)
      requires model.tracked == kind.tracked
      modifies this, model
      ensures OneStep(OneOf(model), err) == Send(kind, model, old(OneOf(model)), env)
    {
      var changes := ComputeDiff(model.original, model.fields);
      var id := Lookup(model.fields, ID);
      if kind.timestamped {
        model.fields := Replace(model.fields, UPDATED_AT, env.now);
        changes := changes.(set_ := changes.set_[UPDATED_AT := env.now]);
      }
      if id.None? {
        return Some(NoId);
      }
      if env.serverFails {
        return Some(ServerFailed);
      }
      if id.value in db {
        db := db[id.value := Patch(changes, db[id.value])];
      }
      log := log + [Updated(model, id.value, changes)];
      model.RecordWrite(changes);
      return None;
    }

    method Settle(model: Model)
      requires model.tracked == kind.tracked
      modifies this`log, model
      ensures model.fields == old(model.fields)
      ensures OneOf(model) == Lifecycle.Settle(kind, model, old(OneOf(model)))
    {
      model.Snapshot();
      log := log + [Settled(model, model.fields)];
    }

    /** update */
    method Update(model: Model, env: Env) returns (err: Option<Error>)
      requires model.tracked == kind.tracked
      modifies this, model
      ensures OneStep(OneOf(model), err) == Lifecycle.Update(kind, model, old(OneOf(model)), env)
    {
      var dirty := model.IsDirty([]);
      if !dirty {
        return None;
      }
      err := RunAll(model, env.before);
      if err.Some? {
        return;
      }
      var changes := model.Changes();
      if changes.set_ == map[] && changes.unset == [] {
        return None;
      }
      err := SendUpdate(model, env);
      if err.Some? {
        return;
      }
      err := RunAll(model, env.after);
      if err.Some? {
        return;
      }
      Settle(model);
    }

    /** Save */
    method Save(model: Model, env: Env) returns (err: Option<Error>)
      requires model.tracked == kind.tracked
      modifies this, model
      ensures OneStep(OneOf(model), err) == Lifecycle.Save(kind, model, old(OneOf(model)), env)
    {
      if !model.Persisted() {
        err := Insert(model, env);
      } else {
        err := Update(model, env);
      }
    }

    method PrepareAmong(model: Model, env: Env, ghost all: set<Model>) returns (err: Option<Error>)
      requires model in all
      modifies this`log, model`fields
      ensures var w := old(WorldOf(all));
              Stepped(WorldOf(all), err) == Lift(w, model, Prepare(kind, model, At(w, model), env))
    {
      err := PrepareModel(model, env);
      assert WorldOf(all).models == old(WorldOf(all)).models[model := model.View()];
    }

    /** One document of the server's InsertMany. */
    method WriteAmong(model: Model, env: Env, ghost all: set<Model>) returns (err: Option<Error>)
      requires model in all
      modifies this
      ensures var w := old(WorldOf(all));
              Stepped(WorldOf(all), err) == Lift(w, model, WriteOne(model, At(w, model), env))
    {
      err := InsertRefused(db, model.fields, env);
      if err.None? {
        db := Stored(db, model.fields, env);
        log := log + [InsertedInBatch(model)];
      }
      assert WorldOf(all).models == old(WorldOf(all)).models[model := model.View()];
    }

    /** Snapshot and after-hooks of one model of the batch. */
    method FinishAmong(model: Model, env: Env, ghost all: set<Model>) returns (err: Option<Error>)
      requires model in all && model.tracked == kind.tracked
      modifies this`log, model
      ensures var w := old(WorldOf(all));
              Stepped(WorldOf(all), err) == Lift(w, model, FinishOne(kind, model, At(w, model), env))
    {
      Settle(model);
      err := RunAll(model, env.after);
      assert WorldOf(all).models == old(WorldOf(all)).models[model := model.View()];
    }

    /** CreateMany's preparing loop. The same object may be listed twice. */
    method PrepareEach(models: seq<Model>, envs: seq<Env>, ghost all: set<Model>) returns (err: Option<Error>)
      requires |envs| == |models| && forall m | m in models :: m in all
      modifies this`log, models
      ensures Stepped(WorldOf(all), err) == PrepareAll(kind, old(WorldOf(all)), models, envs)
    {
      ghost var w := WorldOf(all);
      for i := 0 to |models|
        invariant AllIn(models, w)
        invariant Stepped(WorldOf(all), None) == PrepareAll(kind, w, models[..i], envs[..i])
      {
        PrefixStep(models, envs, i);
        assert models[i] in models;
        err := PrepareAmong(models[i], envs[i], all);
        if err.Some? {
          PrepareStopped(kind, w, models, envs, i + 1);
          return;
        }
      }
      assert models[..|models|] == models && envs[..|models|] == envs;
      return None;
    }

    /** The server's ordered InsertMany over the prepared models. */
    method InsertMany(models: seq<Model>, envs: seq<Env>, ghost all: set<Model>) returns (err: Option<Error>)
      requires |envs| == |models| && forall m | m in models :: m in all
      modifies this
      ensures Stepped(WorldOf(all), err) == WriteAll(old(WorldOf(all)), models, envs)
    {
      ghost var w := WorldOf(all);
      for i := 0 to |models|
        invariant AllIn(models, w)
        invariant Stepped(WorldOf(all), None) == WriteAll(w, models[..i], envs[..i])
      {
        PrefixStep(models, envs, i);
        assert models[i] in models;
        err := WriteAmong(models[i], envs[i], all);
        if err.Some? {
          WriteStopped(w, models, envs, i + 1);
          return;
        }
      }
      assert models[..|models|] == models && envs[..|models|] == envs;
      return None;
    }

    /** CreateMany's finishing loop. */
    method FinishEach(models: seq<Model>, envs: seq<Env>, ghost all: set<Model>) returns (err: Option<Error>)
      requires |envs| == |models| && forall m | m in models :: m in all && m.tracked == kind.tracked
      modifies this`log, models
      ensures Stepped(WorldOf(all), err) == FinishAll(kind, old(WorldOf(all)), models, envs)
    {
      ghost var w := WorldOf(all);
      for i := 0 to |models|
        invariant AllIn(models, w)
        invariant Stepped(WorldOf(all), None) == FinishAll(kind, w, models[..i], envs[..i])
      {
        assert models[i] in models;
        FinishStep(kind, w, models, envs, i);
        ghost var s := FinishAll(kind, w, models[..i], envs[..i]).w;
        assert WorldOf(all) == s;
        err := FinishAmong(models[i], envs[i], all);
        assert Stepped(WorldOf(all), err) == Lift(s, models[i], FinishOne(kind, models[i], At(s, models[i]), envs[i]));
        if err.Some? {
          FinishStopped(kind, w, models, envs, i + 1);
          return;
        }
      }
      assert models[..|models|] == models && envs[..|models|] == envs;
      return None;
    }

    /** CreateMany: nothing is sent before every model is prepared. */
    method CreateMany(models: seq<Model>, envs: seq<Env>) returns (err: Option<Error>)
      requires |envs| == |models| && forall m | m in models :: m.tracked == kind.tracked
      modifies this, models
      ensures var all := set m | m in models;
              Stepped(WorldOf(all), err) == Lifecycle.CreateMany(kind, old(WorldOf(all)), models, envs)
    {
      ghost var all := set m | m in models;
      if |models| == 0 {
        return None;
      }
      err := PrepareEach(models, envs, all);
      if err.Some? {
        return;
      }
      err := InsertMany(models, envs, all);
      if err.Some? {
        return;
      }
      err := FinishEach(models, envs, all);
    }
  }

  lemma PrefixStep<A, B>(a: seq<A>, b: seq<B>, i: nat)
    requires i < |a| == |b|
    ensures a[..i + 1][..i] == a[..i] && a[..i + 1][i] == a[i]
    ensures b[..i + 1][..i] == b[..i] && b[..i + 1][i] == b[i]
  {
  }

  lemma FinishStep<K>(kind: Kind, w: World<K>, ks: seq<K>, envs: seq<Env>, i: nat)
    requires i < |ks| == |envs| && AllIn(ks, w)
    ensures AllIn(ks[..i], w) && AllIn(ks[..i + 1], w)
    ensures var s := FinishAll(kind, w, ks[..i], envs[..i]);
            FinishAll(kind, w, ks[..i + 1], envs[..i + 1]) ==
            if s.err.Some? then s else Lift(s.w, ks[i], FinishOne(kind, ks[i], At(s.w, ks[i]), envs[i]))
  {
    PrefixStep(ks, envs, i);
  }

  lemma HookStep<K>(hooks: seq<Hook>, i: nat, fields: Raw, k: K)
    requires i < |hooks| && !RunHooks(hooks[..i], fields).failed
    ensures var before, after := RunHooks(hooks[..i], fields), RunHooks(hooks[..i + 1], fields);
            var result := hooks[i](before.fields);
            && after == HookRun(result.fields, before.ran + 1, result.failed)
            && HookEntries(k, after.ran) == HookEntries(k, before.ran) + [HookRan(k)]
  {
    assert hooks[..i + 1][..i] == hooks[..i] && hooks[..i + 1][i] == hooks[i];
  }

  lemma {:induction false} StoppedEarly(hooks: seq<Hook>, n: nat, fields: Raw)
    requires n <= |hooks| && RunHooks(hooks[..n], fields).failed
    ensures RunHooks(hooks, fields) == RunHooks(hooks[..n], fields)
    decreases |hooks|
  {
    if n < |hooks| {
      var shorter := hooks[..|hooks| - 1];
      assert shorter[..n] == hooks[..n];
      StoppedEarly(shorter, n, fields);
    } else {
      assert hooks[..n] == hooks;
    }
  }

  lemma {:induction false} PrepareStopped<K>(kind: Kind, w: World<K>, ks: seq<K>, envs: seq<Env>, n: nat)
    requires n <= |ks| == |envs| && AllIn(ks, w)
    requires PrepareAll(kind, w, ks[..n], envs[..n]).err.Some?
    ensures PrepareAll(kind, w, ks, envs) == PrepareAll(kind, w, ks[..n], envs[..n])
    decreases |ks|
  {
    if n < |ks| {
      var m := |ks| - 1;
      assert ks[..m][..n] == ks[..n] && envs[..m][..n] == envs[..n];
      PrepareStopped(kind, w, ks[..m], envs[..m], n);
    } else {
      assert ks[..n] == ks && envs[..n] == envs;
    }
  }

  lemma {:induction false} WriteStopped<K>(w: World<K>, ks: seq<K>, envs: seq<Env>, n: nat)
    requires n <= |ks| == |envs| && AllIn(ks, w)
    requires WriteAll(w, ks[..n], envs[..n]).err.Some?
    ensures WriteAll(w, ks, envs) == WriteAll(w, ks[..n], envs[..n])
    decreases |ks|
  {
    if n < |ks| {
      var m := |ks| - 1;
      assert ks[..m][..n] == ks[..n] && envs[..m][..n] == envs[..n];
      WriteStopped(w, ks[..m], envs[..m], n);
    } else {
      assert ks[..n] == ks && envs[..n] == envs;
    }
  }

  lemma {:induction false} FinishStopped<K>(kind: Kind, w: World<K>, ks: seq<K>, envs: seq<Env>, n: nat)
    requires n <= |ks| == |envs| && AllIn(ks, w)
    requires FinishAll(kind, w, ks[..n], envs[..n]).err.Some?
    ensures FinishAll(kind, w, ks, envs) == FinishAll(kind, w, ks[..n], envs[..n])
    decreases |ks|
  {
    if n < |ks| {
      var m := |ks| - 1;
      assert ks[..m][..n] == ks[..n] && envs[..m][..n] == envs[..n];
      FinishStopped(kind, w, ks[..m], envs[..m], n);
    } else {
      assert ks[..n] == ks && envs[..n] == envs;
    }
  }
}
