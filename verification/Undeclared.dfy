/** Fields a model type does not declare: no run of its models touches them in the
    documents it saves onto (odm/state.go). */
module Undeclared {
  import opened Bson
  import opened Queries
  import opened State
  import opened Lifecycle
  import opened LifecycleRuns
  import opened Writers

  // ---- Who declares what ----

  ghost predicate KeepsDeclared(h: Hook, declared: set<string>) {
    forall r: Raw :: Covers(declared, r) ==> Covers(declared, h(r).fields)
  }

  ghost predicate HooksDeclared(hooks: seq<Hook>, declared: set<string>) {
    forall i :: 0 <= i < |hooks| ==> KeepsDeclared(hooks[i], declared)
  }

  ghost predicate EnvDeclared(env: Env, declared: set<string>) {
    HooksDeclared(env.before, declared) && HooksDeclared(env.after, declared)
  }

  /** The type: what documents decode to, and the stamp of a timestamped one. */
  ghost predicate KindDeclared(kind: Kind, declared: set<string>) {
    && (forall d: Doc :: Covers(declared, kind.decode(d)))
    && (kind.timestamped ==> UPDATED_AT in declared)
  }

  predicate ModelDeclared(m: ModelState, declared: set<string>) {
    Covers(declared, m.fields) && Covers(declared, m.original)
  }

  ghost predicate StepDeclared<K>(s: Step<K>, declared: set<string>) {
    match s
    case New(_, fields) => Covers(declared, fields)
    case Edit(_, fields) => Covers(declared, fields)
    case CreateStep(_, env) => EnvDeclared(env, declared)
    case SaveStep(_, env) => EnvDeclared(env, declared)
    case CreateManyStep(_, envs) => forall i :: 0 <= i < |envs| ==> EnvDeclared(envs[i], declared)
    case Read(_, _) => true
    case Elsewhere(_) => false
  }

  // ---- What that keeps ----

  /** No update sent so far touches the field. */
  predicate Misses<K>(log: seq<Entry<K>>, f: string) {
    forall i :: 0 <= i < |log| && log[i].Updated? ==> !TouchesField(log[i].changes, f)
  }

  predicate OneDeclared<K>(o: One<K>, declared: set<string>, f: string) {
    ModelDeclared(o.m, declared) && Misses(o.log, f)
  }

  predicate AllDeclared<K>(w: World<K>, declared: set<string>, f: string) {
    (forall k | k in w.models :: ModelDeclared(w.models[k], declared)) && Misses(w.log, f)
  }

  lemma {:induction false} RunHooksDeclared(hooks: seq<Hook>, fields: Raw, declared: set<string>)
    requires HooksDeclared(hooks, declared) && Covers(declared, fields)
    ensures Covers(declared, RunHooks(hooks, fields).fields)
    decreases |hooks|
  {
    if hooks != [] {
      var n := |hooks| - 1;
      RunHooksDeclared(hooks[..n], fields, declared);
      assert KeepsDeclared(hooks[n], declared);
    }
  }

  lemma HookedDeclared<K>(k: K, o: One<K>, hooks: seq<Hook>, declared: set<string>, f: string)
    requires OneDeclared(o, declared, f) && HooksDeclared(hooks, declared)
    ensures OneDeclared(Hooked(k, o, hooks).o, declared, f)
  {
    RunHooksDeclared(hooks, o.m.fields, declared);
  }

  lemma PreparedDeclared(kind: Kind, raw: Raw, env: Env, declared: set<string>)
    requires Covers(declared, raw)
    ensures Covers(declared, Prepared(kind, raw, env))
  {
    var withId := ReplaceIf(raw, ID, ZERO_ID, env.newId);
    assert Covers(declared, withId);
    assert Covers(declared, ReplaceIf(withId, CREATED_AT, ZERO_TIME, env.now));
  }

  lemma PrepareDeclared<K>(kind: Kind, k: K, o: One<K>, env: Env, declared: set<string>, f: string)
    requires OneDeclared(o, declared, f) && HooksDeclared(env.before, declared)
    ensures OneDeclared(Prepare(kind, k, o, env).o, declared, f)
  {
    HookedDeclared(k, o, env.before, declared, f);
    PreparedDeclared(kind, Hooked(k, o, env.before).o.m.fields, env, declared);
  }

  lemma InsertDeclared<K>(kind: Kind, k: K, o: One<K>, env: Env, declared: set<string>, f: string)
    requires OneDeclared(o, declared, f) && EnvDeclared(env, declared)
    ensures OneDeclared(Insert(kind, k, o, env).o, declared, f)
  {
    PrepareDeclared(kind, k, o, env, declared, f);
    var p := Prepare(kind, k, o, env);
    if p.err.None? && InsertRefused(p.o.db, p.o.m.fields, env).None? {
      HookedDeclared(k, Saved(kind, k, p.o, env), env.after, declared, f);
    }
  }

  /** The changeset of a declared model, stamped, touches declared fields only. */
  lemma ChangesDeclared(kind: Kind, m: ModelState, now: Value, declared: set<string>, f: string)
    requires ModelDeclared(m, declared) && f !in declared && (kind.timestamped ==> UPDATED_AT in declared)
    ensures !TouchesField(Stamped(kind, Diff(m.original, m.fields), now), f)
  {
    DiffExact(m.original, m.fields, f);
    LookupOnlyFinds(m.original, f);
    LookupOnlyFinds(m.fields, f);
  }

  lemma SendDeclared<K>(kind: Kind, k: K, o: One<K>, env: Env, declared: set<string>, f: string)
    requires OneDeclared(o, declared, f) && f !in declared && (kind.timestamped ==> UPDATED_AT in declared)
    ensures OneDeclared(Send(kind, k, o, env).o, declared, f)
  {
    ChangesDeclared(kind, o.m, env.now, declared, f);
    assert Covers(declared, Touched(kind, o.m.fields, env.now));
  }

  lemma UpdateDeclared<K>(kind: Kind, k: K, o: One<K>, env: Env, declared: set<string>, f: string)
    requires OneDeclared(o, declared, f) && EnvDeclared(env, declared) && f !in declared
    requires kind.timestamped ==> UPDATED_AT in declared
    ensures OneDeclared(Update(kind, k, o, env).o, declared, f)
  {
    HookedDeclared(k, o, env.before, declared, f);
    var h := Hooked(k, o, env.before).o;
    SendDeclared(kind, k, h, env, declared, f);
    HookedDeclared(k, Send(kind, k, h, env).o, env.after, declared, f);
  }

  lemma {:induction false} PrepareAllDeclared<K>(kind: Kind, w: World<K>, ks: seq<K>, envs: seq<Env>,
        declared: set<string>, f: string)
    requires |envs| == |ks| && AllIn(ks, w) && AllDeclared(w, declared, f)
    requires forall i :: 0 <= i < |envs| ==> EnvDeclared(envs[i], declared)
    ensures AllDeclared(PrepareAll(kind, w, ks, envs).w, declared, f)
    decreases |ks|
  {
    if ks != [] {
      var n := |ks| - 1;
      PrepareAllDeclared(kind, w, ks[..n], envs[..n], declared, f);
      var s := PrepareAll(kind, w, ks[..n], envs[..n]);
      assert ks[n] in ks;
      if s.err.None? { PrepareDeclared(kind, ks[n], At(s.w, ks[n]), envs[n], declared, f); }
    }
  }

  lemma {:induction false} WriteAllDeclared<K>(w: World<K>, ks: seq<K>, envs: seq<Env>, f: string)
    requires |envs| == |ks| && AllIn(ks, w) && Misses(w.log, f)
    ensures Misses(WriteAll(w, ks, envs).w.log, f)
    decreases |ks|
  {
    if ks != [] { WriteAllDeclared(w, ks[..|ks| - 1], envs[..|ks| - 1], f); }
  }

  lemma {:induction false} FinishAllDeclared<K>(kind: Kind, w: World<K>, ks: seq<K>, envs: seq<Env>,
        declared: set<string>, f: string)
    requires |envs| == |ks| && AllIn(ks, w) && AllDeclared(w, declared, f)
    requires forall i :: 0 <= i < |envs| ==> EnvDeclared(envs[i], declared)
    ensures AllDeclared(FinishAll(kind, w, ks, envs).w, declared, f)
    decreases |ks|
  {
    if ks != [] {
      var n := |ks| - 1;
      FinishAllDeclared(kind, w, ks[..n], envs[..n], declared, f);
      var s := FinishAll(kind, w, ks[..n], envs[..n]);
      assert ks[n] in ks;
      if s.err.None? { HookedDeclared(ks[n], Settle(kind, ks[n], At(s.w, ks[n])), envs[n].after, declared, f); }
    }
  }

  lemma CreateManyDeclared<K>(kind: Kind, w: World<K>, ks: seq<K>, envs: seq<Env>, declared: set<string>, f: string)
    requires |envs| == |ks| && AllIn(ks, w) && AllDeclared(w, declared, f)
    requires forall i :: 0 <= i < |envs| ==> EnvDeclared(envs[i], declared)
    ensures AllDeclared(CreateMany(kind, w, ks, envs).w, declared, f)
  {
    PrepareAllDeclared(kind, w, ks, envs, declared, f);
    var p := PrepareAll(kind, w, ks, envs);
    if p.err.None? {
      WriteAllDeclared(p.w, ks, envs, f);
      var s := WriteAll(p.w, ks, envs);
      if s.err.None? { FinishAllDeclared(kind, s.w, ks, envs, declared, f); }
    }
  }

  lemma StepKeepsDeclared<K>(kind: Kind, s: Step<K>, w: World<K>, declared: set<string>, f: string)
    requires KindDeclared(kind, declared) && StepDeclared(s, declared) && f !in declared && AllDeclared(w, declared, f)
    ensures AllDeclared(StepWorld(kind, s, w), declared, f)
  {
    match s
    case CreateStep(k, env) => if k in w.models { InsertDeclared(kind, k, At(w, k), env, declared, f); }
    case SaveStep(k, env) =>
      if k in w.models {
        InsertDeclared(kind, k, At(w, k), env, declared, f);
        UpdateDeclared(kind, k, At(w, k), env, declared, f);
      }
    case CreateManyStep(ks, envs) =>
      if |envs| == |ks| && AllIn(ks, w) { CreateManyDeclared(kind, w, ks, envs, declared, f); }
    case _ =>
  }

  lemma {:induction false} RunKeepsDeclared<K>(kind: Kind, steps: seq<Step<K>>, w: World<K>, declared: set<string>,
        f: string)
    requires KindDeclared(kind, declared) && f !in declared && AllDeclared(w, declared, f)
    requires forall i :: 0 <= i < |steps| ==> StepDeclared(steps[i], declared)
    ensures AllDeclared(Run(kind, steps, w), declared, f)
  {
    if steps != [] {
      StepKeepsDeclared(kind, steps[0], w, declared, f);
      RunKeepsDeclared(kind, steps[1..], StepWorld(kind, steps[0], w), declared, f);
    }
  }

  lemma {:induction false} MissedStays<K>(log: seq<Entry<K>>, id: Value, f: string, initial: Option<Value>)
    requires Misses(log, f)
    ensures FieldAfter(log, id, f, initial) == initial
    decreases |log|
  {
    if log != [] { MissedStays(log[..|log| - 1], id, f, initial); }
  }

  /** Over any run of models whose type, hooks and edits stay within the declared
      fields, every document that was there keeps every undeclared field as it was. */
  lemma UndeclaredUntouched<K(!new)>(kind: Kind, steps: seq<Step<K>>, db: Database, declared: set<string>, id: Value,
        f: string)
    requires KindDeclared(kind, declared) && f !in declared && id in db
    requires forall i :: 0 <= i < |steps| ==> StepDeclared(steps[i], declared)
    ensures var r := Run(kind, steps, Beginning(db)).db; id in r && Get(r[id], f) == Get(db[id], f)
  {
    var w := Run(kind, steps, Beginning(db));
    RunKeepsDeclared(kind, steps, Beginning(db), declared, f);
    LastSaveWins(kind, steps, db, id, f);
    MissedStays(w.log, id, f, Get(db[id], f));
  }

  /** One Save leaves them alone whoever else has been writing to the database. */
  lemma SaveLeavesUndeclared<K>(kind: Kind, k: K, o: One<K>, env: Env, declared: set<string>, id: Value, f: string)
    requires kind.tracked && o.m.exists_ && ModelDeclared(o.m, declared) && HooksDeclared(env.before, declared)
    requires kind.timestamped ==> UPDATED_AT in declared
    requires f !in declared && id in o.db
    ensures var r := Save(kind, k, o, env).o; id in r.db && Get(r.db[id], f) == Get(o.db[id], f)
  {
    RunHooksDeclared(env.before, o.m.fields, declared);
    SaveSends(kind, k, o, env);
    var m := o.m.(fields := RunHooks(env.before, o.m.fields).fields);
    ChangesDeclared(kind, m, env.now, declared, f);
    SendToField(o.db, Sending(kind, o.m, env), id, f);
  }
}
