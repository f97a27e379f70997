/** Many models saved onto shared documents: what the stored fields end up as. */
module Writers {
  import opened Bson
  import opened Queries
  import opened State
  import opened Lifecycle
  import opened LifecycleRuns

  /** The field's content after the logged updates of one document: the last update
      whose changeset touches it decides, absent if that one unset it; otherwise the
      initial content. */
  function FieldAfter<K(==)>(log: seq<Entry<K>>, id: Value, f: string, initial: Option<Value>): Option<Value>
    decreases |log|
  {
    if log == [] then initial
    else
      var e := log[|log| - 1];
      if e.Updated? && e.id == id && f in e.changes.set_ then Some(e.changes.set_[f])
      else if e.Updated? && e.id == id && f in e.changes.unset then None
      else FieldAfter(log[..|log| - 1], id, f, initial)
  }

  /** The stored document is what its initial version and the log say. */
  ghost predicate Explained<K(!new)>(db: Database, log: seq<Entry<K>>, id: Value, initial: Doc) {
    id in db && forall f :: Get(db[id], f) == FieldAfter(log, id, f, Get(initial, f))
  }

  lemma OtherEntry<K(!new)>(db: Database, log: seq<Entry<K>>, e: Entry<K>, id: Value, initial: Doc)
    requires Explained(db, log, id, initial) && (e.Updated? ==> e.id != id)
    ensures Explained(db, log + [e], id, initial)
  {
    OneMore(log, e);
  }

  lemma {:induction false} HookEntriesExplain<K(!new)>(db: Database, log: seq<Entry<K>>, k: K, n: nat, id: Value,
        initial: Doc)
    requires Explained(db, log, id, initial)
    ensures Explained(db, log + HookEntries(k, n), id, initial)
    decreases n
  {
    if n == 0 {
      assert log + HookEntries(k, 0) == log;
    } else {
      HookEntriesExplain(db, log, k, n - 1, id, initial);
      OtherEntry(db, log + HookEntries(k, n - 1), HookRan(k), id, initial);
      assert log + HookEntries(k, n) == log + HookEntries(k, n - 1) + [HookRan(k)];
    }
  }

  lemma PatchExplains<K(!new)>(db: Database, log: seq<Entry<K>>, k: K, at: Value, c: Changeset, id: Value, initial: Doc)
    requires Explained(db, log, id, initial)
    ensures Explained(Patched(db, at, c), log + [Updated(k, at, c)], id, initial)
  {
    OneMore(log, Updated(k, at, c));
  }

  lemma StoreExplains<K(!new)>(db: Database, log: seq<Entry<K>>, raw: Raw, env: Env, id: Value, initial: Doc)
    requires Explained(db, log, id, initial) && InsertRefused(db, raw, env).None?
    ensures Explained(Stored(db, raw, env), log, id, initial)
  {
    assert InsertId(raw, env) != id;
  }

  lemma InsertExplains<K(!new)>(kind: Kind, k: K, o: One<K>, env: Env, id: Value, initial: Doc)
    requires Explained(o.db, o.log, id, initial)
    ensures var r := Insert(kind, k, o, env).o; Explained(r.db, r.log, id, initial)
    ensures var p := Prepare(kind, k, o, env).o; Explained(p.db, p.log, id, initial)
  {
    HookEntriesExplain(o.db, o.log, k, RunHooks(env.before, o.m.fields).ran, id, initial);
    var p := Prepare(kind, k, o, env);
    if p.err.None? && InsertRefused(p.o.db, p.o.m.fields, env).None? {
      StoreExplains(p.o.db, p.o.log, p.o.m.fields, env, id, initial);
      var s := Saved(kind, k, p.o, env);
      OtherEntry(s.db, p.o.log, Inserted(k, p.o.m.fields), id, initial);
      HookEntriesExplain(s.db, s.log, k, RunHooks(env.after, s.m.fields).ran, id, initial);
    }
  }

  lemma UpdateExplains<K(!new)>(kind: Kind, k: K, o: One<K>, env: Env, id: Value, initial: Doc)
    requires Explained(o.db, o.log, id, initial)
    ensures var r := Update(kind, k, o, env).o; Explained(r.db, r.log, id, initial)
  {
    HookEntriesExplain(o.db, o.log, k, RunHooks(env.before, o.m.fields).ran, id, initial);
    var h := Hooked(k, o, env.before);
    var s := Send(kind, k, h.o, env);
    if s.err.None? {
      var at := Lookup(h.o.m.fields, ID).value;
      var c := Stamped(kind, Diff(h.o.m.original, h.o.m.fields), env.now);
      PatchExplains(h.o.db, h.o.log, k, at, c, id, initial);
      HookEntriesExplain(s.o.db, s.o.log, k, RunHooks(env.after, s.o.m.fields).ran, id, initial);
      var a := Hooked(k, s.o, env.after).o;
      OtherEntry(a.db, a.log, Settled(k, a.m.fields), id, initial);
    }
  }

  lemma {:induction false} PrepareAllExplains<K(!new)>(kind: Kind, w: World<K>, ks: seq<K>, envs: seq<Env>,
        id: Value, initial: Doc)
    requires |envs| == |ks| && AllIn(ks, w) && Explained(w.db, w.log, id, initial)
    ensures var r := PrepareAll(kind, w, ks, envs).w; Explained(r.db, r.log, id, initial)
    decreases |ks|
  {
    if ks != [] {
      var n := |ks| - 1;
      PrepareAllExplains(kind, w, ks[..n], envs[..n], id, initial);
      var s := PrepareAll(kind, w, ks[..n], envs[..n]);
      assert ks[n] in ks;
      if s.err.None? { InsertExplains(kind, ks[n], At(s.w, ks[n]), envs[n], id, initial); }
    }
  }

  lemma {:induction false} WriteAllExplains<K(!new)>(w: World<K>, ks: seq<K>, envs: seq<Env>, id: Value, initial: Doc)
    requires |envs| == |ks| && AllIn(ks, w) && Explained(w.db, w.log, id, initial)
    ensures var r := WriteAll(w, ks, envs).w; Explained(r.db, r.log, id, initial)
    decreases |ks|
  {
    if ks != [] {
      var n := |ks| - 1;
      WriteAllExplains(w, ks[..n], envs[..n], id, initial);
      var s := WriteAll(w, ks[..n], envs[..n]);
      assert ks[n] in ks;
      if s.err.None? && InsertRefused(s.w.db, s.w.models[ks[n]].fields, envs[n]).None? {
        StoreExplains(s.w.db, s.w.log, s.w.models[ks[n]].fields, envs[n], id, initial);
        OtherEntry(Stored(s.w.db, s.w.models[ks[n]].fields, envs[n]), s.w.log, InsertedInBatch(ks[n]), id, initial);
      }
    }
  }

  lemma {:induction false} FinishAllExplains<K(!new)>(kind: Kind, w: World<K>, ks: seq<K>, envs: seq<Env>, id: Value,
        initial: Doc)
    requires |envs| == |ks| && AllIn(ks, w) && Explained(w.db, w.log, id, initial)
    ensures var r := FinishAll(kind, w, ks, envs).w; Explained(r.db, r.log, id, initial)
    decreases |ks|
  {
    if ks != [] {
      var n := |ks| - 1;
      FinishAllExplains(kind, w, ks[..n], envs[..n], id, initial);
      var s := FinishAll(kind, w, ks[..n], envs[..n]);
      assert ks[n] in ks;
      if s.err.None? {
        var o := Settle(kind, ks[n], At(s.w, ks[n]));
        OtherEntry(s.w.db, s.w.log, Settled(ks[n], o.m.fields), id, initial);
        HookEntriesExplain(o.db, o.log, ks[n], RunHooks(envs[n].after, o.m.fields).ran, id, initial);
      }
    }
  }

  lemma StepExplains<K(!new)>(kind: Kind, s: Step<K>, w: World<K>, id: Value, initial: Doc)
    requires Explained(w.db, w.log, id, initial) && !s.Elsewhere?
    ensures var r := StepWorld(kind, s, w); Explained(r.db, r.log, id, initial)
  {
    match s
    case New(k, _) => OtherEntry(w.db, w.log, Built(k), id, initial);
    case Read(k, at) => if at in w.db { OtherEntry(w.db, w.log, Hydrated(k, kind.decode(w.db[at])), id, initial); }
    case Edit(_, _) =>
    case CreateStep(k, env) => if k in w.models { InsertExplains(kind, k, At(w, k), env, id, initial); }
    case SaveStep(k, env) =>
      if k in w.models {
        InsertExplains(kind, k, At(w, k), env, id, initial);
        UpdateExplains(kind, k, At(w, k), env, id, initial);
      }
    case CreateManyStep(ks, envs) =>
      if |envs| == |ks| && AllIn(ks, w) {
        PrepareAllExplains(kind, w, ks, envs, id, initial);
        var p := PrepareAll(kind, w, ks, envs);
        if p.err.None? {
          WriteAllExplains(p.w, ks, envs, id, initial);
          if WriteAll(p.w, ks, envs).err.None? { FinishAllExplains(kind, WriteAll(p.w, ks, envs).w, ks, envs, id,
              initial); }
        }
      }
  }

  lemma {:induction false} RunExplains<K(!new)>(kind: Kind, steps: seq<Step<K>>, w: World<K>, id: Value, initial: Doc)
    requires Explained(w.db, w.log, id, initial)
    requires forall s | s in steps :: !s.Elsewhere?
    ensures var r := Run(kind, steps, w); Explained(r.db, r.log, id, initial)
  {
    if steps != [] {
      assert steps[0] in steps;
      StepExplains(kind, steps[0], w, id, initial);
      RunExplains(kind, steps[1..], StepWorld(kind, steps[0], w), id, initial);
    }
  }

  /** With any number of models reading, editing, creating and saving in any order,
      hooks and failures included, every field of a stored document ends as the value
      of the last Save whose changeset touches it, absent if that Save unset it, and
      as it was initially if none does. */
  lemma LastSaveWins<K(!new)>(kind: Kind, steps: seq<Step<K>>, db: Database, id: Value, f: string)
    requires id in db && forall s | s in steps :: !s.Elsewhere?
    ensures var r := Run(kind, steps, Beginning(db));
            id in r.db && Get(r.db[id], f) == FieldAfter(r.log, id, f, Get(db[id], f))
  {
    RunExplains(kind, steps, Beginning(db), id, db[id]);
  }

  // ---- Saves that touch different fields commute ----

  /** What a Save of a persisted model sends; it depends on the model alone. */
  function Sending(kind: Kind, m: ModelState, env: Env): Option<(Value, Changeset)> {
    if Empty(ChangesOf(kind.tracked, m)) then None
    else
      var r := RunHooks(env.before, m.fields);
      var after := m.(fields := r.fields);
      if r.failed || Empty(ChangesOf(kind.tracked, after)) || Lookup(after.fields, ID).None? ||
          env.serverFails then None
      else Some((Lookup(after.fields, ID).value, Stamped(kind, Diff(after.original, after.fields), env.now)))
  }

  function SendTo(db: Database, s: Option<(Value, Changeset)>): Database {
    match s
    case None => db
    case Some((id, c)) => Patched(db, id, c)
  }

  /** A Save of a persisted model changes the database by exactly what it sends. */
  lemma SaveSends<K>(kind: Kind, k: K, o: One<K>, env: Env)
    requires kind.tracked && o.m.exists_
    ensures Save(kind, k, o, env).o.db == SendTo(o.db, Sending(kind, o.m, env))
  {
  }

  /** What it makes of the model, and its answer, do not depend on the database. */
  lemma SaveIgnoresDatabase<K>(kind: Kind, k: K, o: One<K>, env: Env, db: Database, log: seq<Entry<K>>)
    requires kind.tracked && o.m.exists_
    ensures var r, q := Save(kind, k, o, env), Save(kind, k, One(o.m, db, log), env);
            r.o.m == q.o.m && r.err == q.err
  {
    var p := One(o.m, db, log);
    var h, g := Hooked(k, o, env.before), Hooked(k, p, env.before);
    assert h.o.m == g.o.m && h.err == g.err;
    var s, t := Send(kind, k, h.o, env), Send(kind, k, g.o, env);
    assert s.o.m == t.o.m && s.err == t.err;
  }

  function Field(db: Database, id: Value, f: string): Option<Value> {
    if id in db then Get(db[id], f) else None
  }

  /** No field but updated_at is touched by both on one document. */
  ghost predicate Independent(a: Option<(Value, Changeset)>, b: Option<(Value, Changeset)>) {
    a.None? || b.None? || a.value.0 != b.value.0 ||
    forall f :: f != UPDATED_AT ==> !(TouchesField(a.value.1, f) && TouchesField(b.value.1, f))
  }

  lemma SendToField(db: Database, s: Option<(Value, Changeset)>, id: Value, f: string)
    ensures Field(SendTo(db, s), id, f) ==
            if s.None? || s.value.0 != id || id !in db || !TouchesField(s.value.1, f) then Field(db, id, f)
            else if f in s.value.1.set_ then Some(s.value.1.set_[f]) else None
    ensures id in SendTo(db, s) <==> id in db
  {
  }

  /** Two persisted models saved in either order: with independent changesets every
      field of every document but updated_at ends the same, and so do both models. */
  lemma SavesCommute<K>(kind: Kind, w: World<K>, j: K, k: K, e: Env, f: Env, id: Value, field: string)
    requires j in w.models && k in w.models && j != k && kind.tracked
    requires w.models[j].exists_ && w.models[k].exists_
    requires Independent(Sending(kind, w.models[j], e), Sending(kind, w.models[k], f))
    requires field != UPDATED_AT
    ensures var first := Lift(w, j, Save(kind, j, At(w, j), e)).w;
            var both := Lift(first, k, Save(kind, k, At(first, k), f)).w;
            var other := Lift(w, k, Save(kind, k, At(w, k), f)).w;
            var htob := Lift(other, j, Save(kind, j, At(other, j), e)).w;
            && Field(both.db, id, field) == Field(htob.db, id, field)
            && both.models[j] == htob.models[j] && both.models[k] == htob.models[k]
  {
    var a, b := Sending(kind, w.models[j], e), Sending(kind, w.models[k], f);
    var first := Lift(w, j, Save(kind, j, At(w, j), e)).w;
    var other := Lift(w, k, Save(kind, k, At(w, k), f)).w;
    SaveSends(kind, j, At(w, j), e);
    SaveSends(kind, k, At(w, k), f);
    SaveSends(kind, j, At(other, j), e);
    SaveSends(kind, k, At(first, k), f);
    SaveIgnoresDatabase(kind, j, At(w, j), e, other.db, other.log);
    SaveIgnoresDatabase(kind, k, At(w, k), f, first.db, first.log);
    SendToField(w.db, a, id, field);
    SendToField(w.db, b, id, field);
    SendToField(first.db, b, id, field);
    SendToField(other.db, a, id, field);
  }
}
