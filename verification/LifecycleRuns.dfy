/** What every run of creates, bulk creates, reads, edits and saves keeps. */
module LifecycleRuns {
  import opened Bson
  import opened Queries
  import opened State
  import opened Lifecycle

  /** One thing that can happen: a caller builds, reads or edits a model, calls the
      collection, or another writer changes the database. */
  datatype Step<K> =
    | New(k: K, fields: Raw)
    | Read(k: K, id: Value)
    | Edit(k: K, fields: Raw)
    | CreateStep(k: K, env: Env)
    | SaveStep(k: K, env: Env)
    | CreateManyStep(ks: seq<K>, envs: seq<Env>)
    | Elsewhere(db: Database)

  function StepWorld<K>(kind: Kind, s: Step<K>, w: World<K>): World<K> {
    match s
    case New(k, fields) =>
      World(w.models[k := ModelState(fields, false, [], NO_CHANGES)], w.db, w.log + [Built(k)])
    case Read(k, id) =>
      if id !in w.db then w
      else
        var decoded := ModelState(kind.decode(w.db[id]), false, [], NO_CHANGES);
        World(w.models[k := Snapshotted(kind.tracked, decoded)], w.db, w.log + [Hydrated(k, decoded.fields)])
    case Edit(k, fields) =>
      if k in w.models then w.(models := w.models[k := w.models[k].(fields := fields)]) else w
    case CreateStep(k, env) => if k in w.models then Lift(w, k, Insert(kind, k, At(w, k), env)).w else w
    case SaveStep(k, env) => if k in w.models then Lift(w, k, Save(kind, k, At(w, k), env)).w else w
    case CreateManyStep(ks, envs) =>
      if |envs| == |ks| && AllIn(ks, w) then CreateMany(kind, w, ks, envs).w else w
    case Elsewhere(db) => w.(db := db)
  }

  function Run<K>(kind: Kind, steps: seq<Step<K>>, w: World<K>): World<K> {
    if steps == [] then w else Run(kind, steps[1..], StepWorld(kind, steps[0], w))
  }

  function Beginning<K>(db: Database): World<K> {
    World(map[], db, [])
  }

  /** Since it was built, was the model read from or written to the database? */
  predicate EverStored<K(==)>(log: seq<Entry<K>>, k: K)
    decreases |log|
  {
    if log == [] then false
    else
      var e := log[|log| - 1];
      if e.k != k then EverStored(log[..|log| - 1], k)
      else if e.Built? then false
      else if e.Hydrated? || e.Inserted? || e.InsertedInBatch? then true
      else EverStored(log[..|log| - 1], k)
  }

  /** Is the last thing that built or snapshotted the model a snapshot? Being written
      by a batch is not one: that comes when the whole batch has succeeded. */
  predicate Marked<K(==)>(log: seq<Entry<K>>, k: K)
    decreases |log|
  {
    if log == [] then false
    else
      var e := log[|log| - 1];
      if e.k != k || e.HookRan? || e.InsertedInBatch? || e.Updated? then Marked(log[..|log| - 1], k)
      else !e.Built?
  }

  /** The last update sent for the model since it was built, read or created alone. */
  function LastSent<K(==)>(log: seq<Entry<K>>, k: K): Changeset
    decreases |log|
  {
    if log == [] then NO_CHANGES
    else
      var e := log[|log| - 1];
      if e.k != k || e.HookRan? || e.InsertedInBatch? || e.Settled? then LastSent(log[..|log| - 1], k)
      else if e.Updated? then e.changes
      else NO_CHANGES
  }

  /** The model's fields when it was last read, created, or carried to the end of a
      Save or a bulk create, since it was built. */
  function LastSettled<K(==)>(log: seq<Entry<K>>, k: K): Raw
    decreases |log|
  {
    if log == [] then []
    else
      var e := log[|log| - 1];
      if e.k != k || e.HookRan? || e.InsertedInBatch? || e.Updated? then LastSettled(log[..|log| - 1], k)
      else if e.Built? then []
      else e.fields
  }

  predicate GoodModel<K(==)>(kind: Kind, log: seq<Entry<K>>, k: K, m: ModelState) {
    && (m.exists_ <==> kind.tracked && Marked(log, k))
    && (m.exists_ ==> EverStored(log, k))
    && m.written == (if kind.tracked then LastSent(log, k) else NO_CHANGES)
    && m.original == (if kind.tracked then LastSettled(log, k) else [])
  }

  predicate Good<K>(kind: Kind, w: World<K>) {
    forall k | k in w.models :: GoodModel(kind, w.log, k, w.models[k])
  }

  // ---- Log lemmas ----

  lemma OneMore<K>(log: seq<Entry<K>>, e: Entry<K>)
    ensures (log + [e])[..|log + [e]| - 1] == log && (log + [e])[|log + [e]| - 1] == e
  {
  }

  /** The two logs say the same of this model. */
  predicate SaySame<K(==)>(a: seq<Entry<K>>, b: seq<Entry<K>>, k: K) {
    && EverStored(a, k) == EverStored(b, k) && Marked(a, k) == Marked(b, k)
    && LastSent(a, k) == LastSent(b, k) && LastSettled(a, k) == LastSettled(b, k)
  }

  lemma HookInLog<K>(log: seq<Entry<K>>, j: K, k: K)
    ensures SaySame(log + [HookRan(j)], log, k)
  {
    OneMore(log, HookRan(j));
  }

  lemma {:induction false} HooksInLog<K>(log: seq<Entry<K>>, j: K, n: nat, k: K)
    ensures SaySame(log + HookEntries(j, n), log, k)
    decreases n
  {
    if n == 0 {
      assert log + HookEntries(j, 0) == log;
    } else {
      var shorter := log + HookEntries(j, n - 1);
      HooksInLog(log, j, n - 1, k);
      HookInLog(shorter, j, k);
      assert log + HookEntries(j, n) == shorter + [HookRan(j)];
    }
  }

  /** The log grew by entries about k alone. */
  ghost predicate OnlyAbout<K(!new)>(before: seq<Entry<K>>, after: seq<Entry<K>>, k: K) {
    forall j :: j != k ==>
      EverStored(after, j) == EverStored(before, j) && LastSent(after, j) == LastSent(before, j) &&
      LastSettled(after, j) == LastSettled(before, j) && Marked(after, j) == Marked(before, j)
  }

  predicate GoodOne<K(==)>(kind: Kind, k: K, o: One<K>) {
    GoodModel(kind, o.log, k, o.m)
  }

  lemma HookedGood<K(!new)>(kind: Kind, k: K, o: One<K>, hooks: seq<Hook>)
    requires GoodOne(kind, k, o)
    ensures var r := Hooked(k, o, hooks).o; GoodOne(kind, k, r) && OnlyAbout(o.log, r.log, k)
    ensures forall j :: EverStored(Hooked(k, o, hooks).o.log, j) == EverStored(o.log, j)
  {
    var n := RunHooks(hooks, o.m.fields).ran;
    var log := o.log + HookEntries(k, n);
    forall j
      ensures EverStored(log, j) == EverStored(o.log, j) && Marked(log, j) == Marked(o.log, j)
      ensures LastSent(log, j) == LastSent(o.log, j) && LastSettled(log, j) == LastSettled(o.log, j)
    {
      HooksInLog(o.log, k, n, j);
    }
  }

  lemma EntryAbout<K(!new)>(log: seq<Entry<K>>, e: Entry<K>)
    ensures OnlyAbout(log, log + [e], e.k)
  {
    OneMore(log, e);
  }

  /** One model somewhere in a good world. */
  lemma LiftGood<K(!new)>(kind: Kind, w: World<K>, k: K, s: OneStep<K>)
    requires Good(kind, w) && GoodOne(kind, k, s.o) && OnlyAbout(w.log, s.o.log, k)
    ensures Good(kind, Lift(w, k, s).w)
  {
    var r := Lift(w, k, s).w;
    forall j | j in r.models ensures GoodModel(kind, r.log, j, r.models[j]) {
      if j != k { assert j in w.models && GoodModel(kind, w.log, j, w.models[j]); }
    }
  }

  // ---- Each operation keeps the invariant ----

  lemma PrepareGood<K(!new)>(kind: Kind, k: K, o: One<K>, env: Env)
    requires GoodOne(kind, k, o)
    ensures var r := Prepare(kind, k, o, env).o; GoodOne(kind, k, r) && OnlyAbout(o.log, r.log, k)
  {
    HookedGood(kind, k, o, env.before);
  }

  lemma InsertGood<K(!new)>(kind: Kind, k: K, o: One<K>, env: Env)
    requires GoodOne(kind, k, o)
    ensures var r := Insert(kind, k, o, env).o; GoodOne(kind, k, r) && OnlyAbout(o.log, r.log, k)
  {
    PrepareGood(kind, k, o, env);
    var p := Prepare(kind, k, o, env);
    if p.err.None? && InsertRefused(p.o.db, p.o.m.fields, env).None? {
      EntryAbout(p.o.log, Inserted(k, p.o.m.fields));
      OneMore(p.o.log, Inserted(k, p.o.m.fields));
      HookedGood(kind, k, Saved(kind, k, p.o, env), env.after);
    }
  }

  lemma SettleGood<K(!new)>(kind: Kind, k: K, o: One<K>)
    requires GoodOne(kind, k, o) && (kind.tracked ==> EverStored(o.log, k))
    ensures var r := Settle(kind, k, o); GoodOne(kind, k, r) && OnlyAbout(o.log, r.log, k)
    ensures forall j :: EverStored(Settle(kind, k, o).log, j) == EverStored(o.log, j)
  {
    EntryAbout(o.log, Settled(k, o.m.fields));
    OneMore(o.log, Settled(k, o.m.fields));
  }

  lemma UpdateGood<K(!new)>(kind: Kind, k: K, o: One<K>, env: Env)
    requires GoodOne(kind, k, o) && kind.tracked && o.m.exists_
    ensures var r := Update(kind, k, o, env).o; GoodOne(kind, k, r) && OnlyAbout(o.log, r.log, k)
  {
    HookedGood(kind, k, o, env.before);
    var h := Hooked(k, o, env.before);
    SendGood(kind, k, h.o, env);
    var s := Send(kind, k, h.o, env);
    if s.err.None? {
      HookedGood(kind, k, s.o, env.after);
      SettleGood(kind, k, Hooked(k, s.o, env.after).o);
    }
  }

  lemma SendGood<K(!new)>(kind: Kind, k: K, o: One<K>, env: Env)
    requires GoodOne(kind, k, o) && kind.tracked && o.m.exists_
    ensures var r := Send(kind, k, o, env).o; GoodOne(kind, k, r) && OnlyAbout(o.log, r.log, k) && r.m.exists_
  {
    if Send(kind, k, o, env).err.None? {
      var e := Updated(k, Lookup(o.m.fields, ID).value, Stamped(kind, Diff(o.m.original, o.m.fields), env.now));
      EntryAbout(o.log, e);
      OneMore(o.log, e);
    }
  }

  lemma {:induction false} PrepareAllGood<K(!new)>(kind: Kind, w: World<K>, ks: seq<K>, envs: seq<Env>)
    requires Good(kind, w) && |envs| == |ks| && AllIn(ks, w)
    ensures Good(kind, PrepareAll(kind, w, ks, envs).w)
    decreases |ks|
  {
    if ks != [] {
      var n := |ks| - 1;
      PrepareAllGood(kind, w, ks[..n], envs[..n]);
      var s := PrepareAll(kind, w, ks[..n], envs[..n]);
      if s.err.None? {
        assert ks[n] in ks && GoodModel(kind, s.w.log, ks[n], s.w.models[ks[n]]);
        PrepareGood(kind, ks[n], At(s.w, ks[n]), envs[n]);
        LiftGood(kind, s.w, ks[n], Prepare(kind, ks[n], At(s.w, ks[n]), envs[n]));
      }
    }
  }

  lemma {:induction false} WriteAllGood<K(!new)>(kind: Kind, w: World<K>, ks: seq<K>, envs: seq<Env>)
    requires Good(kind, w) && |envs| == |ks| && AllIn(ks, w)
    ensures Good(kind, WriteAll(w, ks, envs).w)
    ensures WriteAll(w, ks, envs).err.None? ==> forall k | k in ks :: EverStored(WriteAll(w, ks, envs).w.log, k)
    decreases |ks|
  {
    if ks != [] {
      var n := |ks| - 1;
      WriteAllGood(kind, w, ks[..n], envs[..n]);
      var s := WriteAll(w, ks[..n], envs[..n]);
      if s.err.None? {
        var o := WriteOne(ks[n], At(s.w, ks[n]), envs[n]);
        EntryAbout(s.w.log, InsertedInBatch(ks[n]));
        OneMore(s.w.log, InsertedInBatch(ks[n]));
        assert ks[n] in ks && GoodModel(kind, s.w.log, ks[n], s.w.models[ks[n]]);
        LiftGood(kind, s.w, ks[n], o);
        if o.err.None? {
          forall k | k in ks ensures EverStored(o.o.log, k) {
            if k != ks[n] { assert k in ks[..n]; }
          }
        }
      }
    }
  }

  lemma FinishOneGood<K(!new)>(kind: Kind, k: K, o: One<K>, env: Env)
    requires GoodOne(kind, k, o) && EverStored(o.log, k)
    ensures var r := FinishOne(kind, k, o, env).o; GoodOne(kind, k, r) && OnlyAbout(o.log, r.log, k)
    ensures forall j :: EverStored(FinishOne(kind, k, o, env).o.log, j) == EverStored(o.log, j)
  {
    SettleGood(kind, k, o);
    HookedGood(kind, k, Settle(kind, k, o), env.after);
  }

  lemma {:induction false} FinishAllGood<K(!new)>(kind: Kind, w: World<K>, ks: seq<K>, envs: seq<Env>)
    requires Good(kind, w) && |envs| == |ks| && AllIn(ks, w)
    requires forall k | k in ks :: EverStored(w.log, k)
    ensures Good(kind, FinishAll(kind, w, ks, envs).w)
    ensures forall k :: EverStored(FinishAll(kind, w, ks, envs).w.log, k) == EverStored(w.log, k)
    decreases |ks|
  {
    if ks != [] {
      var n := |ks| - 1;
      FinishAllGood(kind, w, ks[..n], envs[..n]);
      var s := FinishAll(kind, w, ks[..n], envs[..n]);
      if s.err.None? {
        assert ks[n] in ks && GoodModel(kind, s.w.log, ks[n], s.w.models[ks[n]]);
        var o := At(s.w, ks[n]);
        FinishOneGood(kind, ks[n], o, envs[n]);
        LiftGood(kind, s.w, ks[n], FinishOne(kind, ks[n], o, envs[n]));
      }
    }
  }

  lemma CreateManyGood<K(!new)>(kind: Kind, w: World<K>, ks: seq<K>, envs: seq<Env>)
    requires Good(kind, w) && |envs| == |ks| && AllIn(ks, w)
    ensures Good(kind, CreateMany(kind, w, ks, envs).w)
  {
    PrepareAllGood(kind, w, ks, envs);
    var p := PrepareAll(kind, w, ks, envs);
    if p.err.None? {
      WriteAllGood(kind, p.w, ks, envs);
      var s := WriteAll(p.w, ks, envs);
      if s.err.None? { FinishAllGood(kind, s.w, ks, envs); }
    }
  }

  lemma SaveGood<K(!new)>(kind: Kind, w: World<K>, k: K, env: Env)
    requires Good(kind, w) && k in w.models
    ensures Good(kind, Lift(w, k, Save(kind, k, At(w, k), env)).w)
    ensures Good(kind, Lift(w, k, Insert(kind, k, At(w, k), env)).w)
  {
    assert GoodModel(kind, w.log, k, w.models[k]);
    InsertGood(kind, k, At(w, k), env);
    LiftGood(kind, w, k, Insert(kind, k, At(w, k), env));
    if kind.tracked && w.models[k].exists_ { UpdateGood(kind, k, At(w, k), env); }
    LiftGood(kind, w, k, Save(kind, k, At(w, k), env));
  }

  lemma StepGood<K(!new)>(kind: Kind, s: Step<K>, w: World<K>)
    requires Good(kind, w)
    ensures Good(kind, StepWorld(kind, s, w))
  {
    match s
    case New(k, fields) =>
      EntryAbout(w.log, Built(k));
      OneMore(w.log, Built(k));
      LiftGood(kind, w, k, OneStep(One(ModelState(fields, false, [], NO_CHANGES), w.db, w.log + [Built(k)]), None));
    case Read(k, id) =>
      if id in w.db {
        var fields := kind.decode(w.db[id]);
        EntryAbout(w.log, Hydrated(k, fields));
        OneMore(w.log, Hydrated(k, fields));
        var m := Snapshotted(kind.tracked, ModelState(fields, false, [], NO_CHANGES));
        LiftGood(kind, w, k, OneStep(One(m, w.db, w.log + [Hydrated(k, fields)]), None));
      }
    case Edit(k, fields) =>
      if k in w.models { assert GoodModel(kind, w.log, k, w.models[k]); }
    case CreateStep(k, env) => if k in w.models { SaveGood(kind, w, k, env); }
    case SaveStep(k, env) => if k in w.models { SaveGood(kind, w, k, env); }
    case CreateManyStep(ks, envs) =>
      if |envs| == |ks| && AllIn(ks, w) { CreateManyGood(kind, w, ks, envs); }
    case Elsewhere(_) =>
  }

  /** Over any run, whatever the hooks, observers, server and other writers do: a
      model counts as persisted exactly if its type is tracked and it was read, created
      or carried to the end of a call since it was built, and then it has been stored;
      WasChanged describes the last update
      sent for it; and its snapshot is its fields when it was last read, created, or
      carried to the end of a call. */
  lemma {:induction false} RunGood<K(!new)>(kind: Kind, steps: seq<Step<K>>, w: World<K>)
    requires Good(kind, w)
    ensures Good(kind, Run(kind, steps, w))
  {
    if steps != [] {
      StepGood(kind, steps[0], w);
      RunGood(kind, steps[1..], StepWorld(kind, steps[0], w));
    }
  }

  /** What Original answers after any run from the beginning: the field as it was when
      the model was last read, created or carried to the end of a call, whatever was
      edited, sent or refused since; nothing for a model not persisted. */
  lemma OriginalOverRuns<K(!new)>(kind: Kind, steps: seq<Step<K>>, db: Database, k: K, field: string)
    requires k in Run(kind, steps, Beginning(db)).models
    ensures var w := Run(kind, steps, Beginning(db));
            OriginalOf(kind.tracked, w.models[k], field) ==
            if w.models[k].exists_ then Lookup(LastSettled(w.log, k), field) else None
  {
    RunGood(kind, steps, Beginning(db));
    var w := Run(kind, steps, Beginning(db));
    assert GoodModel(kind, w.log, k, w.models[k]);
  }

  // ---- What one Save does ----

  predicate AddsNoInsert<K(==)>(before: seq<Entry<K>>, after: seq<Entry<K>>) {
    && |before| <= |after| && after[..|before|] == before
    && forall i :: |before| <= i < |after| ==> !after[i].Inserted? && !after[i].InsertedInBatch?
  }

  lemma NoInsertChain<K>(a: seq<Entry<K>>, b: seq<Entry<K>>, c: seq<Entry<K>>)
    requires AddsNoInsert(a, b) && AddsNoInsert(b, c)
    ensures AddsNoInsert(a, c)
  {
    assert c[..|a|] == c[..|b|][..|a|];
    forall i | |a| <= i < |c| ensures !c[i].Inserted? && !c[i].InsertedInBatch? {
      if i < |b| { assert c[i] == c[..|b|][i]; }
    }
  }

  /** Save never inserts a persisted model, whatever it meets. */
  lemma SaveNeverReinserts<K>(kind: Kind, k: K, o: One<K>, env: Env)
    requires kind.tracked && o.m.exists_
    ensures AddsNoInsert(o.log, Save(kind, k, o, env).o.log)
  {
    var h := Hooked(k, o, env.before).o;
    assert AddsNoInsert(o.log, h.log);
    var s := Send(kind, k, h, env).o;
    assert AddsNoInsert(h.log, s.log);
    NoInsertChain(o.log, h.log, s.log);
    var a := Hooked(k, s, env.after).o;
    assert AddsNoInsert(s.log, a.log);
    NoInsertChain(o.log, s.log, a.log);
    assert AddsNoInsert(a.log, Settle(kind, k, a).log);
    NoInsertChain(o.log, a.log, Settle(kind, k, a).log);
  }

  /** A Save finding nothing dirty sends nothing, runs no hook and changes nothing. */
  lemma CleanSaveIsSilent<K>(kind: Kind, k: K, o: One<K>, env: Env)
    requires kind.tracked && o.m.exists_ && SameFields(o.m.original, o.m.fields)
    ensures Save(kind, k, o, env) == OneStep(o, None)
  {
    CleanIff(o.m.original, o.m.fields);
  }

  /** Did this Save reach the server? */
  predicate Sent<K>(kind: Kind, k: K, o: One<K>, env: Env) {
    var h := Hooked(k, o, env.before);
    && kind.tracked && o.m.exists_ && !Empty(ChangesOf(kind.tracked, o.m))
    && h.err.None? && !Empty(ChangesOf(kind.tracked, h.o.m))
    && Send(kind, k, h.o, env).err.None?
  }

  lemma {:induction false} LookupReplaced(raw: Raw, key: string, v: Value, k: string)
    ensures Lookup(Replace(raw, key, v), k) ==
            if k == key && Lookup(raw, key).Some? then Some(v) else Lookup(raw, k)
  {
    if raw != [] {
      LookupReplaced(raw[1..], key, v, k);
      assert Replace(raw, key, v)[1..] == Replace(raw[1..], key, v);
    }
  }

  /** The state a send starts from: the stored document still holds what the
      snapshot says on the model's fields, under the model's unedited _id. */
  predicate Ready<K>(kind: Kind, o: One<K>, fields: set<string>) {
    && Lookup(o.m.fields, ID).Some? && Lookup(o.m.fields, ID).value in o.db
    && Covers(fields, o.m.original) && Covers(fields, o.m.fields)
    && (kind.timestamped ==> Lookup(o.m.fields, UPDATED_AT).Some?)
    && Agrees(o.db[Lookup(o.m.fields, ID).value], o.m.original, fields - {ID})
  }

  /** What was sent leaves the stored document agreeing with the model on all its
      fields but _id; other fields of the document are untouched. */
  lemma SendAgrees<K>(kind: Kind, k: K, o: One<K>, env: Env, fields: set<string>)
    requires Send(kind, k, o, env).err.None? && Ready(kind, o, fields)
    ensures var r := Send(kind, k, o, env).o;
            var id := Lookup(o.m.fields, ID).value;
            && id in r.db && Agrees(r.db[id], r.m.fields, fields - {ID})
            && (forall f :: f !in fields ==> Get(r.db[id], f) == Get(o.db[id], f))
  {
    var m, r := o.m, Send(kind, k, o, env).o;
    var id := Lookup(m.fields, ID).value;
    var c := Diff(m.original, m.fields);
    var d := o.db[id];
    PatchReaches(m.original, m.fields, fields, d);
    if kind.timestamped {
      LookupOnlyFinds(m.fields, UPDATED_AT);
      DiffExact(m.original, m.fields, UPDATED_AT);
      var stamped := Stamped(kind, c, env.now);
      forall f ensures Get(Patch(stamped, d), f) == if f == UPDATED_AT then Some(env.now) else Get(Patch(c, d), f) {}
      forall f ensures Lookup(r.m.fields, f) == if f == UPDATED_AT then Some(env.now) else Lookup(m.fields, f) {
        LookupReplaced(m.fields, UPDATED_AT, env.now, f);
      }
    }
  }

  /** After a Save that sent something and succeeded, the fresh snapshot agrees with
      the stored document if and only if the hooks and observers that ran after the
      write left the persisted fields alone. */
  lemma SnapshotAgreesIff<K>(kind: Kind, k: K, o: One<K>, env: Env, fields: set<string>)
    requires Sent(kind, k, o, env) && Save(kind, k, o, env).err.None?
    requires Ready(kind, Hooked(k, o, env.before).o, fields)
    ensures var h := Hooked(k, o, env.before).o;
            var s, r := Send(kind, k, h, env).o, Save(kind, k, o, env).o;
            var id := Lookup(h.m.fields, ID).value;
            && r.m.original == r.m.fields && id in r.db
            && (Agrees(r.db[id], r.m.original, fields - {ID}) <==>
                  forall f | f in fields - {ID} :: Lookup(r.m.fields, f) == Lookup(s.m.fields, f))
  {
    SendAgrees(kind, k, Hooked(k, o, env.before).o, env, fields);
  }

  lemma {:induction false} AsDocLookup(raw: Raw, f: string)
    ensures Get(AsDoc(raw), f) == Lookup(raw, f)
    decreases |raw|
  {
    if raw != [] {
      var n := |raw| - 1;
      AsDocLookup(raw[..n], f);
      LookupSnoc(raw[..n], raw[n], f);
      assert raw == raw[..n] + [raw[n]];
      LookupOnlyFinds(raw[..n], f);
    }
  }

  lemma {:induction false} LookupSnoc(raw: seq<Element>, e: Element, f: string)
    ensures Lookup(raw + [e], f) ==
            if Lookup(raw, f).Some? then Lookup(raw, f) else if e.key == f then Some(e.value) else None
  {
    if raw == [] {
      assert raw + [e] == [e] && [e][1..] == [];
    } else {
      assert (raw + [e])[1..] == raw[1..] + [e];
      LookupSnoc(raw[1..], e, f);
    }
  }

  /** A successful insert snapshots before its after-hooks run, so its snapshot
      agrees with the stored document on every field whatever they do. */
  lemma InsertSnapshotAgrees<K>(kind: Kind, k: K, o: One<K>, env: Env, f: string)
    requires kind.tracked && Insert(kind, k, o, env).err.None?
    requires Lookup(Insert(kind, k, o, env).o.m.original, ID).Some?
    ensures var r := Insert(kind, k, o, env).o;
            var id := Lookup(r.m.original, ID).value;
            && id in r.db && Get(r.db[id], f) == Lookup(r.m.original, f)
            && r.m.exists_ && r.m.written == NO_CHANGES
  {
    var raw := Insert(kind, k, o, env).o.m.original;
    AsDocLookup(raw, f);
    AsDocLookup(raw, ID);
  }
}
