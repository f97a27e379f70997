/** Create, CreateMany and Save (odm/collection.go, odm/bulk.go, odm/state.go,
    odm/model.go) with hooks and observers that may edit the model or fail, and
    whole runs of them. */
module Lifecycle {
  import opened Bson
  import opened Filter
  import opened Queries
  import opened State

  /** A hook or an observer: what it leaves the model's fields as, and whether it
      returned an error. */
  datatype HookResult = HookResult(fields: Raw, failed: bool)
  type Hook = Raw -> HookResult

  /** A model type: does it keep state, is it timestamped, and how a document decodes
      into it. */
  datatype Kind = Kind(tracked: bool, timestamped: bool, decode: Doc -> Raw)

  /** What one call meets: the hook and then the observers of each event, the clock,
      a generated id, and whether the server fails. */
  datatype Env = Env(before: seq<Hook>, after: seq<Hook>, now: Value, newId: Value, serverFails: bool)

  type Database = map<Value, Doc>

  /** What happened, in order. Hydrated, Inserted and Settled are the snapshots: of a
      model just read, just created, or carried through the rest of its call. */
  datatype Entry<K> =
    | Built(k: K)
    | Hydrated(k: K, fields: Raw)
    | HookRan(k: K)
    | Inserted(k: K, fields: Raw)
    | InsertedInBatch(k: K)
    | Updated(k: K, id: Value, changes: Changeset)
    | Settled(k: K, fields: Raw)

  /** All the models in play, and one model by itself, with the database and the log. */
  datatype World<K(==)> = World(models: map<K, ModelState>, db: Database, log: seq<Entry<K>>)
  datatype One<K> = One(m: ModelState, db: Database, log: seq<Entry<K>>)

  datatype Stepped<K(==)> = Stepped(w: World<K>, err: Option<Error>)
  datatype OneStep<K> = OneStep(o: One<K>, err: Option<Error>)

  function At<K>(w: World<K>, k: K): One<K>
    requires k in w.models
  {
    One(w.models[k], w.db, w.log)
  }

  /** What happened to one model, in the world. */
  function Lift<K>(w: World<K>, k: K, s: OneStep<K>): Stepped<K> {
    Stepped(World(w.models[k := s.o.m], s.o.db, s.o.log), s.err)
  }

  const ZERO_ID := Oid(0)
  const ZERO_TIME := Date(-62135596800000)

  // ---- Pieces ----

  function Replace(raw: Raw, key: string, v: Value): (r: Raw)
    ensures |r| == |raw| && forall i :: 0 <= i < |r| ==> r[i].key == raw[i].key
  {
    seq(|raw|, i requires 0 <= i < |raw| => if raw[i].key == key then Element(key, v) else raw[i])
  }

  function ReplaceIf(raw: Raw, key: string, was: Value, v: Value): Raw {
    if Lookup(raw, key) == Some(was) then Replace(raw, key, v) else raw
  }

  /** prepareForInsert: an id when unset, created_at when unset, updated_at always. */
  function Prepared(kind: Kind, raw: Raw, env: Env): Raw {
    if !kind.tracked then raw
    else
      var withId := ReplaceIf(raw, ID, ZERO_ID, env.newId);
      if !kind.timestamped then withId
      else Replace(ReplaceIf(withId, CREATED_AT, ZERO_TIME, env.now), UPDATED_AT, env.now)
  }

  function AsDoc(raw: Raw): Doc {
    if raw == [] then map[] else AsDoc(raw[..|raw| - 1])[raw[|raw| - 1].key := raw[|raw| - 1].value]
  }

  datatype HookRun = HookRun(fields: Raw, ran: nat, failed: bool)

  /** Runs hooks in order, stopping at the first error. */
  function RunHooks(hooks: seq<Hook>, fields: Raw): HookRun
    decreases |hooks|
  {
    if hooks == [] then HookRun(fields, 0, false)
    else
      var before := RunHooks(hooks[..|hooks| - 1], fields);
      if before.failed then before
      else
        var r := hooks[|hooks| - 1](before.fields);
        HookRun(r.fields, before.ran + 1, r.failed)
  }

  function HookEntries<K>(k: K, n: nat): (r: seq<Entry<K>>)
    ensures |r| == n
    ensures forall i :: 0 <= i < n ==> r[i] == HookRan(k)
  {
    seq(n, _ => HookRan(k))
  }

  /** Running hooks on one model, logged. */
  function Hooked<K>(k: K, o: One<K>, hooks: seq<Hook>): OneStep<K> {
    var r := RunHooks(hooks, o.m.fields);
    OneStep(One(o.m.(fields := r.fields), o.db, o.log + HookEntries(k, r.ran)),
            if r.failed then Some(HookFailed) else None)
  }

  /** Where a document goes: its own _id, or one the driver generates. */
  function InsertId(raw: Raw, env: Env): Value {
    match Lookup(raw, ID)
    case None => env.newId
    case Some(id) => id
  }

  function InsertRefused(db: Database, raw: Raw, env: Env): Option<Error> {
    if env.serverFails then Some(ServerFailed)
    else if InsertId(raw, env) in db then Some(DuplicateKey)
    else None
  }

  function Stored(db: Database, raw: Raw, env: Env): Database {
    db[InsertId(raw, env) := AsDoc(raw)[ID := InsertId(raw, env)]]
  }

  // ---- Create ----

  /** The before-hooks, then the stamp. */
  function Prepare<K>(kind: Kind, k: K, o: One<K>, env: Env): OneStep<K> {
    var h := Hooked(k, o, env.before);
    if h.err.Some? then h
    else OneStep(h.o.(m := h.o.m.(fields := Prepared(kind, h.o.m.fields, env))), None)
  }

  /** A successful write: record, snapshot. */
  function Saved<K>(kind: Kind, k: K, o: One<K>, env: Env): One<K> {
    One(Snapshotted(kind.tracked, Recorded(kind.tracked, o.m, NO_CHANGES)), Stored(o.db, o.m.fields, env),
        o.log + [Inserted(k, o.m.fields)])
  }

  /** insert: before-hooks, stamp, write, record, snapshot, after-hooks. */
  function Insert<K>(kind: Kind, k: K, o: One<K>, env: Env): OneStep<K> {
    var p := Prepare(kind, k, o, env);
    if p.err.Some? then p
    else
      var refused := InsertRefused(p.o.db, p.o.m.fields, env);
      if refused.Some? then OneStep(p.o, refused) else Hooked(k, Saved(kind, k, p.o, env), env.after)
  }

  // ---- Save ----

  function Stamped(kind: Kind, c: Changeset, now: Value): Changeset {
    if kind.timestamped then c.(set_ := c.set_[UPDATED_AT := now]) else c
  }

  function Touched(kind: Kind, raw: Raw, now: Value): Raw {
    if kind.timestamped then Replace(raw, UPDATED_AT, now) else raw
  }

  function Patched(db: Database, id: Value, c: Changeset): Database {
    if id in db then db[id := Patch(c, db[id])] else db
  }

  /** The part of update that sends: the changeset recomputed after the before-hooks,
      stamped, and applied by _id. */
  function Send<K>(kind: Kind, k: K, o: One<K>, env: Env): OneStep<K> {
    var c := Stamped(kind, Diff(o.m.original, o.m.fields), env.now);
    var touched := o.m.(fields := Touched(kind, o.m.fields, env.now));
    match Lookup(o.m.fields, ID)
    case None => OneStep(o.(m := touched), Some(NoId))
    case Some(id) =>
      if env.serverFails then OneStep(o.(m := touched), Some(ServerFailed))
      else OneStep(One(Recorded(kind.tracked, touched, c), Patched(o.db, id, c), o.log + [Updated(k, id, c)]), None)
  }

  /** A snapshot of the model as it is. */
  function Settle<K>(kind: Kind, k: K, o: One<K>): One<K> {
    One(Snapshotted(kind.tracked, o.m), o.db, o.log + [Settled(k, o.m.fields)])
  }

  function Update<K>(kind: Kind, k: K, o: One<K>, env: Env): OneStep<K> {
    if Empty(ChangesOf(kind.tracked, o.m)) then OneStep(o, None)
    else
      var h := Hooked(k, o, env.before);
      if h.err.Some? || Empty(ChangesOf(kind.tracked, h.o.m)) then h
      else
        var s := Send(kind, k, h.o, env);
        if s.err.Some? then s
        else
          var a := Hooked(k, s.o, env.after);
          if a.err.Some? then a else OneStep(Settle(kind, k, a.o), None)
  }

  function Save<K>(kind: Kind, k: K, o: One<K>, env: Env): OneStep<K> {
    if kind.tracked && o.m.exists_ then Update(kind, k, o, env) else Insert(kind, k, o, env)
  }

  // ---- CreateMany ----

  predicate AllIn<K>(ks: seq<K>, w: World<K>) {
    forall k | k in ks :: k in w.models
  }

  /** The preparing loop; the same model may be listed twice. */
  function PrepareAll<K>(kind: Kind, w: World<K>, ks: seq<K>, envs: seq<Env>): (s: Stepped<K>)
    requires |envs| == |ks| && AllIn(ks, w)
    ensures s.w.models.Keys == w.models.Keys && s.w.db == w.db
    decreases |ks|
  {
    if ks == [] then Stepped(w, None)
    else
      var n := |ks| - 1;
      var s := PrepareAll(kind, w, ks[..n], envs[..n]);
      if s.err.Some? then s else Lift(s.w, ks[n], Prepare(kind, ks[n], At(s.w, ks[n]), envs[n]))
  }

  /** One document of the batch. */
  function WriteOne<K>(k: K, o: One<K>, env: Env): OneStep<K> {
    var refused := InsertRefused(o.db, o.m.fields, env);
    if refused.Some? then OneStep(o, refused)
    else OneStep(One(o.m, Stored(o.db, o.m.fields, env), o.log + [InsertedInBatch(k)]), None)
  }

  /** The server's ordered InsertMany: it stops at the first refusal, and what came
      before stays written. */
  function WriteAll<K>(w: World<K>, ks: seq<K>, envs: seq<Env>): (s: Stepped<K>)
    requires |envs| == |ks| && AllIn(ks, w)
    ensures s.w.models == w.models
    decreases |ks|
  {
    if ks == [] then Stepped(w, None)
    else
      var n := |ks| - 1;
      var s := WriteAll(w, ks[..n], envs[..n]);
      if s.err.Some? then s
      else
        var r := Lift(s.w, ks[n], WriteOne(ks[n], At(s.w, ks[n]), envs[n]));
        assert r.w.models == s.w.models;
        r
  }

  /** Snapshot, then after-hooks, for one model. */
  function FinishOne<K>(kind: Kind, k: K, o: One<K>, env: Env): OneStep<K> {
    Hooked(k, Settle(kind, k, o), env.after)
  }

  /** The loop after the insert. */
  function FinishAll<K>(kind: Kind, w: World<K>, ks: seq<K>, envs: seq<Env>): (s: Stepped<K>)
    requires |envs| == |ks| && AllIn(ks, w)
    ensures s.w.models.Keys == w.models.Keys && s.w.db == w.db
    decreases |ks|
  {
    if ks == [] then Stepped(w, None)
    else
      var n := |ks| - 1;
      var s := FinishAll(kind, w, ks[..n], envs[..n]);
      if s.err.Some? then s else Lift(s.w, ks[n], FinishOne(kind, ks[n], At(s.w, ks[n]), envs[n]))
  }

  function CreateMany<K>(kind: Kind, w: World<K>, ks: seq<K>, envs: seq<Env>): Stepped<K>
    requires |envs| == |ks| && AllIn(ks, w)
  {
    var p := PrepareAll(kind, w, ks, envs);
    if p.err.Some? then p
    else
      var s := WriteAll(p.w, ks, envs);
      if s.err.Some? then s else FinishAll(kind, s.w, ks, envs)
  }
}
