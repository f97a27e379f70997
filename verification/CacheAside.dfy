/** The cache-aside protocol of the example handlers (examples/nethttp/handlers.go)
    on one task: reads that fill the cache in the background, writes that invalidate
    it afterwards, in every interleaving. */
module CacheAside {
  import opened Bson

  type Row = int

  /** A background fill on its way: the row it read and the commit it read. */
  datatype Fill = Fill(row: Row, version: nat)

  /** A cache entry, with where it came from: the commit whose row was read, and when
      it was put. */
  datatype Cached = Cached(row: Row, expiresAt: int, version: nat, putAt: int)

  /** The committed rows so far, one per commit, the last one current (None is no
      row); the cache; fills and invalidations still under way; the clock. */
  datatype State = State(
    history: seq<Option<Row>>,
    cache: Option<Cached>,
    fills: seq<Fill>,
    pending: nat,
    now: int)

  /** The steps of the handlers and of the world around them.
      - Hit: getTask serves a live entry.
      - ReadRow: getTask, past the cache, loads the row and starts a fill.
      - PutFill, LoseFill: a fill's Put happens, or fails or times out.
      - Commit: updateTask or deleteTask commits; its Forget is still to come.
      - ForgetDone, ForgetFailed: invalidateCache.
      - Tick: time passes. */
  datatype Step =
    | Hit
    | ReadRow
    | PutFill(i: nat)
    | LoseFill(i: nat)
    | Commit(row: Option<Row>)
    | ForgetDone
    | ForgetFailed
    | Tick(to: int)

  function Version(s: State): nat
    requires s.history != []
  {
    |s.history| - 1
  }

  function Current(s: State): Option<Row>
    requires s.history != []
  {
    s.history[|s.history| - 1]
  }

  function Drop(fills: seq<Fill>, i: nat): seq<Fill>
    requires i < |fills|
  {
    fills[..i] + fills[i + 1..]
  }

  function Live(s: State): Option<Cached> {
    if s.cache.Some? && s.now < s.cache.value.expiresAt then s.cache else None
  }

  predicate Enabled(s: State, e: Step) {
    s.history != [] &&
    match e
    case Hit => Live(s).Some?
    case ReadRow => true
    case PutFill(i) => i < |s.fills|
    case LoseFill(i) => i < |s.fills|
    case Commit(row) => Current(s).Some? || row.None?
    case ForgetDone => s.pending > 0
    case ForgetFailed => s.pending > 0
    case Tick(to) => s.now <= to
  }

  /** ReadRow fills only when a row was found: a missing task answers 404. An update
      that matches no row commits nothing and invalidates nothing; a delete always
      invalidates, row or no row. */
  function Next(s: State, e: Step, ttl: int): State
    requires Enabled(s, e)
  {
    match e
    case Hit => s
    case ReadRow =>
      (match Current(s) case None => s case Some(r) => s.(fills := s.fills + [Fill(r, Version(s))]))
    case PutFill(i) =>
      var f := s.fills[i];
      s.(cache := Some(Cached(f.row, s.now + ttl, f.version, s.now)), fills := Drop(s.fills, i))
    case LoseFill(i) => s.(fills := Drop(s.fills, i))
    case Commit(row) => s.(history := s.history + [row], pending := s.pending + 1)
    case ForgetDone => s.(cache := None, pending := s.pending - 1)
    case ForgetFailed => s.(pending := s.pending - 1)
    case Tick(to) => s.(now := to)
  }

  predicate Initial(s: State) {
    |s.history| == 1 && s.cache.None? && s.fills == [] && s.pending == 0
  }

  /** The states of a run, the first one initial. */
  predicate IsRun(states: seq<State>, steps: seq<Step>, ttl: int) {
    && |states| == |steps| + 1 && Initial(states[0])
    && forall n :: 0 <= n < |steps| ==> Enabled(states[n], steps[n]) && states[n + 1] == Next(states[n], steps[n], ttl)
  }

  /** The n-th step read the row of this commit. */
  predicate ReadAt(states: seq<State>, steps: seq<Step>, n: nat, row: Row, version: nat)
    requires |states| == |steps| + 1
  {
    n < |steps| && steps[n] == ReadRow && states[n].history != [] &&
    Version(states[n]) == version && Current(states[n]) == Some(row)
  }

  /** The n-th step put the fill of that read. */
  predicate PutAt(states: seq<State>, steps: seq<Step>, n: nat, row: Row, version: nat, at: int)
    requires |states| == |steps| + 1
  {
    n < |steps| && steps[n].PutFill? && steps[n].i < |states[n].fills| &&
    states[n].fills[steps[n].i] == Fill(row, version) && states[n].now == at
  }

  ghost predicate FillTraced(states: seq<State>, steps: seq<Step>, upTo: nat, f: Fill)
    requires |states| == |steps| + 1
  {
    exists r :: 0 <= r < upTo && ReadAt(states, steps, r, f.row, f.version)
  }

  ghost predicate CacheTraced(states: seq<State>, steps: seq<Step>, upTo: nat, c: Cached, ttl: int)
    requires |states| == |steps| + 1
  {
    && c.expiresAt == c.putAt + ttl
    && exists r, p :: 0 <= r < p < upTo && ReadAt(states, steps, r, c.row, c.version) &&
        PutAt(states, steps, p, c.row, c.version, c.putAt)
  }

  ghost predicate Traced(states: seq<State>, steps: seq<Step>, n: nat, ttl: int)
    requires |states| == |steps| + 1 && n < |states|
  {
    var s := states[n];
    && s.history != []
    && (forall i :: 0 <= i < |s.fills| ==> FillTraced(states, steps, n, s.fills[i]))
    && (s.cache.Some? ==> CacheTraced(states, steps, n, s.cache.value, ttl) && s.cache.value.putAt <= s.now)
  }

  lemma TracedStep(states: seq<State>, steps: seq<Step>, n: nat, ttl: int)
    requires IsRun(states, steps, ttl) && n < |steps| && Traced(states, steps, n, ttl)
    ensures Traced(states, steps, n + 1, ttl)
  {
    var s, t, e := states[n], states[n + 1], steps[n];
    assert t == Next(s, e, ttl);
    forall i | 0 <= i < |t.fills| ensures FillTraced(states, steps, n + 1, t.fills[i]) {
      if e.ReadRow? && i == |s.fills| {
        assert ReadAt(states, steps, n, t.fills[i].row, t.fills[i].version);
      } else {
        var j := if (e.PutFill? || e.LoseFill?) && i >= e.i then i + 1 else i;
        assert t.fills[i] == s.fills[j];
        assert FillTraced(states, steps, n, s.fills[j]);
      }
    }
    if e.PutFill? {
      var f := s.fills[e.i];
      assert FillTraced(states, steps, n, f);
      var r :| 0 <= r < n && ReadAt(states, steps, r, f.row, f.version);
      assert PutAt(states, steps, n, f.row, f.version, s.now);
    } else if t.cache.Some? {
      var c := s.cache.value;
      assert CacheTraced(states, steps, n, c, ttl);
      var r, p :| 0 <= r < p < n && ReadAt(states, steps, r, c.row, c.version) &&
          PutAt(states, steps, p, c.row, c.version, c.putAt);
      assert CacheTraced(states, steps, n + 1, t.cache.value, ttl);
    }
  }

  lemma {:induction false} TracedAlways(states: seq<State>, steps: seq<Step>, n: nat, ttl: int)
    requires IsRun(states, steps, ttl) && n < |states|
    ensures Traced(states, steps, n, ttl)
    decreases n
  {
    if n > 0 {
      TracedAlways(states, steps, n - 1, ttl);
      TracedStep(states, steps, n - 1, ttl);
    }
  }

  /** Every interleaving, failing Forgets and lost fills included: what the cache would
      serve at any moment was the committed row at the read that fed a Put less than
      ttl before. */
  lemma ServedRowWasCommitted(states: seq<State>, steps: seq<Step>, n: nat, ttl: int)
    requires IsRun(states, steps, ttl) && n < |states| && Live(states[n]).Some?
    ensures var c := Live(states[n]).value;
            exists r, p :: 0 <= r < p < n && ReadAt(states, steps, r, c.row, c.version) &&
              PutAt(states, steps, p, c.row, c.version, c.putAt) && c.putAt <= states[n].now < c.putAt + ttl
  {
    TracedAlways(states, steps, n, ttl);
    var c := states[n].cache.value;
    assert CacheTraced(states, steps, n, c, ttl);
  }

  /** Every Forget succeeds, and no fill spans a commit: one that is put read the
      current row. */
  predicate Careful(s: State, e: Step) {
    && e != ForgetFailed
    && (e.PutFill? && e.i < |s.fills| && s.history != [] ==> s.fills[e.i].version == Version(s))
  }

  predicate Fresh(s: State)
    requires s.history != []
  {
    s.cache.None? || s.pending > 0 || Some(s.cache.value.row) == Current(s)
  }

  predicate Coherent(s: State) {
    && s.history != []
    && (forall i :: 0 <= i < |s.fills| ==>
          s.fills[i].version < |s.history| && s.history[s.fills[i].version] == Some(s.fills[i].row))
    && Fresh(s)
  }

  lemma CoherentStep(s: State, e: Step, ttl: int)
    requires Coherent(s) && Enabled(s, e) && Careful(s, e)
    ensures Coherent(Next(s, e, ttl))
  {
    var t := Next(s, e, ttl);
    if e.PutFill? || e.LoseFill? {
      forall i | 0 <= i < |t.fills| ensures t.fills[i] == s.fills[if i >= e.i then i + 1 else i] {}
    }
  }

  /** In every run where each Forget succeeds and no fill spans a commit, the entry is
      always absent, equal to the row, or has an invalidation still pending. */
  lemma {:induction false} AlwaysFresh(states: seq<State>, steps: seq<Step>, n: nat, ttl: int)
    requires IsRun(states, steps, ttl) && n < |states|
    requires forall m :: 0 <= m < |steps| ==> Careful(states[m], steps[m])
    ensures Coherent(states[n])
    decreases n
  {
    if n > 0 {
      AlwaysFresh(states, steps, n - 1, ttl);
      assert Careful(states[n - 1], steps[n - 1]);
      CoherentStep(states[n - 1], steps[n - 1], ttl);
    }
  }

  /** Exactly which single step can spoil a fresh state: a Put of a row that is no
      longer the current one, with nothing pending; or the last pending Forget
      failing over an entry that differs from the row. */
  lemma SpoiltIff(s: State, e: Step, ttl: int)
    requires Coherent(s) && Enabled(s, e)
    ensures !Fresh(Next(s, e, ttl)) <==>
            || (e.PutFill? && s.pending == 0 && Some(s.fills[e.i].row) != Current(s))
            || (e == ForgetFailed && s.pending == 1 && s.cache.Some? && Some(s.cache.value.row) != Current(s))
  {
  }

  /** The race, concretely: a read, a commit, its Forget, and only then the fill. The
      stale row is served with no invalidation left. */
  lemma SlowFillServesStale(ttl: int, old_: Row, new_: Row)
    requires ttl > 0 && old_ != new_
    ensures var s0 := State([Some(old_)], None, [], 0, 0);
            var s1 := Next(s0, ReadRow, ttl);
            var s2 := Next(s1, Commit(Some(new_)), ttl);
            var s3 := Next(s2, ForgetDone, ttl);
            var s4 := Next(s3, PutFill(0), ttl);
            && IsRun([s0, s1, s2, s3, s4], [ReadRow, Commit(Some(new_)), ForgetDone, PutFill(0)], ttl)
            && Live(s4).Some? && Live(s4).value.row == old_ && Current(s4) == Some(new_) && s4.pending == 0
  {
  }
}
