/** The in-process cache store (cache/memory/memory.go): a map with lazy eviction
    that nobody can tell from a timed map which never evicts. */
module MemoryCache {
  import opened Bson
  import opened Int64

  /** An instant in nanoseconds since Go's zero time, which is 0 here; the zero time
      as an expiry means none. */
  type Instant = int
  datatype Entry = Entry(val: string, expiresAt: Instant)
  type Data = map<string, Entry>

  datatype Op =
    | Get(key: string)
    | Put(key: string, val: string, ttl: int)
    | Add(key: string, val: string, ttl: int)
    | Forever(key: string, val: string)
    | Pull(key: string)
    | Forget(key: string)
    | Has(key: string)
    | Increment(key: string, amount: int)
    | Decrement(key: string, amount: int)
    | Flush

  datatype Answer = Done | Read(val: Option<string>) | Flag(b: bool) | Total(n: int) | NotANumber | Overflow | NoPrefix

  // ---- The store's own behaviour ----

  function Live(e: Entry, now: Instant): bool {
    e.expiresAt == 0 || now < e.expiresAt
  }

  /** get: the live entry, evicting an expired one. */
  function Looked(data: Data, key: string, now: Instant): Option<Entry> {
    if key in data && Live(data[key], now) then Some(data[key]) else None
  }

  function Evicted(data: Data, key: string, now: Instant): Data {
    if key in data && !Live(data[key], now) then data - {key} else data
  }

  function ExpiryFor(ttl: int, now: Instant): Instant {
    if ttl <= 0 then 0 else now + ttl
  }

  /** currentInt: the number, its expiry, or that it is not a number. */
  function CurrentInt(e: Option<Entry>): Option<(int, Instant)> {
    match e
    case None => Some((0, 0))
    case Some(x) => (match ParseInt(x.val) case None => None case Some(n) => Some((n, x.expiresAt)))
  }

  predicate Counts(op: Op) {
    op.Increment? || op.Decrement?
  }

  /** What a counter call asks for, as a mathematical integer. */
  function Applied(n: int, op: Op): int
    requires Counts(op)
  {
    if op.Increment? then n + op.amount else n - op.amount
  }

  /** One call; Add reads the clock a second time for the new entry's expiry. */
  function StoreStep(prefix: string, data: Data, op: Op, now: Instant, later: Instant): (Data, Answer) {
    match op
    case Get(k) => (Evicted(data, k, now), Read(ValueOf(Looked(data, k, now))))
    case Put(k, v, ttl) => (data[k := Entry(v, ExpiryFor(ttl, now))], Done)
    case Add(k, v, ttl) =>
      if Looked(data, k, now).Some? then (data, Flag(false))
      else (Evicted(data, k, now)[k := Entry(v, ExpiryFor(ttl, later))], Flag(true))
    case Forever(k, v) => (data[k := Entry(v, 0)], Done)
    case Pull(k) => (Evicted(data, k, now) - {k}, Read(ValueOf(Looked(data, k, now))))
    case Forget(k) => (data - {k}, Done)
    case Has(k) => (Evicted(data, k, now), Flag(Looked(data, k, now).Some?))
    case Flush => if prefix == "" then (data, NoPrefix) else (map[], Done)
    case _ =>
      var evicted := Evicted(data, op.key, now);
      match CurrentInt(Looked(data, op.key, now))
      case None => (evicted, NotANumber)
      case Some((n, expiresAt)) =>
        var next := Applied(n, op);
        if !IsInt64(next) then (evicted, Overflow)
        else (evicted[op.key := Entry(FormatInt(next), expiresAt)], Total(next))
  }

  function ValueOf(e: Option<Entry>): Option<string> {
    match e case None => None case Some(x) => Some(x.val)
  }

  /** The store object. Every method holds the mutex throughout, so a call is one
      step; its clock readings are parameters. */
  class Store {
    const prefix: string
    var data: Data

    constructor (prefix: string)
      ensures this.prefix == prefix && data == map[]
    {
      this.prefix := prefix;
      data := map[];
    }

    method Lookup(key: string, now: Instant) returns (e: Option<Entry>)
      modifies this
      ensures data == Evicted(old(data), key, now) && e == Looked(old(data), key, now)
    {
      if key !in data {
        return None;
      }
      var found := data[key];
      if found.expiresAt != 0 && !(now < found.expiresAt) {
        data := data - {key};
        return None;
      }
      return Some(found);
    }

    method Get(key: string, now: Instant) returns (val: Option<string>)
      modifies this
      ensures (data, Read(val)) == StoreStep(prefix, old(data), Op.Get(key), now, now)
    {
      var e := Lookup(key, now);
      val := ValueOf(e);
    }

    method Put(key: string, val: string, ttl: int, now: Instant)
      modifies this
      ensures (data, Done) == StoreStep(prefix, old(data), Op.Put(key, val, ttl), now, now)
    {
      data := data[key := Entry(val, ExpiryFor(ttl, now))];
    }

    method Add(key: string, val: string, ttl: int, now: Instant, later: Instant) returns (added: bool)
      modifies this
      ensures (data, Flag(added)) == StoreStep(prefix, old(data), Op.Add(key, val, ttl), now, later)
    {
      var e := Lookup(key, now);
      if e.Some? {
        return false;
      }
      data := data[key := Entry(val, ExpiryFor(ttl, later))];
      return true;
    }

    method Forever(key: string, val: string)
      modifies this
      ensures forall now :: (data, Done) == StoreStep(prefix, old(data), Op.Forever(key, val), now, now)
    {
      data := data[key := Entry(val, 0)];
    }

    method Pull(key: string, now: Instant) returns (val: Option<string>)
      modifies this
      ensures (data, Read(val)) == StoreStep(prefix, old(data), Op.Pull(key), now, now)
    {
      var e := Lookup(key, now);
      if e.None? {
        assert data - {key} == data;
        return None;
      }
      data := data - {key};
      return Some(e.value.val);
    }

    method Forget(key: string)
      modifies this
      ensures forall now :: (data, Done) == StoreStep(prefix, old(data), Op.Forget(key), now, now)
    {
      data := data - {key};
    }

    method Has(key: string, now: Instant) returns (ok: bool)
      modifies this
      ensures (data, Flag(ok)) == StoreStep(prefix, old(data), Op.Has(key), now, now)
    {
      var e := Lookup(key, now);
      ok := e.Some?;
    }

    /** The wrapped arithmetic and the sign-bit test of addTo and subFrom. */
    static method Compute(n: int, op: Op) returns (next: int, overflows: bool)
      requires Counts(op) && IsInt64(op.amount) && IsInt64(n)
      ensures overflows <==> !IsInt64(Applied(n, op))
      ensures !overflows ==> next == Applied(n, op)
    {
      if op.Increment? {
        next := Wrap(n + op.amount);
        overflows := AddOverflows(n, op.amount, next);
        AddTestExact(n, op.amount);
      } else {
        next := Wrap(n - op.amount);
        overflows := SubOverflows(n, op.amount, next);
        SubTestExact(n, op.amount);
      }
    }

    /** addTo and subFrom. */
    method Count(op: Op, now: Instant) returns (a: Answer)
      requires Counts(op) && IsInt64(op.amount)
      modifies this
      ensures (data, a) == StoreStep(prefix, old(data), op, now, now)
    {
      var e := Lookup(op.key, now);
      var current := CurrentInt(e);
      if current.None? {
        return NotANumber;
      }
      var (n, expiresAt) := current.value;
      var next, overflows := Compute(n, op);
      if overflows {
        return Overflow;
      }
      data := data[op.key := Entry(FormatInt(next), expiresAt)];
      return Total(next);
    }

    method Flush() returns (a: Answer)
      modifies this
      ensures forall now :: (data, a) == StoreStep(prefix, old(data), Op.Flush, now, now)
    {
      if prefix == "" {
        return NoPrefix;
      }
      data := map[];
      return Done;
    }
  }

  // ---- The timed map it stands for ----

  /** A value and until when it can be seen; None is forever. Nothing is evicted. */
  datatype Timed = Timed(val: string, until: Option<Instant>)
  type Spec = map<string, Timed>

  function Seen(s: Spec, k: string, now: Instant): Option<Timed> {
    if k in s && (s[k].until.None? || now < s[k].until.value) then Some(s[k]) else None
  }

  function Until(ttl: int, now: Instant): Option<Instant> {
    if ttl <= 0 then None else Some(now + ttl)
  }

  /** A counter call on the timed map, as mathematics: the number shown, zero when
      none is, plus or minus the amount. None for a value that is no number; no result
      outside the int64 range; the expiry is the one shown, none when nothing is. */
  function SpecCount(was: Option<Timed>, delta: int): Option<(Option<int>, Option<Instant>)> {
    match was
    case None => Some((if IsInt64(delta) then Some(delta) else None, None))
    case Some(t) =>
      (match ParseInt(t.val)
       case None => None
       case Some(n) => Some((if IsInt64(n + delta) then Some(n + delta) else None, t.until)))
  }

  /** What a counter call leaves and answers. */
  function SpecCounted(s: Spec, k: string, counted: Option<(Option<int>, Option<Instant>)>): (Spec, Answer) {
    match counted
    case None => (s, NotANumber)
    case Some((None, _)) => (s, Overflow)
    case Some((Some(total), until)) => (s[k := Timed(FormatInt(total), until)], Total(total))
  }

  function SpecStep(prefix: string, s: Spec, op: Op, now: Instant, later: Instant): (Spec, Answer) {
    match op
    case Get(k) => (s, Read(SpecValue(Seen(s, k, now))))
    case Put(k, v, ttl) => (s[k := Timed(v, Until(ttl, now))], Done)
    case Add(k, v, ttl) =>
      if Seen(s, k, now).Some? then (s, Flag(false)) else (s[k := Timed(v, Until(ttl, later))], Flag(true))
    case Forever(k, v) => (s[k := Timed(v, None)], Done)
    case Pull(k) => (s - {k}, Read(SpecValue(Seen(s, k, now))))
    case Forget(k) => (s - {k}, Done)
    case Has(k) => (s, Flag(Seen(s, k, now).Some?))
    case Flush => if prefix == "" then (s, NoPrefix) else (map[], Done)
    case Increment(k, amount) => SpecCounted(s, k, SpecCount(Seen(s, k, now), amount))
    case Decrement(k, amount) => SpecCounted(s, k, SpecCount(Seen(s, k, now), -amount))
  }

  function SpecValue(t: Option<Timed>): Option<string> {
    match t case None => None case Some(x) => Some(x.val)
  }

  function Abstract(e: Option<Entry>): Option<Timed> {
    match e
    case None => None
    case Some(x) => Some(Timed(x.val, if x.expiresAt == 0 then None else Some(x.expiresAt)))
  }

  /** From now on nobody can tell the two apart. */
  ghost predicate Alike(data: Data, s: Spec, now: Instant) {
    forall k, t :: t >= now ==> Abstract(Looked(data, k, t)) == Seen(s, k, t)
  }

  lemma EvictionUnseen(data: Data, s: Spec, key: string, now: Instant)
    requires Alike(data, s, now)
    ensures Alike(Evicted(data, key, now), s, now)
  {
    forall k, t | t >= now
      ensures Abstract(Looked(Evicted(data, key, now), k, t)) == Seen(s, k, t)
    {
      assert Abstract(Looked(data, k, t)) == Seen(s, k, t);
    }
  }

  lemma WriteAlike(data: Data, s: Spec, key: string, e: Entry, v: Timed, now: Instant)
    requires Alike(data, s, now)
    requires Abstract(Some(e)) == Some(v)
    ensures Alike(data[key := e], s[key := v], now)
  {
    var d, r := data[key := e], s[key := v];
    forall k, t | t >= now
      ensures Abstract(Looked(d, k, t)) == Seen(r, k, t)
    {
      assert Abstract(Looked(data, k, t)) == Seen(s, k, t);
    }
  }

  lemma RemoveAlike(data: Data, s: Spec, key: string, now: Instant)
    requires Alike(data, s, now)
    ensures Alike(data - {key}, s - {key}, now)
  {
    var d, r := data - {key}, s - {key};
    forall k, t | t >= now
      ensures Abstract(Looked(d, k, t)) == Seen(r, k, t)
    {
      assert Abstract(Looked(data, k, t)) == Seen(s, k, t);
    }
  }

  lemma LaterAlike(data: Data, s: Spec, now: Instant, later: Instant)
    requires Alike(data, s, now) && now <= later
    ensures Alike(data, s, later)
  {
  }

  lemma CountAlike(data: Data, s: Spec, op: Op, now: Instant)
    requires Alike(data, s, now) && Counts(op)
    ensures var r, q := StoreStep("", data, op, now, now), SpecStep("", s, op, now, now);
            r.1 == q.1 && Alike(r.0, q.0, now)
  {
    assert Abstract(Looked(data, op.key, now)) == Seen(s, op.key, now);
    EvictionUnseen(data, s, op.key, now);
    var current := CurrentInt(Looked(data, op.key, now));
    if current.Some? {
      var (n, expiresAt) := current.value;
      var next := Applied(n, op);
      if IsInt64(next) {
        var until := if expiresAt == 0 then None else Some(expiresAt);
        WriteAlike(Evicted(data, op.key, now), s, op.key, Entry(FormatInt(next), expiresAt), Timed(FormatInt(next),
            until), now);
      }
    }
  }

  lemma CountIgnoresPrefix(prefix: string, data: Data, s: Spec, op: Op, now: Instant, later: Instant)
    requires Counts(op)
    ensures StoreStep(prefix, data, op, now, later) == StoreStep("", data, op, now, now)
    ensures SpecStep(prefix, s, op, now, later) == SpecStep("", s, op, now, now)
  {
  }

  /** One call: same answer, and the two stay alike. The clock never yields the zero
      time and does not run backwards. */
  lemma StepAlike(prefix: string, data: Data, s: Spec, op: Op, now: Instant, later: Instant)
    requires Alike(data, s, now) && 0 < now <= later
    ensures var r, q := StoreStep(prefix, data, op, now, later), SpecStep(prefix, s, op, now, later);
            r.1 == q.1 && Alike(r.0, q.0, later)
  {
    if Counts(op) {
      CountAlike(data, s, op, now);
      CountIgnoresPrefix(prefix, data, s, op, now, later);
      LaterAlike(StoreStep("", data, op, now, now).0, SpecStep("", s, op, now, now).0, now, later);
      return;
    }
    LaterAlike(data, s, now, later);
    if !op.Flush? {
      assert Abstract(Looked(data, op.key, now)) == Seen(s, op.key, now);
      EvictionUnseen(data, s, op.key, now);
      LaterAlike(Evicted(data, op.key, now), s, now, later);
    }
    match op
    case Put(k, v, ttl) => WriteAlike(data, s, k, Entry(v, ExpiryFor(ttl, now)), Timed(v, Until(ttl, now)), later);
    case Add(k, v, ttl) =>
      WriteAlike(Evicted(data, k, now), s, k, Entry(v, ExpiryFor(ttl, later)), Timed(v, Until(ttl, later)), later);
    case Forever(k, v) => WriteAlike(data, s, k, Entry(v, 0), Timed(v, None), later);
    case Pull(k) => RemoveAlike(Evicted(data, k, now), s, k, later);
    case Forget(k) => RemoveAlike(data, s, k, later);
    case _ =>
  }

  /** A call with its clock readings. */
  datatype Event = Event(op: Op, now: Instant, later: Instant)

  predicate Monotone(events: seq<Event>, since: Instant) {
    events == [] ||
    (since <= events[0].now <= events[0].later && Monotone(events[1..], events[0].later))
  }

  function StoreAnswers(prefix: string, data: Data, events: seq<Event>): seq<Answer>
    decreases |events|
  {
    if events == [] then []
    else
      var (next, a) := StoreStep(prefix, data, events[0].op, events[0].now, events[0].later);
      [a] + StoreAnswers(prefix, next, events[1..])
  }

  function SpecAnswers(prefix: string, s: Spec, events: seq<Event>): seq<Answer>
    decreases |events|
  {
    if events == [] then []
    else
      var (next, a) := SpecStep(prefix, s, events[0].op, events[0].now, events[0].later);
      [a] + SpecAnswers(prefix, next, events[1..])
  }

  lemma {:induction false} RunsAlike(prefix: string, data: Data, s: Spec, events: seq<Event>, since: Instant)
    requires 0 < since && Monotone(events, since) && Alike(data, s, since)
    ensures StoreAnswers(prefix, data, events) == SpecAnswers(prefix, s, events)
    decreases |events|
  {
    if events != [] {
      var e := events[0];
      LaterAlike(data, s, since, e.now);
      StepAlike(prefix, data, s, e.op, e.now, e.later);
      RunsAlike(prefix, StoreStep(prefix, data, e.op, e.now, e.later).0, SpecStep(prefix, s, e.op, e.now, e.later).0,
                events[1..], e.later);
    }
  }

  /** Every run of the store answers as the timed map would, which evicts nothing,
      counts in exact integers, keeps a counter's expiry, and is left unchanged by a
      failed counter call: lazy deletion cannot be observed. */
  lemma LazyEvictionUnobservable(prefix: string, events: seq<Event>, since: Instant)
    requires 0 < since && Monotone(events, since)
    ensures StoreAnswers(prefix, map[], events) == SpecAnswers(prefix, map[], events)
  {
    RunsAlike(prefix, map[], map[], events, since);
  }

  /** Why the clock must not yield the zero time plus the ttl: such an entry is taken
      for one without expiry. */
  lemma ZeroTimeNeverExpires(k: string, v: string, ttl: int, t: Instant)
    requires ttl > 0
    ensures Looked(StoreStep("", map[], Op.Put(k, v, ttl), -ttl, -ttl).0, k, t).Some?
  {
  }

  // ---- Counters ----

  /** The key's text is the integer n, under this expiry. */
  predicate Stores(data: Data, k: string, n: int, expiresAt: Instant) {
    k in data && data[k].expiresAt == expiresAt && ParseInt(data[k].val) == Some(n)
  }

  predicate Unexpired(expiresAt: Instant, at: Instant) {
    expiresAt == 0 || at < expiresAt
  }

  /** Counter calls on one key, each at an instant at which the key is unexpired. */
  predicate CountsOn(events: seq<Event>, k: string, expiresAt: Instant) {
    forall i :: 0 <= i < |events| ==>
      Counts(events[i].op) && events[i].op.key == k && Unexpired(expiresAt, events[i].now)
  }

  /** What a counter call asks to add to the number. */
  function Delta(op: Op): int
    requires Counts(op)
  {
    match op
    case Increment(_, amount) => amount
    case Decrement(_, amount) => -amount
  }

  /** Where an exact counter stands after a run of calls: one that would leave the int64
      range leaves it where it was. */
  function TotalAfter(n: int, events: seq<Event>): int
    requires forall i :: 0 <= i < |events| ==> Counts(events[i].op)
    decreases |events|
  {
    if events == [] then n
    else TotalAfter(if IsInt64(n + Delta(events[0].op)) then n + Delta(events[0].op) else n, events[1..])
  }

  /** And what each call answers: the exact total, or that it is out of range. */
  function ExactAnswers(n: int, events: seq<Event>): seq<Answer>
    requires forall i :: 0 <= i < |events| ==> Counts(events[i].op)
    decreases |events|
  {
    if events == [] then []
    else
      var next := n + Delta(events[0].op);
      if IsInt64(next) then [Total(next)] + ExactAnswers(next, events[1..])
      else [Overflow] + ExactAnswers(n, events[1..])
  }

  function DataAfter(prefix: string, data: Data, events: seq<Event>): Data
    decreases |events|
  {
    if events == [] then data
    else DataAfter(prefix, StoreStep(prefix, data, events[0].op, events[0].now, events[0].later).0, events[1..])
  }

  /** One call on a key that holds n: Increment answers n + amount, Decrement
      n - amount, stored as text under the old expiry; a result that is no int64 is
      refused and changes nothing. */
  lemma CounterExact(prefix: string, data: Data, k: string, n: int, expiresAt: Instant, amount: int, e: Event)
    requires Stores(data, k, n, expiresAt) && Unexpired(expiresAt, e.now)
    requires e.op == Increment(k, amount) || e.op == Decrement(k, amount)
    ensures var (next, a) := StoreStep(prefix, data, e.op, e.now, e.later);
            var total := if e.op == Increment(k, amount) then n + amount else n - amount;
            if IsInt64(total) then a == Total(total) && Stores(next, k, total, expiresAt)
            else a == Overflow && next == data
  {
    var total := if e.op == Increment(k, amount) then n + amount else n - amount;
    if IsInt64(total) { DecimalRoundTrip(total); }
  }

  lemma FiveAndOne(prefix: string, e: Event)
    requires e.op == Increment("k", 1)
    ensures var (next, a) := StoreStep(prefix, map["k" := Entry("5", 0)], e.op, e.now, e.later);
            a == Total(6) && next == map["k" := Entry("6", 0)]
  {
    DecimalMeans(0, 5);
    DecimalMeans(0, 6);
    DecimalRoundTrip(5);
  }

  /** One call on a key that is absent or expired counts from zero, and what it stores
      never expires. */
  lemma CounterFromZero(prefix: string, data: Data, k: string, amount: int, e: Event)
    requires k !in data || !Unexpired(data[k].expiresAt, e.now)
    requires e.op == Increment(k, amount) || e.op == Decrement(k, amount)
    ensures var (next, a) := StoreStep(prefix, data, e.op, e.now, e.later);
            var total := if e.op == Increment(k, amount) then amount else -amount;
            if IsInt64(total) then a == Total(total) && Stores(next, k, total, 0)
            else a == Overflow && next == data - {k}
  {
    var total := if e.op == Increment(k, amount) then amount else -amount;
    if IsInt64(total) { DecimalRoundTrip(total); }
  }

  lemma CounterStep(prefix: string, data: Data, k: string, n: int, expiresAt: Instant, e: Event)
    requires Stores(data, k, n, expiresAt) && Unexpired(expiresAt, e.now) && Counts(e.op) && e.op.key == k
    ensures var (next, a) := StoreStep(prefix, data, e.op, e.now, e.later);
            var total := n + Delta(e.op);
            && a == (if IsInt64(total) then Total(total) else Overflow)
            && Stores(next, k, if IsInt64(total) then total else n, expiresAt)
  {
    CounterExact(prefix, data, k, n, expiresAt, e.op.amount, e);
  }

  /** Any run of counter calls, time passing between them, on a key that is unexpired
      at each: call by call the answer is the exact total, or Overflow with the stored
      value as it was; the text left behind is the exact total, under the old expiry. */
  lemma {:induction false} CountersExact(prefix: string, data: Data, k: string, n: int, expiresAt: Instant,
                                         events: seq<Event>)
    requires Stores(data, k, n, expiresAt) && CountsOn(events, k, expiresAt)
    ensures StoreAnswers(prefix, data, events) == ExactAnswers(n, events)
    ensures Stores(DataAfter(prefix, data, events), k, TotalAfter(n, events), expiresAt)
    decreases |events|
  {
    if events != [] {
      var e := events[0];
      var total := n + Delta(e.op);
      var next := StoreStep(prefix, data, e.op, e.now, e.later).0;
      CounterStep(prefix, data, k, n, expiresAt, e);
      CountersExact(prefix, next, k, if IsInt64(total) then total else n, expiresAt, events[1..]);
    }
  }
}
