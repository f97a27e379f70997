/** Flush on a shared Redis (cache/redis/redis.go): SCAN and batched DEL while other
    clients write and delete. */
module RedisFlush {
  import opened Glob

  const FLUSH_BATCH_SIZE := 1000

  /** What happens while Flush iterates: SCAN yields a key, or another client writes
      or deletes one. */
  datatype Event = Yield(key: string) | Put(key: string) | Remove(key: string)

  datatype Outcome = Flushed | NoPrefix | DelFailed | ScanFailed

  function Pattern(prefix: string): string {
    Escaped(prefix) + "*"
  }

  function KeySet(batch: seq<string>): set<string> {
    set k | k in batch
  }

  /** The keyspace, the batch being filled, the DELs sent, and whether one failed. */
  datatype Progress = Progress(keys: set<string>, batch: seq<string>, sent: seq<seq<string>>, failed: bool)

  /** One event. `fails` says which DEL, counted from the first, the server refuses. */
  function Step(p: Progress, e: Event, fails: nat -> bool): Progress {
    match e
    case Put(k) => p.(keys := p.keys + {k})
    case Remove(k) => p.(keys := p.keys - {k})
    case Yield(k) =>
      var batch := p.batch + [k];
      if |batch| < FLUSH_BATCH_SIZE then p.(batch := batch)
      else if fails(|p.sent|) then p.(batch := batch, failed := true)
      else Progress(p.keys - KeySet(batch), [], p.sent + [batch], false)
  }

  function After(keys: set<string>, events: seq<Event>, fails: nat -> bool): Progress
    decreases |events|
  {
    if events == [] then Progress(keys, [], [], false)
    else
      var p := After(keys, events[..|events| - 1], fails);
      if p.failed then p else Step(p, events[|events| - 1], fails)
  }

  /** The rest of Flush once the iteration is over. */
  function Finished(p: Progress, fails: nat -> bool, scanFails: bool): (Outcome, Progress) {
    if p.failed then (DelFailed, p)
    else if scanFails then (ScanFailed, p)
    else if p.batch == [] then (Flushed, p)
    else if fails(|p.sent|) then (DelFailed, p)
    else (Flushed, Progress(p.keys - KeySet(p.batch), [], p.sent + [p.batch], false))
  }

  function FlushRun(prefix: string, keys: set<string>, events: seq<Event>, fails: nat -> bool, scanFails: bool):
      (Outcome, Progress)
  {
    if prefix == "" then (NoPrefix, Progress(keys, [], [], false))
    else Finished(After(keys, events, fails), fails, scanFails)
  }

  /** Flush. The events interleave with its own steps; DELs are recorded as sent. */
  method Flush(prefix: string, start: set<string>, events: seq<Event>, fails: nat -> bool, scanFails: bool)
      returns (r: Outcome, keys: set<string>, sent: seq<seq<string>>)
    ensures var (outcome, p) := FlushRun(prefix, start, events, fails, scanFails);
            r == outcome && keys == p.keys && sent == p.sent
  {
    keys, sent := start, [];
    if prefix == "" {
      return NoPrefix, keys, sent;
    }
    var batch: seq<string> := [];
    for i := 0 to |events|
      invariant After(start, events[..i], fails) == Progress(keys, batch, sent, false)
    {
      assert events[..i + 1][..i] == events[..i] && events[..i + 1][i] == events[i];
      match events[i] {
        case Put(k) => keys := keys + {k};
        case Remove(k) => keys := keys - {k};
        case Yield(k) =>
          batch := batch + [k];
          if |batch| >= FLUSH_BATCH_SIZE {
            if fails(|sent|) {
              StoppedAt(start, events, i + 1, fails);
              return DelFailed, keys, sent;
            }
            keys := keys - KeySet(batch);
            sent := sent + [batch];
            batch := [];
          }
      }
    }
    assert events[..|events|] == events;
    if scanFails {
      return ScanFailed, keys, sent;
    }
    if |batch| > 0 {
      if fails(|sent|) {
        return DelFailed, keys, sent;
      }
      keys := keys - KeySet(batch);
      sent := sent + [batch];
    }
    return Flushed, keys, sent;
  }

  lemma {:induction false} StoppedAt(keys: set<string>, events: seq<Event>, n: nat, fails: nat -> bool)
    requires n <= |events| && After(keys, events[..n], fails).failed
    ensures After(keys, events, fails) == After(keys, events[..n], fails)
    decreases |events|
  {
    if n < |events| {
      var shorter := events[..|events| - 1];
      assert shorter[..n] == events[..n];
      StoppedAt(keys, shorter, n, fails);
    } else {
      assert events[..n] == events;
    }
  }

  // ---- SCAN's guarantee ----

  /** The keyspace just before event i, or at the end. */
  function KeysAt(keys: set<string>, events: seq<Event>, fails: nat -> bool, i: nat): set<string>
    requires i <= |events|
  {
    After(keys, events[..i], fails).keys
  }

  predicate PresentThroughout(keys: set<string>, events: seq<Event>, fails: nat -> bool, k: string) {
    forall i :: 0 <= i <= |events| ==> k in KeysAt(keys, events, fails, i)
  }

  /** Every yielded key matches the pattern; every matching key present for the whole
      scan is yielded at least once, repeats allowed. */
  ghost predicate ScanGuarantee(prefix: string, keys: set<string>, events: seq<Event>, fails: nat -> bool) {
    && (forall i :: 0 <= i < |events| && events[i].Yield? ==> GlobMatch(Pattern(prefix), events[i].key))
    && (forall k :: GlobMatch(Pattern(prefix), k) && PresentThroughout(keys, events, fails, k) ==> Yield(k) in events)
  }

  // ---- What Flush does ----

  lemma {:induction false} StaysGone(keys: set<string>, events: seq<Event>, fails: nat -> bool, k: string, i: nat)
    requires i <= |events| && k !in KeysAt(keys, events, fails, i) && Put(k) !in events
    ensures k !in After(keys, events, fails).keys
    decreases |events|
  {
    if i < |events| {
      var n := |events| - 1;
      assert events[..n][..i] == events[..i];
      assert events[n] in events;
      StaysGone(keys, events[..n], fails, k, i);
    } else {
      assert events[..i] == events;
    }
  }

  lemma {:induction false} YieldedIsDoomed(keys: set<string>, events: seq<Event>, fails: nat -> bool, k: string)
    requires Yield(k) in events && Put(k) !in events && !After(keys, events, fails).failed
    ensures k in After(keys, events, fails).batch || k !in After(keys, events, fails).keys
    decreases |events|
  {
    var n := |events| - 1;
    var before, last := events[..n], events[n];
    assert events == before + [last] && last in events;
    if Yield(k) in before { YieldedIsDoomed(keys, before, fails, k); }
  }

  /** A successful Flush leaves none of the owned keys that were there when it started
      and that nobody has written since. */
  lemma FlushComplete(prefix: string, keys: set<string>, events: seq<Event>, fails: nat -> bool, scanFails: bool,
        k: string)
    requires ScanGuarantee(prefix, keys, events, fails)
    requires FlushRun(prefix, keys, events, fails, scanFails).0 == Flushed
    requires prefix <= k && Put(k) !in events
    ensures k !in FlushRun(prefix, keys, events, fails, scanFails).1.keys
  {
    EscapedPrefixExact(prefix, k);
    var p := After(keys, events, fails);
    if Yield(k) in events {
      YieldedIsDoomed(keys, events, fails, k);
    } else {
      var i :| 0 <= i <= |events| && k !in KeysAt(keys, events, fails, i);
      StaysGone(keys, events, fails, k, i);
    }
  }

  /** Where the keyspace would be without Flush. */
  function Others(keys: set<string>, events: seq<Event>): set<string>
    decreases |events|
  {
    if events == [] then keys
    else
      var before := Others(keys, events[..|events| - 1]);
      match events[|events| - 1]
      case Put(k) => before + {k}
      case Remove(k) => before - {k}
      case Yield(_) => before
  }

  /** How many events had happened when the loop ended: all of them, or those up to and
      including the yield whose DEL was refused. */
  function HandledCount(keys: set<string>, events: seq<Event>, fails: nat -> bool): (n: nat)
    ensures n <= |events|
    decreases |events|
  {
    if events == [] then 0
    else
      var n := |events| - 1;
      if After(keys, events[..n], fails).failed then HandledCount(keys, events[..n], fails) else |events|
  }

  predicate OwnedBatches(prefix: string, sent: seq<seq<string>>) {
    forall i :: 0 <= i < |sent| ==> 0 < |sent[i]| <= 1000 && forall k | k in sent[i] :: prefix <= k
  }

  lemma {:induction false} ProgressOwned(prefix: string, keys: set<string>, events: seq<Event>, fails: nat -> bool)
    requires forall i :: 0 <= i < |events| && events[i].Yield? ==> GlobMatch(Pattern(prefix), events[i].key)
    ensures var p := After(keys, events, fails);
            && OwnedBatches(prefix, p.sent)
            && (forall k | k in p.batch :: prefix <= k)
            && (!p.failed ==> |p.batch| < FLUSH_BATCH_SIZE && HandledCount(keys, events, fails) == |events|)
            && ForeignKept(prefix, p.keys, Others(keys, events[..HandledCount(keys, events, fails)]))
    decreases |events|
  {
    if events != [] {
      var n := |events| - 1;
      var before := events[..n];
      assert forall i :: 0 <= i < n ==> before[i] == events[i];
      ProgressOwned(prefix, keys, before, fails);
      if events[n].Yield? { EscapedPrefixExact(prefix, events[n].key); }
      if After(keys, before, fails).failed {
        var m := HandledCount(keys, before, fails);
        assert before[..m] == events[..m];
      } else {
        assert before[..n] == before && events[..n + 1] == events;
      }
    }
  }

  /** The two keyspaces hold the same keys outside the prefix. */
  predicate ForeignKept(prefix: string, a: set<string>, b: set<string>) {
    (forall k | k in a :: prefix <= k || k in b) && (forall k | k in b :: prefix <= k || k in a)
  }

  /** Whatever happens, every DEL is non-empty, holds at most 1000 keys, and names
      only keys with the literal prefix; and however the Flush ends, every other key is
      where the other clients left it by then: after all the events, unless a DEL was
      refused while scanning. */
  lemma FlushOnlyOwned(prefix: string, keys: set<string>, events: seq<Event>, fails: nat -> bool, scanFails: bool)
    requires ScanGuarantee(prefix, keys, events, fails)
    ensures var (outcome, p) := FlushRun(prefix, keys, events, fails, scanFails);
            var n := HandledCount(keys, events, fails);
            && OwnedBatches(prefix, p.sent)
            && (prefix != "" ==> ForeignKept(prefix, p.keys, Others(keys, events[..n])))
            && (outcome == Flushed || outcome == ScanFailed ==> n == |events|)
            && (prefix == "" ==> outcome == NoPrefix && p.sent == [] && p.keys == keys)
  {
    ProgressOwned(prefix, keys, events, fails);
  }

  // ---- What Flush answers ----

  /** How many keys SCAN yielded, repeats counted. */
  function Yields(events: seq<Event>): nat
    decreases |events|
  {
    if events == [] then 0
    else Yields(events[..|events| - 1]) + if events[|events| - 1].Yield? then 1 else 0
  }

  /** While scanning, every thousandth key sends a DEL; the first that is refused ends it. */
  lemma {:induction false} ScanProgress(keys: set<string>, events: seq<Event>, fails: nat -> bool)
    ensures var p := After(keys, events, fails);
            && (forall i :: 0 <= i < |p.sent| ==> |p.sent[i]| == 1000 && !fails(i))
            && (!p.failed ==> |p.batch| < 1000 && Yields(events) == 1000 * |p.sent| + |p.batch|)
            && (p.failed ==> fails(|p.sent|) && 1000 * |p.sent| + 1000 <= Yields(events))
    decreases |events|
  {
    if events != [] { ScanProgress(keys, events[..|events| - 1], fails); }
  }

  /** Is the n-th DEL sent at all? A failed scan leaves the last, partial batch unsent. */
  predicate Due(n: nat, yielded: nat, scanFails: bool) {
    if scanFails then 1000 * n + 1000 <= yielded else 1000 * n < yielded
  }

  /** Flush succeeds exactly when there is a prefix, the scan does not fail, and neither
      does any of the DELs it takes to remove what was yielded, a thousand keys each and
      the last one the rest; it answers a refused DEL exactly when the scan got as far. */
  lemma FlushAnswers(prefix: string, keys: set<string>, events: seq<Event>, fails: nat -> bool, scanFails: bool)
    ensures var outcome := FlushRun(prefix, keys, events, fails, scanFails).0;
            && (outcome == NoPrefix <==> prefix == "")
            && (outcome == Flushed <==>
                  prefix != "" && !scanFails && forall n: nat :: 1000 * n < Yields(events) ==> !fails(n))
            && (outcome == DelFailed <==>
                  prefix != "" && exists n: nat :: fails(n) && Due(n, Yields(events), scanFails))
  {
    ScanProgress(keys, events, fails);
    var p := After(keys, events, fails);
    assert p.failed ==> fails(|p.sent|);
  }
}
