/**
 The fixed-window limiter (apps/worker/src/rate-limiter.ts) over its two stores: the
 in-memory one that never deletes, and the database one that drops expired rows first
 (apps/worker/src/d1-repositories.ts).
 */
module RateLimiter {
  type Key = string

  /** A counter row; the memory store has no use for `expiresAt`. */
  datatype Counter = Counter(windowStart: int, count: nat)
  datatype Row = Row(counter: Counter, expiresAt: int)

  datatype Request = Request(key: Key, now: int)

  datatype RateLimitResult = RateLimitResult(allowed: bool, limit: nat, remaining: nat, retryAfterSeconds: nat)

  /** `Math.floor(now / windowMs) * windowMs` */
  function Window(windowMs: int, now: int): int
    requires windowMs >= 1
  {
    now / windowMs * windowMs
  }

  function Bump(current: Counter, windowStart: int): Counter {
    Counter(windowStart, if current.windowStart == windowStart then current.count + 1 else 1)
  }

  class MemoryRateLimitStore {
    var entries: map<Key, Counter>

    constructor ()
      ensures entries == map[]
    {
      entries := map[];
    }

    method Increment(key: Key, windowStart: int, expiresAt: int, now: int) returns (count: nat)
      modifies this
      ensures entries == AfterMemory(old(entries), key, windowStart) && count == entries[key].count
    {
      if key in entries && entries[key].windowStart == windowStart {
        count := entries[key].count + 1;
      } else {
        count := 1;
      }
      entries := entries[key := Counter(windowStart, count)];
    }
  }

  class ExpiringRateLimitStore {
    var rows: map<Key, Row>

    constructor ()
      ensures rows == map[]
    {
      rows := map[];
    }

    method Increment(key: Key, windowStart: int, expiresAt: int, now: int) returns (count: nat)
      modifies this
      ensures rows == AfterExpiring(old(rows), key, windowStart, expiresAt, now) && count == rows[key].counter.count
    {
      rows := map k | k in rows && rows[k].expiresAt > now :: rows[k];
      if key in rows {
        rows := rows[key := Row(Bump(rows[key].counter, windowStart), expiresAt)];
      } else {
        rows := rows[key := Row(Counter(windowStart, 1), expiresAt)];
      }
      count := rows[key].counter.count;
    }
  }

  function AfterMemory(entries: map<Key, Counter>, key: Key, windowStart: int): (r: map<Key, Counter>)
    ensures key in r
  {
    entries[key := if key in entries then Bump(entries[key], windowStart) else Counter(windowStart, 1)]
  }

  function AfterExpiring(rows: map<Key, Row>, key: Key, windowStart: int, expiresAt: int, now: int): (r: map<Key, Row>)
    ensures key in r
  {
    var live := map k | k in rows && rows[k].expiresAt > now :: rows[k];
    live[key := Row(if key in live then Bump(live[key].counter, windowStart) else Counter(windowStart, 1), expiresAt)]
  }

  /** `consume`, once the store has returned the count. */
  function Decide(limit: nat, windowMs: nat, now: int, count: nat): (r: RateLimitResult)
    requires limit >= 1 && windowMs >= 1
    ensures r.allowed <==> count <= limit
    ensures r.remaining > 0 <==> count < limit
    ensures r.remaining == 0 || r.remaining + count == limit
    // waiting that long reaches the next window, and a second less would not
    ensures now + 1000 * r.retryAfterSeconds >= Window(windowMs, now) + windowMs
    ensures r.retryAfterSeconds == 1 || now + 1000 * (r.retryAfterSeconds - 1) < Window(windowMs, now) + windowMs
  {
    var left := Window(windowMs, now) + windowMs - now;
    WindowHolds(windowMs, now);
    RateLimitResult(count <= limit, limit, if count <= limit then limit - count else 0,
      if (left + 999) / 1000 < 1 then 1 else (left + 999) / 1000)
  }

  lemma {:induction false} WindowHolds(windowMs: int, now: int)
    requires windowMs >= 1
    ensures Window(windowMs, now) <= now < Window(windowMs, now) + windowMs
  {
  }

  lemma {:induction false} Scales(a: int, b: int, n: int)
    requires n >= 0
    ensures a <= b ==> a * n <= b * n
  {
  }

  /** Windows are aligned: a later start is at least one whole window later. */
  lemma {:induction false} WindowsApart(windowMs: int, a: int, b: int)
    requires windowMs >= 1 && a <= b
    ensures Window(windowMs, a) <= Window(windowMs, b)
    ensures Window(windowMs, a) < Window(windowMs, b) ==> Window(windowMs, a) + windowMs <= Window(windowMs, b)
  {
    var i, j := a / windowMs, b / windowMs;
    Scales(j + 1, i, windowMs);
    Scales(i + 1, j, windowMs);
  }

  // ---------------------------------------------------------------------------
  // Whole runs
  // ---------------------------------------------------------------------------

  ghost function Memory(windowMs: int, reqs: seq<Request>): map<Key, Counter>
    requires windowMs >= 1
  {
    if reqs == [] then map[]
    else
      var r := reqs[|reqs| - 1];
      AfterMemory(Memory(windowMs, reqs[..|reqs| - 1]), r.key, Window(windowMs, r.now))
  }

  ghost function Expiring(windowMs: int, reqs: seq<Request>): map<Key, Row>
    requires windowMs >= 1
  {
    if reqs == [] then map[]
    else
      var r := reqs[|reqs| - 1];
      var start := Window(windowMs, r.now);
      AfterExpiring(Expiring(windowMs, reqs[..|reqs| - 1]), r.key, start, start + windowMs, r.now)
  }

  /** The count the last request of a run gets from the store that never deletes. */
  ghost function MemoryCount(windowMs: int, reqs: seq<Request>): nat
    requires windowMs >= 1 && reqs != []
  {
    Memory(windowMs, reqs)[reqs[|reqs| - 1].key].count
  }

  ghost function ExpiringCount(windowMs: int, reqs: seq<Request>): nat
    requires windowMs >= 1 && reqs != []
  {
    Expiring(windowMs, reqs)[reqs[|reqs| - 1].key].counter.count
  }

  predicate Nondecreasing(reqs: seq<Request>) {
    forall i, j :: 0 <= i < j < |reqs| ==> reqs[i].now <= reqs[j].now
  }

  /** How many requests of a run hit one key in one window. */
  ghost function Hits(windowMs: int, reqs: seq<Request>, key: Key, start: int): nat
    requires windowMs >= 1
  {
    if reqs == [] then 0
    else
      var r := reqs[|reqs| - 1];
      Hits(windowMs, reqs[..|reqs| - 1], key, start) + if r.key == key && Window(windowMs, r.now) == start then 1 else 0
  }

  lemma {:induction false} NoHits(windowMs: int, reqs: seq<Request>, key: Key, start: int)
    requires windowMs >= 1
    requires forall i :: 0 <= i < |reqs| && reqs[i].key == key ==> Window(windowMs, reqs[i].now) != start
    ensures Hits(windowMs, reqs, key, start) == 0
  {
    if reqs != [] { NoHits(windowMs, reqs[..|reqs| - 1], key, start); }
  }

  /** The newest window of each key is the one counted, and counted right. */
  lemma {:induction false} MemoryMeaning(windowMs: int, reqs: seq<Request>, key: Key)
    requires windowMs >= 1 && Nondecreasing(reqs)
    ensures key in Memory(windowMs, reqs) ==>
      var c := Memory(windowMs, reqs)[key];
      && c.count == Hits(windowMs, reqs, key, c.windowStart)
      && c.windowStart <= Window(windowMs, reqs[|reqs| - 1].now)
    ensures forall i :: 0 <= i < |reqs| && reqs[i].key == key ==>
      key in Memory(windowMs, reqs) && Window(windowMs, reqs[i].now) <= Memory(windowMs, reqs)[key].windowStart
    ensures key in Memory(windowMs, reqs) ==> reqs != []
  {
    if reqs != [] {
      var before, r := reqs[..|reqs| - 1], reqs[|reqs| - 1];
      MemoryMeaning(windowMs, before, key);
      forall i | 0 <= i < |before| ensures Window(windowMs, reqs[i].now) <= Window(windowMs, r.now) {
        WindowsApart(windowMs, reqs[i].now, r.now);
      }
      if r.key == key {
        var start := Window(windowMs, r.now);
        if key !in Memory(windowMs, before) || Memory(windowMs, before)[key].windowStart != start {
          forall i | 0 <= i < |before| && before[i].key == key
            ensures Window(windowMs, before[i].now) != start
          {
            assert reqs[i] == before[i];
          }
          NoHits(windowMs, before, key, start);
        }
      }
    }
  }

  // ---------------------------------------------------------------------------
  // When deleting expired rows makes no difference
  // ---------------------------------------------------------------------------

  /** From request `a` on, every request of the key falls into one window: the run the memory store counts. */
  ghost predicate InRun(windowMs: int, reqs: seq<Request>, key: Key, start: int, a: nat)
    requires windowMs >= 1
  {
    && a < |reqs| && reqs[a].key == key
    && forall b :: a <= b < |reqs| && reqs[b].key == key ==> Window(windowMs, reqs[b].now) == start
  }

  /** Since that run began, no request of any key came at or after the end of its window. */
  ghost predicate Spared(windowMs: int, reqs: seq<Request>, key: Key, start: int)
    requires windowMs >= 1
  {
    forall a: nat, j: nat :: InRun(windowMs, reqs, key, start, a) && a <= j < |reqs| ==> reqs[j].now < start + windowMs
  }

  lemma {:induction false} RunGoesOn(windowMs: int, reqs: seq<Request>, r: Request, key: Key, start: int, a: nat)
    requires windowMs >= 1 && a < |reqs|
    ensures InRun(windowMs, reqs + [r], key, start, a) <==>
      InRun(windowMs, reqs, key, start, a) && (r.key == key ==> Window(windowMs, r.now) == start)
  {
    var all := reqs + [r];
    if InRun(windowMs, all, key, start, a) {
      forall b | a <= b < |reqs| && reqs[b].key == key ensures Window(windowMs, reqs[b].now) == start {
        assert all[b] == reqs[b];
      }
      assert all[|reqs|] == r;
    }
  }

  /** A request of another key, or one more in the same window, spares what was spared if it is early enough. */
  lemma {:induction false} SparedGoesOn(windowMs: int, reqs: seq<Request>, r: Request, key: Key, start: int, a: nat)
    requires windowMs >= 1 && InRun(windowMs, reqs, key, start, a)
    requires r.key == key ==> Window(windowMs, r.now) == start
    ensures Spared(windowMs, reqs + [r], key, start) <==>
      Spared(windowMs, reqs, key, start) && r.now < start + windowMs
  {
    var all := reqs + [r];
    WindowHolds(windowMs, r.now);
    if Spared(windowMs, all, key, start) {
      forall b: nat, j: nat | InRun(windowMs, reqs, key, start, b) && b <= j < |reqs|
        ensures reqs[j].now < start + windowMs
      {
        RunGoesOn(windowMs, reqs, r, key, start, b);
        assert all[j] == reqs[j];
      }
      RunGoesOn(windowMs, reqs, r, key, start, a);
      assert all[|reqs|].now < start + windowMs;
    }
    if Spared(windowMs, reqs, key, start) && r.now < start + windowMs {
      forall b: nat, j: nat | InRun(windowMs, all, key, start, b) && b <= j < |all|
        ensures all[j].now < start + windowMs
      {
        if b < |reqs| { RunGoesOn(windowMs, reqs, r, key, start, b); }
        if j < |reqs| { assert all[j] == reqs[j]; }
      }
    }
  }

  lemma {:induction false} OneWindow(windowMs: int, reqs: seq<Request>, key: Key, s: int, a: nat, t: int, b: nat)
    requires windowMs >= 1 && InRun(windowMs, reqs, key, s, a) && InRun(windowMs, reqs, key, t, b)
    ensures s == t
  {
    var last := if a <= b then b else a;
    assert reqs[last].key == key;
  }

  /** A request that starts a window anew spares its run so far. */
  lemma {:induction false} NewRunIsSpared(windowMs: int, reqs: seq<Request>, r: Request)
    requires windowMs >= 1
    requires forall a: nat :: a < |reqs| ==> !InRun(windowMs, reqs, r.key, Window(windowMs, r.now), a)
    ensures Spared(windowMs, reqs + [r], r.key, Window(windowMs, r.now))
  {
    var all, start := reqs + [r], Window(windowMs, r.now);
    WindowHolds(windowMs, r.now);
    forall a: nat, j: nat | InRun(windowMs, all, r.key, start, a) && a <= j < |all|
      ensures all[j].now < start + windowMs
    {
      if a < |reqs| { RunGoesOn(windowMs, reqs, r, r.key, start, a); }
    }
  }

  /**
   Key by key, for any clock: the expiring store never counts more than the memory store,
   and it has the same row exactly if the key's run was spared.
   */
  lemma {:induction false} RowsAgreeIff(windowMs: int, reqs: seq<Request>, key: Key)
    requires windowMs >= 1
    ensures key in Memory(windowMs, reqs) ==>
      exists a: nat :: InRun(windowMs, reqs, key, Memory(windowMs, reqs)[key].windowStart, a)
    ensures key !in Memory(windowMs, reqs) ==> forall a :: 0 <= a < |reqs| ==> reqs[a].key != key
    ensures key in Memory(windowMs, reqs) ==> Memory(windowMs, reqs)[key].count >= 1
    ensures key in Expiring(windowMs, reqs) ==>
      var row := Expiring(windowMs, reqs)[key];
      && key in Memory(windowMs, reqs) && row.counter.windowStart == Memory(windowMs, reqs)[key].windowStart
      && row.expiresAt == row.counter.windowStart + windowMs && row.counter.count <= Memory(windowMs, reqs)[key].count
    ensures key in Memory(windowMs, reqs) ==>
      (key in Expiring(windowMs, reqs) && Expiring(windowMs, reqs)[key].counter == Memory(windowMs, reqs)[key] <==>
       Spared(windowMs, reqs, key, Memory(windowMs, reqs)[key].windowStart))
  {
    if reqs != [] {
      var before, r := reqs[..|reqs| - 1], reqs[|reqs| - 1];
      assert reqs == before + [r];
      RowsAgreeIff(windowMs, before, key);
      WindowHolds(windowMs, r.now);
      var start := Window(windowMs, r.now);
      var known := key in Memory(windowMs, before);
      if known && (r.key != key || Memory(windowMs, before)[key].windowStart == start) {
        var w := Memory(windowMs, before)[key].windowStart;
        var a: nat :| InRun(windowMs, before, key, w, a);
        RunGoesOn(windowMs, before, r, key, w, a);
        SparedGoesOn(windowMs, before, r, key, w, a);
      } else if r.key == key {
        forall a: nat | a < |before| ensures !InRun(windowMs, before, key, start, a) {
          if known {
            var b: nat :| InRun(windowMs, before, key, Memory(windowMs, before)[key].windowStart, b);
            if InRun(windowMs, before, key, start, a) {
              OneWindow(windowMs, before, key, start, a, Memory(windowMs, before)[key].windowStart, b);
            }
          }
        }
        NewRunIsSpared(windowMs, before, r);
        assert InRun(windowMs, reqs, key, start, |before|);
      } else {
        assert forall a :: 0 <= a < |reqs| ==> reqs[a].key != key;
      }
    }
  }

  /**
   For every run and any clock: the last request gets the same count from both stores if and
   only if, since that key's run of requests in this window began, no request of any key came
   at or after the window's end.
   */
  lemma {:induction false} StoresAgreeIff(windowMs: int, reqs: seq<Request>)
    requires windowMs >= 1 && reqs != []
    ensures
      var r := reqs[|reqs| - 1];
      ExpiringCount(windowMs, reqs) == MemoryCount(windowMs, reqs) <==>
        Spared(windowMs, reqs, r.key, Window(windowMs, r.now))
  {
    RowsAgreeIff(windowMs, reqs, reqs[|reqs| - 1].key);
  }

  /** So for a clock that does not go back, deleting expired rows changes no count. */
  lemma {:induction false} ExpiringRefinesMemory(windowMs: int, reqs: seq<Request>)
    requires windowMs >= 1 && Nondecreasing(reqs) && reqs != []
    ensures ExpiringCount(windowMs, reqs) == MemoryCount(windowMs, reqs)
  {
    var r := reqs[|reqs| - 1];
    WindowHolds(windowMs, r.now);
    assert forall j :: 0 <= j < |reqs| ==> reqs[j].now <= r.now;
    StoresAgreeIff(windowMs, reqs);
  }

  /** A clock that goes back can leave a run unspared: the deleted window starts over. */
  lemma {:induction false} BackwardClockDiffers()
    ensures
      var reqs := [Request("a", 15), Request("b", 25), Request("a", 16)];
      !Nondecreasing(reqs) && MemoryCount(10, reqs) == 2 && ExpiringCount(10, reqs) == 1
  {
    var r0, r1, r2 := Request("a", 15), Request("b", 25), Request("a", 16);
    var reqs := [r0, r1, r2];
    assert reqs[0].now <= reqs[1].now && reqs[1].now > reqs[2].now;
    assert reqs[..2] == [r0, r1] && [r0, r1][..1] == [r0] && [r0][..0] == [];
    assert Memory(10, [r0]) == map["a" := Counter(10, 1)];
    assert Memory(10, [r0, r1]) == map["a" := Counter(10, 1), "b" := Counter(20, 1)];
    assert Expiring(10, [r0]) == map["a" := Row(Counter(10, 1), 20)];
    assert Expiring(10, [r0, r1]) == map["b" := Row(Counter(20, 1), 30)];
  }

  /** The limiter over the database store; `served` is every request it was asked about. */
  class FixedWindowRateLimiter {
    const store: ExpiringRateLimitStore
    const limit: nat
    const windowMs: nat
    ghost var served: seq<Request>

    ghost predicate Valid()
      reads this, store
    {
      limit >= 1 && windowMs >= 1 && store.rows == Expiring(windowMs, served)
    }

    constructor (store: ExpiringRateLimitStore, limit: nat, windowMs: nat)
      requires limit >= 1 && windowMs >= 1 && store.rows == map[]
      ensures Valid() && served == [] && this.limit == limit && this.windowMs == windowMs && this.store == store
    {
      this.store, this.limit, this.windowMs, this.served := store, limit, windowMs, [];
    }

    method Consume(key: Key, now: int) returns (r: RateLimitResult)
      requires Valid()
      modifies this, store
      ensures Valid() && served == old(served) + [Request(key, now)]
      ensures r == Decide(limit, windowMs, now, ExpiringCount(windowMs, served))
      ensures Nondecreasing(served) ==> (r.allowed <==> Hits(windowMs, served, key, Window(windowMs, now)) <= limit)
    {
      var windowStart := Window(windowMs, now);
      var count := store.Increment(key, windowStart, windowStart + windowMs, now);
      served := served + [Request(key, now)];
      assert served[..|served| - 1] == old(served);
      if Nondecreasing(served) {
        ExpiringRefinesMemory(windowMs, served);
        MemoryMeaning(windowMs, served, key);
      }
      r := Decide(limit, windowMs, now, count);
    }
  }

  // ---------------------------------------------------------------------------
  // How much is admitted
  // ---------------------------------------------------------------------------

  /** Admitted requests of one key with a time in [from, until). */
  ghost function Admitted(limit: nat, windowMs: int, reqs: seq<Request>, key: Key, from: int, until: int): nat
    requires windowMs >= 1
  {
    if reqs == [] then 0
    else
      var r := reqs[|reqs| - 1];
      Admitted(limit, windowMs, reqs[..|reqs| - 1], key, from, until) +
      if r.key == key && from <= r.now < until && MemoryCount(windowMs, reqs) <= limit then 1 else 0
  }

  lemma {:induction false} AdmittedSplits(limit: nat, windowMs: int, reqs: seq<Request>, key: Key, from: int, mid: int,
      until: int)
    requires windowMs >= 1 && from <= mid <= until
    ensures Admitted(limit, windowMs, reqs, key, from, until) ==
      Admitted(limit, windowMs, reqs, key, from, mid) + Admitted(limit, windowMs, reqs, key, mid, until)
  {
    if reqs != [] { AdmittedSplits(limit, windowMs, reqs[..|reqs| - 1], key, from, mid, until); }
  }

  /** Within one window the first `limit` hits are admitted and no others. */
  lemma {:induction false} AdmittedInWindow(limit: nat, windowMs: int, reqs: seq<Request>, key: Key, from: int,
      until: int, start: int)
    requires windowMs >= 1 && Nondecreasing(reqs) && start == Window(windowMs, start)
    requires start <= from && until <= start + windowMs
    ensures Admitted(limit, windowMs, reqs, key, from, until) <= Hits(windowMs, reqs, key, start)
    ensures Admitted(limit, windowMs, reqs, key, from, until) <= limit
  {
    if reqs != [] {
      var r := reqs[|reqs| - 1];
      AdmittedInWindow(limit, windowMs, reqs[..|reqs| - 1], key, from, until, start);
      if r.key == key && from <= r.now < until {
        SameWindow(windowMs, start, r.now);
        MemoryMeaning(windowMs, reqs, key);
      }
    }
  }

  lemma {:induction false} SameWindow(windowMs: int, start: int, now: int)
    requires windowMs >= 1 && start == Window(windowMs, start) && start <= now < start + windowMs
    ensures Window(windowMs, now) == start
  {
    WindowsApart(windowMs, start, now);
    WindowHolds(windowMs, now);
  }

  /** Any interval of one window's length admits at most twice the limit per key. */
  lemma {:induction false} AtMostTwiceTheLimit(limit: nat, windowMs: int, reqs: seq<Request>, key: Key, from: int)
    requires windowMs >= 1 && Nondecreasing(reqs)
    ensures Admitted(limit, windowMs, reqs, key, from, from + windowMs) <= 2 * limit
  {
    var start := Window(windowMs, from);
    var next := start + windowMs;
    WindowHolds(windowMs, from);
    NextWindow(windowMs, from);
    AdmittedSplits(limit, windowMs, reqs, key, from, next, from + windowMs);
    AdmittedInWindow(limit, windowMs, reqs, key, from, next, start);
    AdmittedInWindow(limit, windowMs, reqs, key, next, from + windowMs, next);
  }

  lemma {:induction false} NextWindow(windowMs: int, now: int)
    requires windowMs >= 1
    ensures var start := Window(windowMs, now);
      Window(windowMs, start) == start && Window(windowMs, start + windowMs) == start + windowMs
  {
    var i := now / windowMs;
    MultipleStartsWindow(windowMs, i);
    MultipleStartsWindow(windowMs, i + 1);
    assert (i + 1) * windowMs == i * windowMs + windowMs;
  }

  lemma {:induction false} MultipleStartsWindow(windowMs: int, i: int)
    requires windowMs >= 1
    ensures Window(windowMs, i * windowMs) == i * windowMs
  {
    var q := i * windowMs / windowMs;
    WindowHolds(windowMs, i * windowMs);
    Scales(q + 1, i, windowMs);
    Scales(i + 1, q, windowMs);
  }

  function Repeated(r: Request, n: nat): (reqs: seq<Request>)
    ensures |reqs| == n && forall i :: 0 <= i < n ==> reqs[i] == r
  {
    seq(n, _ => r)
  }

  /** The first `n <= limit` hits of an empty store are admitted. */
  lemma {:induction false} FirstWindowFills(limit: nat, windowMs: int, key: Key, n: nat, from: int, until: int)
    requires windowMs >= 2 && n <= limit && from <= windowMs - 1 < until
    ensures
      var reqs := Repeated(Request(key, windowMs - 1), n);
      && Memory(windowMs, reqs) == (if n == 0 then map[] else map[key := Counter(0, n)])
      && Admitted(limit, windowMs, reqs, key, from, until) == n
  {
    var reqs := Repeated(Request(key, windowMs - 1), n);
    if n > 0 {
      assert reqs[..n - 1] == Repeated(Request(key, windowMs - 1), n - 1);
      FirstWindowFills(limit, windowMs, key, n - 1, from, until);
      assert Window(windowMs, windowMs - 1) == 0;
    }
  }

  /** And so are the first `m <= limit` hits of the window behind it. */
  lemma {:induction false} NextWindowFills(limit: nat, windowMs: int, key: Key, m: nat)
    requires windowMs >= 2 && 1 <= limit && m <= limit
    ensures
      var reqs := Repeated(Request(key, windowMs - 1), limit) + Repeated(Request(key, windowMs), m);
      && Memory(windowMs, reqs) == map[key := if m == 0 then Counter(0, limit) else Counter(windowMs, m)]
      && Admitted(limit, windowMs, reqs, key, windowMs - 1, 2 * windowMs - 1) == limit + m
  {
    var first := Repeated(Request(key, windowMs - 1), limit);
    var reqs := first + Repeated(Request(key, windowMs), m);
    if m == 0 {
      assert reqs == first;
      FirstWindowFills(limit, windowMs, key, limit, windowMs - 1, 2 * windowMs - 1);
    } else {
      var before := first + Repeated(Request(key, windowMs), m - 1);
      assert reqs == before + [Request(key, windowMs)];
      NextWindowFills(limit, windowMs, key, m - 1);
      OneMoreHit(limit, windowMs, key, before, m);
    }
  }

  lemma {:induction false} OneMoreHit(limit: nat, windowMs: int, key: Key, before: seq<Request>, m: nat)
    requires windowMs >= 2 && 1 <= m <= limit
    requires Memory(windowMs, before) == map[key := if m == 1 then Counter(0, limit) else Counter(windowMs, m - 1)]
    ensures
      var reqs := before + [Request(key, windowMs)];
      && Memory(windowMs, reqs) == map[key := Counter(windowMs, m)]
      && Admitted(limit, windowMs, reqs, key, windowMs - 1, 2 * windowMs - 1) ==
        Admitted(limit, windowMs, before, key, windowMs - 1, 2 * windowMs - 1) + 1
  {
    var reqs := before + [Request(key, windowMs)];
    assert reqs[..|reqs| - 1] == before;
    MultipleStartsWindow(windowMs, 1);
  }

  /** The bound is reached for every limit: a full window just before its end, a full one as the next begins. */
  lemma {:induction false} TwiceTheLimitReached(limit: nat, windowMs: int, key: Key)
    requires limit >= 1 && windowMs >= 2
    ensures
      var reqs := Repeated(Request(key, windowMs - 1), limit) + Repeated(Request(key, windowMs), limit);
      Nondecreasing(reqs) && Admitted(limit, windowMs, reqs, key, windowMs - 1, 2 * windowMs - 1) == 2 * limit
  {
    NextWindowFills(limit, windowMs, key, limit);
  }
}
