/** The in-process rate limiter of client/lib/rate-limit.ts, with its table of buckets and the pruning of it. */
module RateLimit {
  import opened Sequences

  const WINDOW_MS: int := 60_000
  const MAX_KEYS: nat := 10_000

  datatype Bucket = Bucket(count: int, resetAt: int)

  type Buckets = map<string, Bucket>

  datatype Request = Request(key: string, limit: int, now: int)

  // ----- one request -----

  function Prune(buckets: Buckets, now: int): Buckets {
    map k | k in buckets && buckets[k].resetAt > now :: buckets[k]
  }

  /** The answer and the new table, without pruning. */
  function Admit(buckets: Buckets, r: Request): (Buckets, bool) {
    if r.key !in buckets || buckets[r.key].resetAt <= r.now then
      (buckets[r.key := Bucket(1, r.now + WINDOW_MS)], true)
    else
      var b := buckets[r.key];
      (buckets[r.key := Bucket(b.count + 1, b.resetAt)], b.count + 1 <= r.limit)
  }

  /** The limiter as it is: a table grown too large is pruned first. */
  function AdmitPruned(buckets: Buckets, r: Request): (Buckets, bool) {
    Admit(if |buckets| > MAX_KEYS then Prune(buckets, r.now) else buckets, r)
  }

  class Limiter {
    var buckets: Buckets

    constructor ()
      ensures buckets == map[]
    {
      buckets := map[];
    }

    method LocalRateLimit(r: Request) returns (allowed: bool)
      modifies this
      ensures (buckets, allowed) == AdmitPruned(old(buckets), r)
    {
      if |buckets| > MAX_KEYS { DeleteExpired(r.now); }
      if r.key !in buckets || buckets[r.key].resetAt <= r.now {
        buckets := buckets[r.key := Bucket(1, r.now + WINDOW_MS)];
        return true;
      }
      var current := buckets[r.key];
      buckets := buckets[r.key := Bucket(current.count + 1, current.resetAt)];
      allowed := current.count + 1 <= r.limit;
    }

    /** for (const [k, v] of buckets) if (v.resetAt <= now) buckets.delete(k) */
    method DeleteExpired(now: int)
      modifies this
      ensures buckets == Prune(old(buckets), now)
    {
      var todo := buckets.Keys;
      while todo != {}
        invariant todo <= buckets.Keys <= old(buckets).Keys
        invariant forall k :: k in buckets ==> buckets[k] == old(buckets)[k]
        invariant forall k :: k in old(buckets) && k !in todo ==> (k in buckets <==> old(buckets)[k].resetAt > now)
        decreases todo
      {
        var k :| k in todo;
        todo := todo - {k};
        if buckets[k].resetAt <= now { buckets := buckets - {k}; }
      }
      assert buckets == Prune(old(buckets), now);
    }
  }

  // ----- runs -----

  ghost predicate Monotone(rs: seq<Request>, since: int) {
    forall i, j :: 0 <= i <= j < |rs| ==> since <= rs[i].now <= rs[j].now
  }

  function Answers(buckets: Buckets, rs: seq<Request>): seq<bool>
    decreases |rs|
  {
    if rs == [] then [] else var (b, ok) := Admit(buckets, rs[0]); [ok] + Answers(b, rs[1..])
  }

  function AnswersPruned(buckets: Buckets, rs: seq<Request>): seq<bool>
    decreases |rs|
  {
    if rs == [] then [] else var (b, ok) := AdmitPruned(buckets, rs[0]); [ok] + AnswersPruned(b, rs[1..])
  }

  /** The tables agree on every bucket that is still open; expired ones may be missing from the first. */
  ghost predicate SameOpen(a: Buckets, b: Buckets, now: int) {
    && (forall k :: k in a ==> k in b && a[k] == b[k])
    && forall k :: k in b && b[k].resetAt > now ==> k in a
  }

  lemma PruneSameOpen(a: Buckets, b: Buckets, now: int, later: int)
    requires SameOpen(a, b, now) && now <= later
    ensures SameOpen(Prune(a, later), b, later) && SameOpen(a, b, later)
  {
  }

  lemma AdmitSameOpen(a: Buckets, b: Buckets, r: Request)
    requires SameOpen(a, b, r.now)
    ensures Admit(a, r).1 == Admit(b, r).1 && SameOpen(Admit(a, r).0, Admit(b, r).0, r.now)
  {
  }

  lemma {:induction false} PruningInvisibleFrom(a: Buckets, b: Buckets, rs: seq<Request>, now: int)
    requires SameOpen(a, b, now) && Monotone(rs, now)
    ensures AnswersPruned(a, rs) == Answers(b, rs)
    decreases |rs|
  {
    if rs != [] {
      var r := rs[0];
      assert now <= r.now;
      PruneSameOpen(a, b, now, r.now);
      var a' := if |a| > MAX_KEYS then Prune(a, r.now) else a;
      AdmitSameOpen(a', b, r);
      PruningInvisibleFrom(Admit(a', r).0, Admit(b, r).0, rs[1..], r.now);
    }
  }

  /** While the clock does not run backwards, pruning never changes an answer. */
  lemma PruningInvisible(rs: seq<Request>, start: int)
    requires Monotone(rs, start)
    ensures AnswersPruned(map[], rs) == Answers(map[], rs)
  {
    PruningInvisibleFrom(map[], map[], rs, start);
  }

  // ----- the answers, window by window -----

  ghost predicate SameBucket(a: Buckets, b: Buckets, key: string) {
    (key in a <==> key in b) && (key in a ==> a[key] == b[key])
  }

  ghost predicate OfKey(rs: seq<Request>, key: string) { forall r :: r in rs ==> r.key == key }

  lemma {:induction false} SameBucketAnswers(a: Buckets, b: Buckets, rs: seq<Request>, key: string)
    requires SameBucket(a, b, key) && OfKey(rs, key)
    ensures Answers(a, rs) == Answers(b, rs)
    decreases |rs|
  {
    if rs != [] {
      assert rs[0] in rs;
      SameBucketAnswers(Admit(a, rs[0]).0, Admit(b, rs[0]).0, rs[1..], key);
    }
  }

  lemma {:induction false} OpenAnswers(buckets: Buckets, rs: seq<Request>, key: string)
    requires key in buckets && OfKey(rs, key) && forall r :: r in rs ==> r.now < buckets[key].resetAt
    ensures |Answers(buckets, rs)| == |rs|
    ensures forall i :: 0 <= i < |rs| ==> (Answers(buckets, rs)[i] <==> buckets[key].count + i + 1 <= rs[i].limit)
    decreases |rs|
  {
    if rs != [] {
      assert rs[0] in rs;
      OpenAnswers(Admit(buckets, rs[0]).0, rs[1..], key);
    }
  }

  /** Within a minute of the first request of a key, number i is let through exactly if i is 1 or at most the limit. */
  lemma FirstWindow(rs: seq<Request>, key: string)
    requires rs != [] && OfKey(rs, key) && forall r :: r in rs ==> r.now < rs[0].now + 60_000
    ensures |Answers(map[], rs)| == |rs|
    ensures forall i :: 0 <= i < |rs| ==> (Answers(map[], rs)[i] <==> i + 1 == 1 || i + 1 <= rs[i].limit)
  {
    assert rs[0] in rs;
    OpenAnswers(Admit(map[], rs[0]).0, rs[1..], key);
  }

  lemma {:induction false} OpenUntil(buckets: Buckets, rs: seq<Request>, key: string, n: nat)
    requires key in buckets && OfKey(rs, key) && n < |rs|
    requires forall i :: 0 <= i < n ==> rs[i].now < buckets[key].resetAt
    requires rs[n].now >= buckets[key].resetAt
    ensures |Answers(buckets, rs)| >= n && Answers(buckets, rs)[n..] == Answers(map[], rs[n..])
    decreases |rs|
  {
    assert rs[0] in rs;
    var next := Admit(buckets, rs[0]).0;
    if n == 0 {
      SameBucketAnswers(next, Admit(map[], rs[0]).0, rs[1..], key);
      assert rs[0..] == rs;
    } else {
      OpenUntil(next, rs[1..], key, n - 1);
      assert rs[1..][n - 1..] == rs[n..];
    }
  }

  /** The first request after that minute is answered as if nothing had come before, and so are all behind it. */
  lemma NextWindow(rs: seq<Request>, key: string, n: nat)
    requires OfKey(rs, key) && 0 < n < |rs|
    requires forall i :: 0 <= i < n ==> rs[i].now < rs[0].now + 60_000
    requires rs[n].now >= rs[0].now + 60_000
    ensures |Answers(map[], rs)| >= n && Answers(map[], rs)[n..] == Answers(map[], rs[n..])
  {
    assert rs[0] in rs;
    OpenUntil(Admit(map[], rs[0]).0, rs[1..], key, n - 1);
    assert rs[1..][n - 1..] == rs[n..];
  }

  // ----- how many requests get through -----

  /** The times at which requests of one key were let through. */
  function Admitted(rs: seq<Request>, answers: seq<bool>, key: string): seq<int> {
    if rs == [] || answers == [] then []
    else (if answers[0] && rs[0].key == key then [rs[0].now] else []) + Admitted(rs[1..], answers[1..], key)
  }

  /** How many of the times fall into [from, to). */
  function Within(times: seq<int>, from: int, to: int): nat {
    if times == [] then 0
    else Within(times[..|times| - 1], from, to) + (if from <= times[|times| - 1] < to then 1 else 0)
  }

  /** How many fall into the interval of the window's length that starts at `a`. */
  function InWindow(times: seq<int>, a: int): nat { Within(times, a, a + WINDOW_MS) }

  lemma WithinSnoc(times: seq<int>, t: int, from: int, to: int)
    ensures Within(times + [t], from, to) == Within(times, from, to) + (if from <= t < to then 1 else 0)
  {
    assert (times + [t])[..|times|] == times;
  }

  lemma {:induction false} WithinSplit(times: seq<int>, from: int, mid: int, to: int)
    requires from <= mid <= to
    ensures Within(times, from, to) == Within(times, from, mid) + Within(times, mid, to)
  {
    if times != [] { WithinSplit(times[..|times| - 1], from, mid, to); }
  }

  /** Nothing happened from `end` on, so a later or longer interval holds no more. */
  lemma {:induction false} WithinCap(times: seq<int>, from: int, to: int, start: int, end: int)
    requires start <= from && forall i :: 0 <= i < |times| ==> times[i] < end
    ensures Within(times, from, to) <= Within(times, start, end)
  {
    if times != [] { WithinCap(times[..|times| - 1], from, to, start, end); }
  }

  lemma {:induction false} WithinNone(times: seq<int>, from: int, to: int)
    requires forall i :: 0 <= i < |times| ==> times[i] < from
    ensures Within(times, from, to) == 0
  {
    if times != [] { WithinNone(times[..|times| - 1], from, to); }
  }

  /**
   * The open bucket of `key` has let through the request that opened it, in all no more than it
   * counted and no more than `most`; what remains in view of the window before it is less than
   * `most`; and no interval of the window's length ever let through twice that.
   */
  ghost predicate Metered(buckets: Buckets, key: string, times: seq<int>, now: int, most: nat) {
    && (forall a :: InWindow(times, a) < 2 * most)
    && (key !in buckets ==> times == [])
    && (key in buckets ==>
          var end, count := buckets[key].resetAt, buckets[key].count;
          var start := end - WINDOW_MS;
          && start <= now && (forall i :: 0 <= i < |times| ==> times[i] < end)
          && Within(times, start, start + 1) >= 1
          && Within(times, start, end) <= count && Within(times, start, end) <= most
          && forall a :: start - WINDOW_MS < a <= start ==> Within(times, a, start) < most)
  }

  /** Behind the request that opened the bucket there are fewer than `most`. */
  lemma AfterOpening(times: seq<int>, start: int, end: int, most: nat, a: int, to: int)
    requires start + 1 <= end && start < a && (forall i :: 0 <= i < |times| ==> times[i] < end)
    requires Within(times, start, start + 1) >= 1 && Within(times, start, end) <= most
    ensures Within(times, a, to) < most
  {
    WithinSplit(times, start, start + 1, end);
    WithinCap(times, a, to, start + 1, end);
  }

  /** A request that opens a new bucket. */
  lemma MeteredOpen(buckets: Buckets, key: string, times: seq<int>, now: int, most: nat)
    requires Metered(buckets, key, times, now, most) && most >= 1
    requires key !in buckets || buckets[key].resetAt <= now
    ensures Metered(buckets[key := Bucket(1, now + WINDOW_MS)], key, times + [now], now, most)
  {
    var times' := times + [now];
    forall a, to | now - WINDOW_MS < a ensures Within(times, a, to) < most {
      if key in buckets {
        AfterOpening(times, buckets[key].resetAt - WINDOW_MS, buckets[key].resetAt, most, a, to);
      }
    }
    forall a ensures InWindow(times', a) < 2 * most {
      assert InWindow(times, a) < 2 * most;
      WithinSnoc(times, now, a, a + WINDOW_MS);
    }
    WithinSnoc(times, now, now, now + WINDOW_MS);
    WithinSnoc(times, now, now, now + 1);
    WithinNone(times, now, now + WINDOW_MS);
    WithinNone(times, now, now + 1);
    forall a | now - WINDOW_MS < a <= now ensures Within(times', a, now) < most { WithinSnoc(times, now, a, now); }
  }

  /** A request that the open bucket lets through. */
  lemma MeteredCount(buckets: Buckets, key: string, times: seq<int>, now: int, most: nat)
    requires Metered(buckets, key, times, now, most)
    requires key in buckets && buckets[key].resetAt > now && buckets[key].count + 1 <= most
    ensures Metered(buckets[key := Bucket(buckets[key].count + 1, buckets[key].resetAt)], key, times + [now], now, most)
  {
    var times', end := times + [now], buckets[key].resetAt;
    var start := end - WINDOW_MS;
    WithinSnoc(times, now, start, end);
    WithinSnoc(times, now, start, start + 1);
    forall a | start - WINDOW_MS < a <= start ensures Within(times', a, start) < most {
      WithinSnoc(times, now, a, start);
    }
    forall a ensures InWindow(times', a) < 2 * most {
      assert InWindow(times, a) < 2 * most;
      if a >= start {
        WithinCap(times', a, a + WINDOW_MS, start, end);
      } else if a + WINDOW_MS > now {
        WithinSplit(times', a, start, a + WINDOW_MS);
        WithinCap(times', start, a + WINDOW_MS, start, end);
      } else {
        WithinSnoc(times, now, a, a + WINDOW_MS);
      }
    }
  }

  lemma MeteredStep(buckets: Buckets, key: string, times: seq<int>, since: int, r: Request, most: nat)
    requires Metered(buckets, key, times, since, most) && since <= r.now && most >= 1
    requires r.key == key ==> r.limit <= most
    ensures Metered(Admit(buckets, r).0, key,
                    if Admit(buckets, r).1 && r.key == key then times + [r.now] else times, r.now, most)
  {
    assert Metered(buckets, key, times, r.now, most);
    if r.key == key {
      if key !in buckets || buckets[key].resetAt <= r.now {
        MeteredOpen(buckets, key, times, r.now, most);
      } else if buckets[key].count + 1 <= r.limit {
        MeteredCount(buckets, key, times, r.now, most);
      }
    }
  }

  /** The times admitted, request by request. */
  function Passed(buckets: Buckets, rs: seq<Request>, key: string): seq<int>
    decreases |rs|
  {
    if rs == [] then []
    else
      var (b, ok) := Admit(buckets, rs[0]);
      (if ok && rs[0].key == key then [rs[0].now] else []) + Passed(b, rs[1..], key)
  }

  lemma {:induction false} PassedIs(buckets: Buckets, rs: seq<Request>, key: string)
    ensures Passed(buckets, rs, key) == Admitted(rs, Answers(buckets, rs), key)
    decreases |rs|
  {
    if rs != [] {
      var (b, ok) := Admit(buckets, rs[0]);
      PassedIs(b, rs[1..], key);
      assert ([ok] + Answers(b, rs[1..]))[1..] == Answers(b, rs[1..]);
    }
  }

  lemma {:induction false} OwnRequests(a: Buckets, b: Buckets, rs: seq<Request>, key: string)
    requires SameBucket(a, b, key)
    ensures Passed(a, rs, key) == Passed(b, Filter((r: Request) => r.key == key, rs), key)
    decreases |rs|
  {
    if rs != [] {
      var own := Filter((r: Request) => r.key == key, rs);
      var rest := Filter((r: Request) => r.key == key, rs[1..]);
      if rs[0].key == key {
        assert own == [rs[0]] + rest && own[1..] == rest;
        OwnRequests(Admit(a, rs[0]).0, Admit(b, rs[0]).0, rs[1..], key);
      } else {
        assert own == rest;
        OwnRequests(Admit(a, rs[0]).0, b, rs[1..], key);
        assert [] + Passed(Admit(a, rs[0]).0, rs[1..], key) == Passed(Admit(a, rs[0]).0, rs[1..], key);
      }
    }
  }

  /** What other keys do makes no difference to a key. */
  lemma KeysIndependent(rs: seq<Request>, key: string)
    ensures var own := Filter((r: Request) => r.key == key, rs);
      Admitted(rs, Answers(map[], rs), key) == Admitted(own, Answers(map[], own), key)
  {
    OwnRequests(map[], map[], rs, key);
    PassedIs(map[], rs, key);
    PassedIs(map[], Filter((r: Request) => r.key == key, rs), key);
  }

  lemma PassedStep(buckets: Buckets, rs: seq<Request>, key: string, times: seq<int>)
    requires rs != []
    ensures var (b, ok) := Admit(buckets, rs[0]);
      times + Passed(buckets, rs, key)
      == (if ok && rs[0].key == key then times + [rs[0].now] else times) + Passed(b, rs[1..], key)
  {
    var (b, ok) := Admit(buckets, rs[0]);
    var now, later := rs[0].now, Passed(b, rs[1..], key);
    assert times + ([now] + later) == (times + [now]) + later;
    assert times + ([] + later) == times + later;
  }

  lemma {:induction false} MeteredRun(
    buckets: Buckets, key: string, times: seq<int>, since: int, rs: seq<Request>, most: nat, a: int)
    requires Metered(buckets, key, times, since, most) && Monotone(rs, since) && most >= 1
    requires forall r :: r in rs && r.key == key ==> r.limit <= most
    ensures InWindow(times + Passed(buckets, rs, key), a) < 2 * most
    decreases |rs|
  {
    if rs == [] {
      assert times + [] == times;
    } else {
      var r := rs[0];
      var (b, ok) := Admit(buckets, r);
      assert since <= r.now && r in rs;
      MeteredStep(buckets, key, times, since, r, most);
      MeteredRun(b, key, if ok && r.key == key then times + [r.now] else times, r.now, rs[1..], most, a);
      PassedStep(buckets, rs, key, times);
    }
  }

  /**
   * With limits of at most `most` for a key (and a limit of 0 still lets one through), any interval of the
   * window's length lets through fewer than twice that many of its requests.
   */
  lemma SlidingWindowBound(rs: seq<Request>, start: int, key: string, most: nat, a: int)
    requires Monotone(rs, start) && most >= 1
    requires forall r :: r in rs && r.key == key ==> r.limit <= most
    ensures InWindow(Admitted(rs, AnswersPruned(map[], rs), key), a) < 2 * most
  {
    PruningInvisible(rs, start);
    MeteredRun(map[], key, [], start, rs, most, a);
    PassedIs(map[], rs, key);
    assert [] + Passed(map[], rs, key) == Passed(map[], rs, key);
  }

  // ----- the bound is attained -----

  function Times(t: int, n: nat): seq<int> { seq(n, _ => t) }

  /** n requests at the same time. */
  function Burst(key: string, limit: int, now: int, n: nat): seq<Request> {
    if n == 0 then [] else [Request(key, limit, now)] + Burst(key, limit, now, n - 1)
  }

  /** One request opens the window, `most - 1` come just before it closes and `most` just after. */
  function Busiest(key: string, most: nat): seq<Request>
    requires most >= 1
  {
    [Request(key, most, 0)] + Burst(key, most, WINDOW_MS - 1, most - 1) + Burst(key, most, WINDOW_MS, most)
  }

  lemma BurstHead(buckets: Buckets, next: Buckets, key: string, limit: int, now: int, n: nat, rest: seq<Request>)
    requires n > 0 && Admit(buckets, Request(key, limit, now)) == (next, true)
    ensures Passed(buckets, Burst(key, limit, now, n) + rest, key)
         == [now] + Passed(next, Burst(key, limit, now, n - 1) + rest, key)
  {
    var rs := Burst(key, limit, now, n) + rest;
    assert rs[0] == Request(key, limit, now) && rs[1..] == Burst(key, limit, now, n - 1) + rest;
  }

  /** A bucket that has room for n more lets n more through, whatever else is to come. */
  lemma {:induction false} BurstPassed(
    buckets: Buckets, full: Buckets, key: string, limit: int, now: int, n: nat, rest: seq<Request>)
    requires key in buckets && buckets[key].resetAt > now && buckets[key].count + n <= limit
    requires full == buckets[key := Bucket(buckets[key].count + n, buckets[key].resetAt)]
    ensures Passed(buckets, Burst(key, limit, now, n) + rest, key) == Times(now, n) + Passed(full, rest, key)
  {
    var b := buckets[key];
    if n == 0 {
      assert Burst(key, limit, now, n) + rest == rest && full == buckets;
    } else {
      var next := buckets[key := Bucket(b.count + 1, b.resetAt)];
      BurstHead(buckets, next, key, limit, now, n, rest);
      BurstPassed(next, full, key, limit, now, n - 1, rest);
      TimesCons(now, n, Passed(full, rest, key));
    }
  }

  lemma TimesCons(now: int, n: nat, times: seq<int>)
    requires n > 0
    ensures Times(now, n) + times == [now] + (Times(now, n - 1) + times)
  {
  }

  /** The first request of a burst opens a new bucket, and the whole burst fits. */
  lemma BurstOpens(buckets: Buckets, full: Buckets, key: string, limit: int, now: int, n: nat, rest: seq<Request>)
    requires 1 <= n <= limit && (key !in buckets || buckets[key].resetAt <= now)
    requires full == buckets[key := Bucket(n, now + WINDOW_MS)]
    ensures Passed(buckets, Burst(key, limit, now, n) + rest, key) == Times(now, n) + Passed(full, rest, key)
  {
    var first := buckets[key := Bucket(1, now + WINDOW_MS)];
    BurstHead(buckets, first, key, limit, now, n, rest);
    BurstPassed(first, full, key, limit, now, n - 1, rest);
    TimesCons(now, n, Passed(full, rest, key));
  }

  lemma BusiestPassed(key: string, most: nat)
    requires most >= 1
    ensures Passed(map[], Busiest(key, most), key) ==
      Times(0, 1) + (Times(WINDOW_MS - 1, most - 1) + Times(WINDOW_MS, most))
  {
    var late := Burst(key, most, WINDOW_MS, most) + [];
    var middle := Burst(key, most, WINDOW_MS - 1, most - 1) + late;
    assert Burst(key, most, 0, 1) == [Request(key, most, 0)] + Burst(key, most, 0, 0);
    assert Busiest(key, most) == Burst(key, most, 0, 1) + middle;
    var one := map[key := Bucket(1, WINDOW_MS)];
    var full := map[key := Bucket(most, WINDOW_MS)];
    BurstOpens(map[], one, key, most, 0, 1, middle);
    BurstPassed(one, full, key, most, WINDOW_MS - 1, most - 1, late);
    BurstOpens(full, map[key := Bucket(most, 2 * WINDOW_MS)], key, most, WINDOW_MS, most, []);
    assert Times(WINDOW_MS, most) + [] == Times(WINDOW_MS, most);
  }

  lemma {:induction false} WithinAppend(times: seq<int>, t: int, n: nat, from: int, to: int)
    requires from <= t < to
    ensures Within(times + Times(t, n), from, to) == Within(times, from, to) + n
  {
    if n == 0 {
      assert times + Times(t, 0) == times;
    } else {
      WithinAppend(times, t, n - 1, from, to);
      assert times + Times(t, n) == (times + Times(t, n - 1)) + [t];
      WithinSnoc(times + Times(t, n - 1), t, from, to);
    }
  }

  /** For every limit there are requests of which one less than twice the limit get through within two milliseconds. */
  lemma BoundAttained(key: string, most: nat)
    requires most >= 1
    ensures Monotone(Busiest(key, most), 0) && forall r :: r in Busiest(key, most) ==> r.limit == most
    ensures InWindow(Admitted(Busiest(key, most), AnswersPruned(map[], Busiest(key, most)), key), WINDOW_MS - 1) ==
      2 * most - 1
  {
    BusiestMonotone(key, most);
    PruningInvisible(Busiest(key, most), 0);
    PassedIs(map[], Busiest(key, most), key);
    BusiestPassed(key, most);
    BusiestWindow(most);
  }

  lemma BusiestWindow(most: nat)
    requires most >= 1
    ensures InWindow(Times(0, 1) + (Times(WINDOW_MS - 1, most - 1) + Times(WINDOW_MS, most)), WINDOW_MS - 1) ==
      2 * most - 1
  {
    var a := WINDOW_MS - 1;
    var early := Times(0, 1) + Times(a, most - 1);
    assert Times(0, 1) + (Times(a, most - 1) + Times(WINDOW_MS, most)) == early + Times(WINDOW_MS, most);
    WithinAppend(Times(0, 1), a, most - 1, a, a + WINDOW_MS);
    WithinAppend(early, WINDOW_MS, most, a, a + WINDOW_MS);
    WithinNone(Times(0, 1), a, a + WINDOW_MS);
  }

  lemma BusiestMonotone(key: string, most: nat)
    requires most >= 1
    ensures Monotone(Busiest(key, most), 0) && forall r :: r in Busiest(key, most) ==> r.limit == most
  {
    BurstUniform(key, most, WINDOW_MS - 1, most - 1);
    BurstUniform(key, most, WINDOW_MS, most);
    assert forall i :: 0 <= i < 2 * most ==>
      Busiest(key, most)[i] == Request(key, most, if i == 0 then 0 else if i < most then WINDOW_MS - 1 else WINDOW_MS);
  }

  lemma {:induction false} BurstUniform(key: string, limit: int, now: int, n: nat)
    ensures |Burst(key, limit, now, n)| == n
    ensures forall i :: 0 <= i < n ==> Burst(key, limit, now, n)[i] == Request(key, limit, now)
  {
    if n > 0 { BurstUniform(key, limit, now, n - 1); }
  }
}
