/** `RateLimitMiddleware.dispatch` (backend/app/middleware/rate_limit.py): a
    counter per bucket and minute, incremented on every request and expiring 60
    seconds after it was created. */
module RateLimit {

  /** One counted request: the bucket (client address and tenant hint) and the clock in seconds. */
  datatype Arrival = Arrival(bucket: string, at: real)

  /** `int(time.time() // 60)` */
  function Window(at: real): int {
    (at / 60.0).Floor
  }

  /** A window is the 60 seconds from a multiple of 60. */
  lemma {:induction false} WindowSpelled(at: real, w: int)
    ensures Window(at) == w <==> 60.0 * w as real <= at < 60.0 * w as real + 60.0
    ensures WindowEnd(w) == 60.0 * w as real + 60.0
  {
    var floor := (at / 60.0).Floor;
    assert floor as real <= at / 60.0 < floor as real + 1.0;
  }

  /** When the window is over. */
  function WindowEnd(window: int): real {
    60.0 * (window + 1) as real
  }

  function Count(arrivals: seq<Arrival>, bucket: string, window: int): nat {
    if arrivals == [] then 0
    else
      var a := arrivals[|arrivals| - 1];
      Count(arrivals[..|arrivals| - 1], bucket, window)
      + (if a.bucket == bucket && Window(a.at) == window then 1 else 0)
  }

  /** What the limiter answers to arrival `a` after the arrivals `before`. */
  predicate Admits(before: seq<Arrival>, a: Arrival, limit: int) {
    limit <= 0 || Count(before, a.bucket, Window(a.at)) < limit
  }

  /** The requests of a bucket admitted in one window. */
  function AdmittedInWindow(arrivals: seq<Arrival>, limit: int, bucket: string, window: int): nat {
    if arrivals == [] then 0
    else
      var n := |arrivals| - 1;
      AdmittedInWindow(arrivals[..n], limit, bucket, window)
      + (if arrivals[n].bucket == bucket && Window(arrivals[n].at) == window
            && Admits(arrivals[..n], arrivals[n], limit)
         then 1 else 0)
  }

  /** The requests of a bucket admitted at a time in [from, to). */
  function AdmittedBetween(arrivals: seq<Arrival>, limit: int, bucket: string, from: real, to: real): nat {
    if arrivals == [] then 0
    else
      var n := |arrivals| - 1;
      AdmittedBetween(arrivals[..n], limit, bucket, from, to)
      + (if arrivals[n].bucket == bucket && from <= arrivals[n].at < to && Admits(arrivals[..n], arrivals[n], limit)
         then 1 else 0)
  }

  /** In each fixed window a bucket gets exactly min(limit, arrivals) requests
      through, and all of them where there is no limit. */
  lemma {:induction false} WindowAdmitsExactly(arrivals: seq<Arrival>, limit: int, bucket: string, window: int)
    ensures AdmittedInWindow(arrivals, limit, bucket, window)
         == if 0 < limit <= Count(arrivals, bucket, window) then limit else Count(arrivals, bucket, window)
  {
    if arrivals != [] {
      WindowAdmitsExactly(arrivals[..|arrivals| - 1], limit, bucket, window);
    }
  }

  lemma {:induction false} MinuteSpansTwoWindows(from: real, to: real, at: real)
    requires to - from <= 60.0 && from <= at < to
    ensures Window(at) == Window(from) || Window(at) == Window(from) + 1
  {
    assert at / 60.0 - from / 60.0 == (at - from) / 60.0;
  }

  lemma {:induction false} BetweenWithinTwoWindows(arrivals: seq<Arrival>, limit: int, bucket: string, from: real,
                                                   to: real)
    requires to - from <= 60.0
    ensures AdmittedBetween(arrivals, limit, bucket, from, to)
         <= AdmittedInWindow(arrivals, limit, bucket, Window(from))
            + AdmittedInWindow(arrivals, limit, bucket, Window(from) + 1)
  {
    if arrivals != [] {
      var n := |arrivals| - 1;
      BetweenWithinTwoWindows(arrivals[..n], limit, bucket, from, to);
      if from <= arrivals[n].at < to {
        MinuteSpansTwoWindows(from, to, arrivals[n].at);
      }
    }
  }

  /** Any 60 seconds, wherever they start, admit at most twice the limit. */
  lemma {:induction false} AnyMinuteAdmitsAtMostTwice(arrivals: seq<Arrival>, limit: int, bucket: string, from: real,
                                                      to: real)
    requires limit > 0 && to - from <= 60.0
    ensures AdmittedBetween(arrivals, limit, bucket, from, to) <= 2 * limit
  {
    BetweenWithinTwoWindows(arrivals, limit, bucket, from, to);
    WindowAdmitsExactly(arrivals, limit, bucket, Window(from));
    WindowAdmitsExactly(arrivals, limit, bucket, Window(from) + 1);
  }

  /** `n` requests of one bucket, all at the same time. */
  function Burst(bucket: string, at: real, n: nat): seq<Arrival> {
    if n == 0 then [] else Burst(bucket, at, n - 1) + [Arrival(bucket, at)]
  }

  lemma {:induction false} CountConcat(a: seq<Arrival>, b: seq<Arrival>, bucket: string, window: int)
    ensures Count(a + b, bucket, window) == Count(a, bucket, window) + Count(b, bucket, window)
  {
    if b == [] {
      assert a + b == a;
    } else {
      assert (a + b)[..|a + b| - 1] == a + b[..|b| - 1];
      CountConcat(a, b[..|b| - 1], bucket, window);
    }
  }

  lemma {:induction false} BurstCount(bucket: string, at: real, n: nat, window: int)
    ensures Count(Burst(bucket, at, n), bucket, window) == if Window(at) == window then n else 0
  {
    if n > 0 {
      var b := Burst(bucket, at, n);
      assert b[..|b| - 1] == Burst(bucket, at, n - 1);
      BurstCount(bucket, at, n - 1, window);
    }
  }

  lemma {:induction false} BurstUnfolds(before: seq<Arrival>, bucket: string, at: real, n: nat)
    ensures n == 0 ==> before + Burst(bucket, at, n) == before
    ensures n > 0 ==> before + Burst(bucket, at, n) == (before + Burst(bucket, at, n - 1)) + [Arrival(bucket, at)]
  {
  }

  /** A burst of up to `limit` requests in an unused window passes whole. */
  lemma {:induction false} BurstPasses(before: seq<Arrival>, bucket: string, at: real, n: nat, limit: int, from: real,
                                       to: real)
    requires Count(before, bucket, Window(at)) == 0 && n <= limit && from <= at < to
    ensures AdmittedBetween(before + Burst(bucket, at, n), limit, bucket, from, to)
         == AdmittedBetween(before, limit, bucket, from, to) + n
  {
    BurstUnfolds(before, bucket, at, n);
    hide Count, AdmittedBetween, Burst, Window;
    if n > 0 {
      var shorter := before + Burst(bucket, at, n - 1);
      BurstPasses(before, bucket, at, n - 1, limit, from, to);
      CountConcat(before, Burst(bucket, at, n - 1), bucket, Window(at));
      BurstCount(bucket, at, n - 1, Window(at));
      OneMore(shorter, Arrival(bucket, at), limit, bucket, from, to);
    }
  }

  lemma {:induction false} OneMore(before: seq<Arrival>, a: Arrival, limit: int, bucket: string, from: real, to: real)
    ensures AdmittedBetween(before + [a], limit, bucket, from, to)
         == AdmittedBetween(before, limit, bucket, from, to)
            + (if a.bucket == bucket && from <= a.at < to && Admits(before, a, limit) then 1 else 0)
  {
    assert (before + [a])[..|before|] == before;
  }

  /** Twice the limit is really reached: a burst at the end of one window and one
      at the start of the next, half a second apart. */
  lemma {:induction false} TwiceIsReached(limit: nat, bucket: string)
    ensures AdmittedBetween(Burst(bucket, 59.5, limit) + Burst(bucket, 60.0, limit), limit, bucket, 59.5, 60.5) ==
        2 * limit
  {
    var first := Burst(bucket, 59.5, limit);
    assert Window(59.5) == 0 && Window(60.0) == 1;
    assert [] + first == first;
    BurstPasses([], bucket, 59.5, limit, limit, 59.5, 60.5);
    BurstCount(bucket, 59.5, limit, 1);
    BurstPasses(first, bucket, 60.0, limit, limit, 59.5, 60.5);
  }

  // ---------------------------------------------------------------- the counters

  /** A Redis key: its count, and when Redis drops it. */
  datatype Counter = Counter(count: nat, expiresAt: real)

  type CounterKey = (string, int)

  /** A counter holds its window's count and outlives the window; a missing one
      has nothing to count, or its window is over. */
  ghost predicate CountersAgree(counters: map<CounterKey, Counter>, history: seq<Arrival>, now: real) {
    && (forall k :: k in counters ==>
          counters[k].count == Count(history, k.0, k.1) && counters[k].count > 0
          && counters[k].expiresAt >= WindowEnd(k.1))
    && (forall k: CounterKey :: k !in counters ==>
          Count(history, k.0, k.1) == 0 || WindowEnd(k.1) <= now)
  }

  lemma {:induction false} ClockMoves(counters: map<CounterKey, Counter>, history: seq<Arrival>, now: real, later: real)
    requires CountersAgree(counters, history, now) && now <= later
    ensures CountersAgree(counters, history, later)
  {
  }

  /** The increment of one request, made by INCR and, the first time, EXPIRE. */
  function Incremented(counters: map<CounterKey, Counter>, key: CounterKey, now: real): Counter {
    if key in counters then Counter(counters[key].count + 1, counters[key].expiresAt) else Counter(1, now + 60.0)
  }

  lemma {:induction false} IncrementAgrees(counters: map<CounterKey, Counter>, history: seq<Arrival>, a: Arrival)
    requires CountersAgree(counters, history, a.at)
    ensures var key := (a.bucket, Window(a.at));
            var c := Incremented(counters, key, a.at);
            && CountersAgree(counters[key := c], history + [a], a.at)
            && c.count == Count(history, a.bucket, Window(a.at)) + 1
            && (c.count == 1 <==> key !in counters)
  {
    CountPush(history, a);
    InWindow(a.at);
    hide Count, Window, WindowEnd;
  }

  class RateLimiter {
    const limit: int
    var counters: map<CounterKey, Counter>
    ghost var history: seq<Arrival>
    ghost var last: real

    constructor (limit: int, now: real)
      ensures Valid() && this.limit == limit && history == [] && last == now
    {
      this.limit, counters, history, last := limit, map[], [], now;
    }

    ghost predicate Valid()
      reads this
    {
      CountersAgree(counters, history, last)
    }

    /** Redis drops the keys whose time has come. */
    method Expire(now: real)
      requires Valid() && last <= now
      modifies this`counters, this`last
      ensures Valid() && last == now
      ensures forall k: CounterKey :: k in counters <==> k in old(counters) && now < old(counters)[k].expiresAt
      ensures forall k :: k in counters ==> counters[k] == old(counters)[k]
    {
      counters := map k | k in counters && now < counters[k].expiresAt :: counters[k];
      last := now;
    }

    /** One request. With a clock that does not run back, a counter is never
        dropped inside its window, so the answer is the count's. */
    method Dispatch(bucket: string, now: real) returns (admitted: bool)
      requires Valid() && last <= now
      modifies this
      ensures Valid() && last == now
      ensures admitted <==> Admits(old(history), Arrival(bucket, now), limit)
      ensures history == if limit <= 0 then old(history) else old(history) + [Arrival(bucket, now)]
    {
      hide Count, Window, WindowEnd, CountersAgree;
      if limit <= 0 {
        ClockMoves(counters, history, last, now);
        last := now;
        return true;
      }
      ghost var a := Arrival(bucket, now);
      Expire(now);
      IncrementAgrees(counters, history, a);
      var key := (bucket, Window(now));
      var count := (if key in counters then counters[key].count else 0) + 1;
      var expiresAt := if count == 1 then now + 60.0 else counters[key].expiresAt;
      counters := counters[key := Counter(count, expiresAt)];
      history := history + [a];
      return count <= limit;
    }
  }

  lemma {:induction false} CountPush(before: seq<Arrival>, a: Arrival)
    ensures forall k: CounterKey :: Count(before + [a], k.0, k.1)
                                    == Count(before, k.0, k.1) + (if k == (a.bucket, Window(a.at)) then 1 else 0)
  {
    assert (before + [a])[..|before|] == before;
  }

  lemma {:induction false} InWindow(at: real)
    ensures at < WindowEnd(Window(at)) <= at + 60.0
  {
    var q := at / 60.0;
    assert q.Floor as real <= q < (q.Floor + 1) as real;
  }
}
