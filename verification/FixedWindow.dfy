// The shared limiter: one counter row per key and minute, incremented by a single upsert.
//
// Replicas read their own clocks, so the readings of a run are in no particular order unless a lemma
// says otherwise. Times are integers in nanoseconds.

module FixedWindows {
  import opened RateLimits
  import opened Units

  const WINDOW_SIZE := MINUTE

  type Counters = map<(string, int), nat>

  function WindowOf(now: int): int {
    now - now % WINDOW_SIZE
  }

  function Hits(c: Counters, key: string, window: int): nat {
    if (key, window) in c then c[(key, window)] else 0
  }

  /** The upsert: insert a row with one hit, or add one to the row that is there. */
  function Increment(c: Counters, key: string, window: int): Counters {
    c[(key, window) := Hits(c, key, window) + 1]
  }

  /** The verdict on a request that found `hits` in its window, itself included; `wall` is read when refusing. */
  function Verdict(hits: nat, limit: int, window: int, wall: int): Result {
    var reset := window + WINDOW_SIZE;
    if hits > limit then
      Result(false, limit, 0, reset / SECOND, if reset - wall < SECOND then 1 else (reset - wall) / SECOND)
    else
      Result(true, limit, limit - hits, reset / SECOND, 0)
  }

  function Evaluate(c: Counters, key: string, limitPerMinute: int, now: int, wall: int): (Counters, Result) {
    var window := WindowOf(now);
    var next := Increment(c, key, window);
    (next, Verdict(Hits(next, key, window), EffectiveLimit(limitPerMinute), window, wall))
  }

  function Cleanup(c: Counters, now: int): Counters {
    map row | row in c && row.1 >= now - 2 * WINDOW_SIZE :: c[row]
  }

  /** The table that every replica shares; each method is one SQL statement. */
  class CounterTable {
    var rows: map<(string, int), nat>

    constructor ()
      ensures rows == map[]
    {
      rows := map[];
    }

    method Hit(key: string, window: int) returns (hits: nat)
      modifies this
      ensures rows == Increment(old(rows), key, window) && hits == Hits(rows, key, window)
    {
      if (key, window) in rows {
        rows := rows[(key, window) := rows[(key, window)] + 1];
      } else {
        rows := rows[(key, window) := 1];
      }
      hits := rows[(key, window)];
    }

    method DeleteBefore(cutoff: int) returns (deleted: int)
      modifies this
      ensures rows == map row | row in old(rows) && row.1 >= cutoff :: old(rows)[row]
      ensures deleted == |old(rows)| - |rows|
    {
      deleted := |rows|;
      rows := map row | row in rows && row.1 >= cutoff :: rows[row];
      deleted := deleted - |rows|;
    }
  }

  class PostgresLimiter {
    const db: CounterTable

    constructor (db: CounterTable)
      ensures this.db == db
    {
      this.db := db;
    }

    method Allow(key: string, limitPerMinute: int, now: int, wall: int) returns (result: Result)
      modifies db
      ensures (db.rows, result) == Evaluate(old(db.rows), key, limitPerMinute, now, wall)
    {
      var limit := if limitPerMinute <= 0 then 10 else limitPerMinute;
      var windowStart := now - now % WINDOW_SIZE;
      var resetTime := windowStart + WINDOW_SIZE;
      var hits := db.Hit(key, windowStart);
      var remaining := limit - hits;
      if remaining < 0 {
        remaining := 0;
      }
      if hits > limit {
        var retryAfter := if resetTime < wall then 0 else (resetTime - wall) / SECOND;
        if retryAfter < 1 {
          retryAfter := 1;
        }
        return Result(false, limit, 0, resetTime / SECOND, retryAfter);
      }
      return Result(true, limit, remaining, resetTime / SECOND, 0);
    }

    method CleanupStale(now: int) returns (deleted: int)
      modifies db
      ensures db.rows == Cleanup(old(db.rows), now) && deleted == |old(db.rows)| - |db.rows|
    {
      deleted := db.DeleteBefore(now - 2 * WINDOW_SIZE);
    }
  }

  // ---- Runs of any number of replicas ----

  datatype Event =
    | Call(key: string, limitPerMinute: int, now: int, wall: int)
    | Sweep(now: int)

  function Step(c: Counters, e: Event): Counters {
    match e
    case Call(key, limit, now, wall) => Evaluate(c, key, limit, now, wall).0
    case Sweep(now) => Cleanup(c, now)
  }

  predicate Admits(c: Counters, e: Event) {
    e.Call? && Evaluate(c, e.key, e.limitPerMinute, e.now, e.wall).1.allowed
  }

  /** A call on `key` in one of the windows from `lo` up to but excluding `hi`. */
  predicate Lands(e: Event, key: string, lo: int, hi: int) {
    e.Call? && e.key == key && lo <= WindowOf(e.now) < hi
  }

  function Arrivals(es: seq<Event>, key: string, lo: int, hi: int): nat {
    if es == [] then 0 else (if Lands(es[0], key, lo, hi) then 1 else 0) + Arrivals(es[1..], key, lo, hi)
  }

  function Admissions(c: Counters, es: seq<Event>, key: string, lo: int, hi: int): nat
    decreases |es|
  {
    if es == [] then 0
    else
      (if Lands(es[0], key, lo, hi) && Admits(c, es[0]) then 1 else 0)
      + Admissions(Step(c, es[0]), es[1..], key, lo, hi)
  }

  predicate OnlyCalls(es: seq<Event>) {
    forall i | 0 <= i < |es| :: es[i].Call?
  }

  predicate ConstantLimit(es: seq<Event>, key: string, limit: int) {
    forall i | 0 <= i < |es| && es[i].Call? && es[i].key == key :: EffectiveLimit(es[i].limitPerMinute) == limit
  }

  function Min(x: int, y: int): int {
    if x <= y then x else y
  }

  lemma WindowsAreAligned(now: int, window: int)
    requires window % WINDOW_SIZE == 0
    ensures window <= WindowOf(now) < window + WINDOW_SIZE <==> WindowOf(now) == window
    ensures WindowOf(now) % WINDOW_SIZE == 0 && WindowOf(now) <= now < WindowOf(now) + WINDOW_SIZE
  {
    var q, r := window / WINDOW_SIZE, now / WINDOW_SIZE;
    assert window == q * WINDOW_SIZE && WindowOf(now) == r * WINDOW_SIZE;
  }

  lemma {:induction false} WindowFillsUp(c: Counters, es: seq<Event>, key: string, window: int, limit: int)
    requires OnlyCalls(es) && ConstantLimit(es, key, limit) && limit >= 1 && window % WINDOW_SIZE == 0
    ensures
      var before, arrived := Hits(c, key, window), Arrivals(es, key, window, window + WINDOW_SIZE);
      Admissions(c, es, key, window, window + WINDOW_SIZE) == Min(before + arrived, limit) - Min(before, limit)
    decreases |es|
  {
    if es != [] {
      WindowsAreAligned(es[0].now, window);
      WindowFillsUp(Step(c, es[0]), es[1..], key, window, limit);
    }
  }

  lemma {:induction false} AdmissionsSplit(c: Counters, es: seq<Event>, key: string, lo: int, mid: int, hi: int)
    requires lo <= mid <= hi
    ensures Admissions(c, es, key, lo, hi) == Admissions(c, es, key, lo, mid) + Admissions(c, es, key, mid, hi)
    decreases |es|
  {
    if es != [] {
      AdmissionsSplit(Step(c, es[0]), es[1..], key, lo, mid, hi);
    }
  }

  lemma OneWindowAdmitsAtMost(c: Counters, es: seq<Event>, key: string, window: int, limit: int)
    requires OnlyCalls(es) && ConstantLimit(es, key, limit) && limit >= 1 && window % WINDOW_SIZE == 0
    ensures Admissions(c, es, key, window, window + WINDOW_SIZE) <= limit
  {
    WindowFillsUp(c, es, key, window, limit);
  }

  lemma {:induction false} WindowsAdmitAtMost(c: Counters, es: seq<Event>, key: string, lo: int, n: nat, limit: int)
    requires OnlyCalls(es) && ConstantLimit(es, key, limit) && limit >= 1 && lo % WINDOW_SIZE == 0
    ensures Admissions(c, es, key, lo, lo + n * WINDOW_SIZE) <= n * limit
    decreases n
  {
    if n == 0 {
      NothingLands(c, es, key, lo);
    } else {
      var mid := lo + (n - 1) * WINDOW_SIZE;
      WindowsAdmitAtMost(c, es, key, lo, n - 1, limit);
      OneWindowAdmitsAtMost(c, es, key, mid, limit);
      AdmissionsSplit(c, es, key, lo, mid, mid + WINDOW_SIZE);
      assert n * limit == (n - 1) * limit + limit;
    }
  }

  lemma {:induction false} NothingLands(c: Counters, es: seq<Event>, key: string, lo: int)
    ensures Admissions(c, es, key, lo, lo) == 0
    decreases |es|
  {
    if es != [] {
      NothingLands(Step(c, es[0]), es[1..], key, lo);
    }
  }

  predicate Within(es: seq<Event>, from: int, to: int) {
    forall i | 0 <= i < |es| :: from <= es[i].now <= to
  }

  function AdmissionsOn(c: Counters, es: seq<Event>, key: string): nat
    decreases |es|
  {
    if es == [] then 0
    else (if es[0].Call? && es[0].key == key && Admits(c, es[0]) then 1 else 0) + AdmissionsOn(Step(c, es[0]), es[1..], key)
  }

  lemma {:induction false} AllLand(c: Counters, es: seq<Event>, key: string, lo: int, hi: int)
    requires forall i | 0 <= i < |es| :: lo <= WindowOf(es[i].now) < hi
    ensures AdmissionsOn(c, es, key) == Admissions(c, es, key, lo, hi)
    decreases |es|
  {
    if es != [] {
      AllLand(Step(c, es[0]), es[1..], key, lo, hi);
    }
  }

  lemma WindowsAreOrdered(from: int, now: int)
    requires from <= now
    ensures WindowOf(from) <= WindowOf(now)
  {
    var q, r := from / WINDOW_SIZE, now / WINDOW_SIZE;
    assert WindowOf(from) == q * WINDOW_SIZE && WindowOf(now) == r * WINDOW_SIZE;
  }

  /** An interval of `n` window lengths meets at most `n + 1` windows. */
  lemma IntervalMeetsWindows(es: seq<Event>, from: int, n: nat)
    requires Within(es, from, from + n * WINDOW_SIZE)
    ensures WindowOf(from) % WINDOW_SIZE == 0
    ensures forall i | 0 <= i < |es| :: WindowOf(from) <= WindowOf(es[i].now) < WindowOf(from) + (n + 1) * WINDOW_SIZE
  {
    var lo := WindowOf(from);
    WindowsAreAligned(from, 0);
    forall i | 0 <= i < |es|
      ensures lo <= WindowOf(es[i].now) < lo + (n + 1) * WINDOW_SIZE
    {
      WindowsAreOrdered(from, es[i].now);
      WindowsAreAligned(es[i].now, 0);
      assert es[i].now < lo + (n + 1) * WINDOW_SIZE;
    }
  }

  // ---- Cleanup ----

  function Results(c: Counters, es: seq<Event>): seq<Result>
    decreases |es|
  {
    if es == [] then []
    else
      (if es[0].Call? then [Evaluate(c, es[0].key, es[0].limitPerMinute, es[0].now, es[0].wall).1] else [])
      + Results(Step(c, es[0]), es[1..])
  }

  function WithoutSweeps(es: seq<Event>): seq<Event> {
    if es == [] then []
    else (if es[0].Call? then [es[0]] else []) + WithoutSweeps(es[1..])
  }

  /** How far behind the latest reading a call can be and still be in a window that no sweep has deleted. */
  const TOLERANCE := WINDOW_SIZE + 1

  function Later(x: int, y: int): int {
    if x >= y then x else y
  }

  /** No replica reads a clock more than `skew` behind the latest reading so far, `latest`. */
  predicate Agreeing(skew: int, latest: int, es: seq<Event>)
    decreases |es|
  {
    es == [] || (latest - skew <= es[0].now && Agreeing(skew, Later(es[0].now, latest), es[1..]))
  }

  /** `swept` lacks only rows of windows that no replica can still be in. */
  ghost predicate Hidden(swept: Counters, full: Counters, latest: int) {
    && (forall row | row in swept :: row in full && swept[row] == full[row])
    && (forall row | row in full && row !in swept :: row.1 < latest - 2 * WINDOW_SIZE)
  }

  lemma CallStaysHidden(swept: Counters, full: Counters, e: Event, latest: int)
    requires Hidden(swept, full, latest) && e.Call? && latest - TOLERANCE <= e.now
    ensures Hidden(Step(swept, e), Step(full, e), Later(e.now, latest))
    ensures Evaluate(swept, e.key, e.limitPerMinute, e.now, e.wall).1 == Evaluate(full, e.key, e.limitPerMinute, e.now, e.wall).1
  {
    assert WindowOf(e.now) >= latest - 2 * WINDOW_SIZE;
  }

  lemma SweepStaysHidden(swept: Counters, full: Counters, now: int, latest: int)
    requires Hidden(swept, full, latest)
    ensures Hidden(Step(swept, Sweep(now)), full, Later(now, latest))
  {
  }

  lemma {:induction false} HiddenRunsAgree(swept: Counters, full: Counters, es: seq<Event>, skew: int, latest: int)
    requires Hidden(swept, full, latest) && Agreeing(skew, latest, es) && skew <= TOLERANCE
    ensures Results(swept, es) == Results(full, WithoutSweeps(es))
    decreases |es|
  {
    if es != [] {
      var e := es[0];
      var latest' := Later(e.now, latest);
      if e.Call? {
        assert WithoutSweeps(es)[1..] == WithoutSweeps(es[1..]);
        CallStaysHidden(swept, full, e, latest);
        HiddenRunsAgree(Step(swept, e), Step(full, e), es[1..], skew, latest');
      } else {
        assert WithoutSweeps(es) == WithoutSweeps(es[1..]);
        SweepStaysHidden(swept, full, e.now, latest);
        HiddenRunsAgree(Step(swept, e), full, es[1..], skew, latest');
      }
    }
  }

  /** While no clock is more than a window and a tick behind, deleting elapsed windows never changes an answer. */
  lemma CleanupIsInvisible(c: Counters, es: seq<Event>, skew: int, latest: int)
    requires Agreeing(skew, latest, es) && skew <= TOLERANCE
    ensures Results(c, es) == Results(c, WithoutSweeps(es))
  {
    HiddenRunsAgree(c, c, es, skew, latest);
  }

  predicate SweepsHide(c: Counters, es: seq<Event>) {
    Results(c, es) == Results(c, WithoutSweeps(es))
  }

  ghost predicate SweepsInvisible(skew: int) {
    forall c, es, latest | Agreeing(skew, latest, es) :: SweepsHide(c, es)
  }

  /** A window fills up, a sweep two windows and a tick after its beginning deletes its row, and it admits again. */
  function LateCall(): seq<Event> {
    var late := Call("k", 1, 2 * WINDOW_SIZE - 1, 0);
    [late, Sweep(3 * WINDOW_SIZE + 1), late]
  }

  lemma LateCallShows()
    ensures Agreeing(TOLERANCE + 1, 0, LateCall()) && !SweepsHide(map[], LateCall())
  {
    var late, sweep := Call("k", 1, 2 * WINDOW_SIZE - 1, 0), Sweep(3 * WINDOW_SIZE + 1);
    var full := map[("k", WINDOW_SIZE) := 1];
    assert LateCall()[1..] == [sweep, late] && [sweep, late][1..] == [late] && [late][1..] == [] && [late, late][1..] == [late];
    assert Agreeing(TOLERANCE + 1, sweep.now, [late]) && Agreeing(TOLERANCE + 1, late.now, [sweep, late]);
    assert Step(map[], late) == full && Step(full, sweep) == map[];
    assert WithoutSweeps([late]) == [late] && WithoutSweeps([sweep, late]) == [late] && WithoutSweeps(LateCall()) == [late, late];
    assert Results(map[], [late])[0].allowed && !Results(full, [late])[0].allowed;
    assert Results(full, [sweep, late]) == Results(map[], [late]);
    assert Results(map[], LateCall())[1] == Results(map[], [late])[0];
    assert Results(map[], [late, late])[1] == Results(full, [late])[0];
  }

  lemma {:induction false} LooserStillAgrees(skew: int, looser: int, latest: int, es: seq<Event>)
    requires Agreeing(skew, latest, es) && skew <= looser
    ensures Agreeing(looser, latest, es)
    decreases |es|
  {
    if es != [] {
      LooserStillAgrees(skew, looser, Later(es[0].now, latest), es[1..]);
    }
  }

  /** A window and a tick is the exact threshold: with clocks any further apart a sweep can change an answer. */
  lemma CleanupThreshold(skew: int)
    ensures SweepsInvisible(skew) <==> skew <= TOLERANCE
  {
    if skew <= TOLERANCE {
      forall c, es, latest | Agreeing(skew, latest, es) ensures SweepsHide(c, es) {
        CleanupIsInvisible(c, es, skew, latest);
      }
    } else {
      LateCallShows();
      LooserStillAgrees(TOLERANCE + 1, skew, 0, LateCall());
    }
  }

  // ---- What is admitted ----

  /** The replicas only make calls, or they sweep as well and no clock is more than a window and a tick behind. */
  predicate Orderly(latest: int, es: seq<Event>) {
    OnlyCalls(es) || Agreeing(TOLERANCE, latest, es)
  }

  lemma {:induction false} CallsOfRun(es: seq<Event>, key: string, limit: int, lo: int, hi: int)
    ensures
      var calls := WithoutSweeps(es);
      && OnlyCalls(calls)
      && (ConstantLimit(es, key, limit) ==> ConstantLimit(calls, key, limit))
      && Arrivals(calls, key, lo, hi) == Arrivals(es, key, lo, hi)
    decreases |es|
  {
    if es != [] {
      var rest := es[1..];
      CallsOfRun(rest, key, limit, lo, hi);
      assert forall i | 0 <= i < |rest| :: rest[i] == es[i + 1];
      if es[0].Call? {
        assert WithoutSweeps(es)[1..] == WithoutSweeps(rest);
      } else {
        assert WithoutSweeps(es) == WithoutSweeps(rest);
      }
    }
  }

  lemma {:induction false} SweepsDoNotAdmit(
      swept: Counters, full: Counters, es: seq<Event>, key: string, lo: int, hi: int, latest: int)
    requires Hidden(swept, full, latest) && Agreeing(TOLERANCE, latest, es)
    ensures Admissions(swept, es, key, lo, hi) == Admissions(full, WithoutSweeps(es), key, lo, hi)
    decreases |es|
  {
    if es != [] {
      var e, rest := es[0], es[1..];
      var latest' := Later(e.now, latest);
      if e.Call? {
        assert WithoutSweeps(es)[0] == e && WithoutSweeps(es)[1..] == WithoutSweeps(rest);
        CallStaysHidden(swept, full, e, latest);
        SweepsDoNotAdmit(Step(swept, e), Step(full, e), rest, key, lo, hi, latest');
      } else {
        assert WithoutSweeps(es) == WithoutSweeps(rest);
        SweepStaysHidden(swept, full, e.now, latest);
        SweepsDoNotAdmit(Step(swept, e), full, rest, key, lo, hi, latest');
      }
    }
  }

  /**
   * Whatever the interleaving of the replicas and the order of their clock readings, a window that
   * starts empty admits exactly the smaller of its arrivals and the limit.
   */
  lemma WindowAdmitsExactly(c: Counters, es: seq<Event>, key: string, window: int, limit: int, latest: int)
    requires Orderly(latest, es) && ConstantLimit(es, key, limit) && limit >= 1
    requires window % WINDOW_SIZE == 0 && (key, window) !in c
    ensures Admissions(c, es, key, window, window + WINDOW_SIZE)
         == Min(Arrivals(es, key, window, window + WINDOW_SIZE), limit)
  {
    if OnlyCalls(es) {
      WindowFillsUp(c, es, key, window, limit);
    } else {
      CallsOfRun(es, key, limit, window, window + WINDOW_SIZE);
      SweepsDoNotAdmit(c, c, es, key, window, window + WINDOW_SIZE, latest);
      WindowFillsUp(c, WithoutSweeps(es), key, window, limit);
    }
  }

  /** An interval of `n` window lengths admits at most `(n + 1) * limit`, from any table. */
  lemma IntervalBound(c: Counters, es: seq<Event>, key: string, from: int, n: nat, limit: int, latest: int)
    requires Orderly(latest, es) && ConstantLimit(es, key, limit) && limit >= 1
    requires Within(es, from, from + n * WINDOW_SIZE)
    ensures AdmissionsOn(c, es, key) <= (n + 1) * limit
  {
    var lo, hi := WindowOf(from), WindowOf(from) + (n + 1) * WINDOW_SIZE;
    IntervalMeetsWindows(es, from, n);
    AllLand(c, es, key, lo, hi);
    if OnlyCalls(es) {
      WindowsAdmitAtMost(c, es, key, lo, n + 1, limit);
    } else {
      CallsOfRun(es, key, limit, lo, hi);
      SweepsDoNotAdmit(c, c, es, key, lo, hi, latest);
      WindowsAdmitAtMost(c, WithoutSweeps(es), key, lo, n + 1, limit);
    }
  }

  /** The documented ceiling: no interval of one window length admits more than twice the limit. */
  lemma TwiceTheLimit(c: Counters, es: seq<Event>, key: string, from: int, limit: int, latest: int)
    requires Orderly(latest, es) && ConstantLimit(es, key, limit) && limit >= 1
    requires Within(es, from, from + WINDOW_SIZE)
    ensures AdmissionsOn(c, es, key) <= 2 * limit
  {
    IntervalBound(c, es, key, from, 1, limit, latest);
  }

  // ---- The bounds are reached ----

  function Burst(key: string, limit: int, now: int, n: nat): seq<Event> {
    if n == 0 then [] else [Call(key, limit, now, now)] + Burst(key, limit, now, n - 1)
  }

  /** One burst of `limit` calls in each window from the `k`-th to the `n`-th: at the last instant of the first, and as the others begin. */
  function Bursts(key: string, limit: int, k: nat, n: nat): seq<Event>
    requires limit >= 0
    decreases n + 1 - k
  {
    if k > n then [] else Burst(key, limit, BurstTime(k), limit) + Bursts(key, limit, k + 1, n)
  }

  function BurstTime(k: nat): int {
    if k == 0 then WINDOW_SIZE - 1 else k * WINDOW_SIZE
  }

  lemma BurstTimes(k: nat, n: nat, window: nat)
    requires k <= n
    ensures WINDOW_SIZE - 1 <= BurstTime(k) <= WINDOW_SIZE - 1 + n * WINDOW_SIZE
    ensures WindowOf(BurstTime(k)) == k * WINDOW_SIZE
    ensures window * WINDOW_SIZE <= k * WINDOW_SIZE < window * WINDOW_SIZE + WINDOW_SIZE <==> k == window
  {
  }

  lemma OneCallAdds(e: Event, key: string, limit: int, rest: seq<Event>, lo: int, hi: int, from: int, to: int)
    requires OnlyCalls(rest) && ConstantLimit(rest, key, limit) && Within(rest, from, to)
    requires e.Call? && e.key == key && EffectiveLimit(e.limitPerMinute) == limit && from <= e.now <= to
    ensures
      var es := [e] + rest;
      && OnlyCalls(es) && ConstantLimit(es, key, limit) && Within(es, from, to)
      && Arrivals(es, key, lo, hi) == (if lo <= WindowOf(e.now) < hi then 1 else 0) + Arrivals(rest, key, lo, hi)
  {
    assert ([e] + rest)[1..] == rest;
  }

  lemma {:induction false} BurstAdds(key: string, limit: int, now: int, n: nat, rest: seq<Event>, lo: int, hi: int, from: int, to: int)
    requires limit >= 1 && OnlyCalls(rest) && ConstantLimit(rest, key, limit) && Within(rest, from, to) && from <= now <= to
    ensures
      var es := Burst(key, limit, now, n) + rest;
      && OnlyCalls(es) && ConstantLimit(es, key, limit) && Within(es, from, to)
      && Arrivals(es, key, lo, hi) == (if lo <= WindowOf(now) < hi then n else 0) + Arrivals(rest, key, lo, hi)
  {
    var es := Burst(key, limit, now, n) + rest;
    if n == 0 {
      assert es == rest;
    } else {
      var tail := Burst(key, limit, now, n - 1) + rest;
      assert es == [Call(key, limit, now, now)] + tail;
      BurstAdds(key, limit, now, n - 1, rest, lo, hi, from, to);
      OneCallAdds(Call(key, limit, now, now), key, limit, tail, lo, hi, from, to);
    }
  }

  /** In every window the bursts from the `k`-th on bring as many calls as the limit, or none before that. */
  lemma {:induction false} BurstsArrive(key: string, limit: int, k: nat, n: nat, window: nat)
    requires limit >= 1 && window <= n
    ensures
      var es := Bursts(key, limit, k, n);
      var lo := window * WINDOW_SIZE;
      && OnlyCalls(es) && ConstantLimit(es, key, limit)
      && Within(es, WINDOW_SIZE - 1, WINDOW_SIZE - 1 + n * WINDOW_SIZE)
      && Arrivals(es, key, lo, lo + WINDOW_SIZE) == if k <= window then limit else 0
    decreases n + 1 - k
  {
    if k <= n {
      var lo := window * WINDOW_SIZE;
      BurstsArrive(key, limit, k + 1, n, window);
      BurstTimes(k, n, window);
      BurstAdds(key, limit, BurstTime(k), limit, Bursts(key, limit, k + 1, n), lo, lo + WINDOW_SIZE,
                WINDOW_SIZE - 1, WINDOW_SIZE - 1 + n * WINDOW_SIZE);
    }
  }

  lemma FullWindowAdds(es: seq<Event>, key: string, limit: int, lo: int)
    requires OnlyCalls(es) && ConstantLimit(es, key, limit) && limit >= 1 && lo >= 0 && lo % WINDOW_SIZE == 0
    requires Arrivals(es, key, lo, lo + WINDOW_SIZE) == limit
    ensures Admissions(map[], es, key, 0, lo + WINDOW_SIZE) == Admissions(map[], es, key, 0, lo) + limit
  {
    WindowAdmitsExactly(map[], es, key, lo, limit, 0);
    AdmissionsSplit(map[], es, key, 0, lo, lo + WINDOW_SIZE);
  }

  lemma NextWindow(m: nat, limit: int)
    requires m > 0
    ensures (m - 1) * WINDOW_SIZE + WINDOW_SIZE == m * WINDOW_SIZE && (m - 1) * WINDOW_SIZE % WINDOW_SIZE == 0
    ensures m * limit == (m - 1) * limit + limit
  {
  }

  lemma {:induction false} FullWindowsAddUp(key: string, limit: int, n: nat, m: nat)
    requires limit >= 1 && m <= n + 1
    ensures Admissions(map[], Bursts(key, limit, 0, n), key, 0, m * WINDOW_SIZE) == m * limit
    decreases m
  {
    if m == 0 {
      NothingLands(map[], Bursts(key, limit, 0, n), key, 0);
    } else {
      NextWindow(m, limit);
      FullWindowsAddUp(key, limit, n, m - 1);
      BurstsArrive(key, limit, 0, n, m - 1);
      FullWindowAdds(Bursts(key, limit, 0, n), key, limit, (m - 1) * WINDOW_SIZE);
    }
  }

  /** For every limit and number of windows the interval bound is reached. */
  lemma IntervalBoundIsReached(key: string, limit: int, n: nat)
    requires limit >= 1
    ensures
      var es := Bursts(key, limit, 0, n);
      && OnlyCalls(es) && ConstantLimit(es, key, limit)
      && Within(es, WINDOW_SIZE - 1, WINDOW_SIZE - 1 + n * WINDOW_SIZE)
      && AdmissionsOn(map[], es, key) == (n + 1) * limit
  {
    var es := Bursts(key, limit, 0, n);
    BurstsArrive(key, limit, 0, n, 0);
    FullWindowsAddUp(key, limit, n, n + 1);
    forall i | 0 <= i < |es| ensures 0 <= WindowOf(es[i].now) < (n + 1) * WINDOW_SIZE {
      WindowsAreAligned(es[i].now, 0);
    }
    AllLand(map[], es, key, 0, (n + 1) * WINDOW_SIZE);
  }

  /** The ceiling is reached, already within two clock ticks around a window boundary. */
  lemma TwiceTheLimitIsReached(key: string, limit: int)
    requires limit >= 1
    ensures
      var es := Burst(key, limit, WINDOW_SIZE - 1, limit) + Burst(key, limit, WINDOW_SIZE, limit);
      && OnlyCalls(es) && ConstantLimit(es, key, limit) && Within(es, WINDOW_SIZE - 1, WINDOW_SIZE)
      && AdmissionsOn(map[], es, key) == 2 * limit
  {
    var late, early := Burst(key, limit, WINDOW_SIZE - 1, limit), Burst(key, limit, WINDOW_SIZE, limit);
    IntervalBoundIsReached(key, limit, 1);
    assert Bursts(key, limit, 2, 1) == [] && early + [] == early;
    assert Bursts(key, limit, 1, 1) == early;
    BurstAdds(key, limit, WINDOW_SIZE, limit, [], 0, 0, WINDOW_SIZE - 1, WINDOW_SIZE);
    BurstAdds(key, limit, WINDOW_SIZE - 1, limit, early, 0, 0, WINDOW_SIZE - 1, WINDOW_SIZE);
  }
}
