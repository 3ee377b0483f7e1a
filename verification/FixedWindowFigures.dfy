// The figures in the answers of the shared limiter, told by what later calls meet. Times are in nanoseconds.

module FixedWindowFigures {
  import opened RateLimits
  import opened FixedWindows

  /** Two readings in the same minute of the clock. */
  predicate SameMinute(now: int, later: int) {
    now / 60_000_000_000 == later / 60_000_000_000
  }

  lemma SameMinuteIsSameWindow(now: int, later: int)
    ensures SameMinute(now, later) <==> WindowOf(now) == WindowOf(later)
    ensures WindowOf(now) == now / 60_000_000_000 * 60_000_000_000
  {
  }

  /** A window that nobody has called in yet. */
  predicate Fresh(c: Counters, key: string, now: int) {
    forall row | row in c && row.0 == key :: row.1 != now - now % 60_000_000_000
  }

  /** The first call of a minute is admitted and leaves all the others of its limit, which is 10 when it has none. */
  lemma FirstCallAnswer(c: Counters, key: string, limitPerMinute: int, now: int, wall: int)
    requires Fresh(c, key, now)
    ensures
      var r := Evaluate(c, key, limitPerMinute, now, wall).1;
      var limit := if limitPerMinute > 0 then limitPerMinute else 10;
      r.allowed && r.limit == limit && r.remaining == limit - 1 && r.retryAfter == 0
  {
    assert (key, WindowOf(now)) !in c;
  }

  /** After an answer with Remaining `r`, a burst of `n` calls in the same minute admits exactly min(n, r), so none after a refusal. */
  lemma RemainingIsExact(c: Counters, key: string, limitPerMinute: int, now: int, wall: int, later: int, n: nat)
    requires SameMinute(now, later)
    ensures
      var (after, r) := Evaluate(c, key, limitPerMinute, now, wall);
      && r.remaining >= 0 && (!r.allowed ==> r.remaining == 0)
      && AdmissionsOn(after, Burst(key, limitPerMinute, later, n), key) == Min(n, r.remaining)
  {
    SameMinuteIsSameWindow(now, later);
    BurstAdmits(Evaluate(c, key, limitPerMinute, now, wall).0, key, limitPerMinute, later, n);
  }

  /** What a window has left. */
  function Left(c: Counters, key: string, limit: int, window: int): nat {
    if Hits(c, key, window) <= limit then limit - Hits(c, key, window) else 0
  }

  lemma {:induction false} BurstAdmits(c: Counters, key: string, limitPerMinute: int, now: int, n: nat)
    ensures AdmissionsOn(c, Burst(key, limitPerMinute, now, n), key) == Min(n, Left(c, key, EffectiveLimit(limitPerMinute), WindowOf(now)))
    decreases n
  {
    if n > 0 {
      var e := Call(key, limitPerMinute, now, now);
      assert Burst(key, limitPerMinute, now, n)[1..] == Burst(key, limitPerMinute, now, n - 1);
      BurstAdmits(Step(c, e), key, limitPerMinute, now, n - 1);
    }
  }

  /**
   * The reset time is the next full minute: a refusal stands until then, and then the key starts afresh.
   */
  lemma ResetTimeIsExact(c: Counters, key: string, limitPerMinute: int, now: int, wall: int, later: int, later': int)
    requires later >= now
    ensures
      var (after, r) := Evaluate(c, key, limitPerMinute, now, wall);
      var reset := r.resetTime * 1_000_000_000;
      && now < reset <= now + 60_000_000_000
      && (!r.allowed && later < reset ==> !Evaluate(after, key, limitPerMinute, later, later').1.allowed)
      && (reset <= later < reset + 60_000_000_000 && Fresh(c, key, later) ==>
            Evaluate(after, key, limitPerMinute, later, later').1.allowed)
  {
    var (after, r) := Evaluate(c, key, limitPerMinute, now, wall);
    ResetIsNextMinute(now);
    if later < r.resetTime * 1_000_000_000 {
      SameMinuteIsSameWindow(now, later);
    } else if later < r.resetTime * 1_000_000_000 + 60_000_000_000 && Fresh(c, key, later) {
      assert WindowOf(now) < WindowOf(later);
      assert Fresh(after, key, later);
      FirstCallAnswer(after, key, limitPerMinute, later, later');
    }
  }

  lemma ResetIsNextMinute(now: int)
    ensures (WindowOf(now) + WINDOW_SIZE) / 1_000_000_000 * 1_000_000_000 == WindowOf(now) + WINDOW_SIZE
    ensures now < WindowOf(now) + WINDOW_SIZE <= now + 60_000_000_000
    ensures forall later | now <= later < WindowOf(now) + WINDOW_SIZE :: SameMinute(now, later)
  {
    var q := now / 60_000_000_000;
    assert WindowOf(now) == q * 60_000_000_000;
    assert WindowOf(now) + WINDOW_SIZE == (60 * q + 60) * 1_000_000_000;
  }

  /**
   * Waiting for the Retry-After of a refusal, counted from the reading of the wall clock that it was computed
   * from, ends before the reset exactly when that is more than a second and no whole number of seconds away:
   * the figure is rounded down. It then falls short by less than a second, and the retry is refused again.
   */
  lemma RetryAfterFallsShortExactly(c: Counters, key: string, limitPerMinute: int, now: int, wall: int, again: int)
    requires !Evaluate(c, key, limitPerMinute, now, wall).1.allowed && now <= wall
    ensures
      var (after, r) := Evaluate(c, key, limitPerMinute, now, wall);
      var reset, retry := r.resetTime * 1_000_000_000, wall + r.retryAfter * 1_000_000_000;
      && r.retryAfter >= 1
      && (retry < reset <==> reset - wall > 1_000_000_000 && (reset - wall) % 1_000_000_000 != 0)
      && (retry < reset ==> reset - retry < 1_000_000_000 && !Evaluate(after, key, limitPerMinute, retry, again).1.allowed)
  {
    var (after, r) := Evaluate(c, key, limitPerMinute, now, wall);
    ResetIsNextMinute(now);
    ResetTimeIsExact(c, key, limitPerMinute, now, wall, wall + r.retryAfter * 1_000_000_000, again);
  }
}
