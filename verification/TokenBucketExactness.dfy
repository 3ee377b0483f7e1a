// Two precise claims about the token bucket: sweeping idle buckets never changes an answer, and the
// Retry-After and Remaining figures mean exactly what they say.

module TokenBucketExactness {
  import opened Arithmetic
  import opened RateLimits
  import opened TokenBuckets
  import opened TokenBucketBounds

  /** The answers to the calls of a run, in order. */
  function Results(t: Table, es: seq<Event>): seq<Result>
    requires ValidTable(t)
    decreases |es|
  {
    if es == [] then []
    else
      (if es[0].Call? then [Evaluate(t, es[0].key, es[0].limitPerMinute, es[0].now).1] else [])
      + Results(Step(t, es[0]), es[1..])
  }

  function WithoutSweeps(es: seq<Event>): seq<Event> {
    if es == [] then []
    else (if es[0].Call? then [es[0]] else []) + WithoutSweeps(es[1..])
  }

  /** Every sweep in the run removes the buckets idle for more than `maxIdle`. */
  predicate SweepsAt(es: seq<Event>, maxIdle: real) {
    forall i | 0 <= i < |es| && es[i].Sweep? :: es[i].maxIdle == maxIdle
  }

  predicate SweepsAreLate(es: seq<Event>) {
    forall i | 0 <= i < |es| && es[i].Sweep? :: es[i].maxIdle >= 60.0
  }

  // ---- Cleanup is invisible ----

  /** `swept` lacks only buckets of `full` that have been idle for a minute. */
  ghost predicate Hidden(swept: Table, full: Table, now: real) {
    && (forall key | key in swept :: key in full && swept[key] == full[key])
    && (forall key | key in full && key !in swept :: now - full[key].lastRefill >= 60.0)
  }

  lemma MinuteRefillsFully(b: Bucket, now: real)
    requires b.Valid() && now - b.lastRefill >= 60.0
    ensures b.Refill(now) == b.(tokens := b.capacity, lastRefill := now)
  {
    var spare := now - b.lastRefill - 60.0;
    assert (now - b.lastRefill) * b.refillRate == 60.0 * b.refillRate + spare * b.refillRate;
    assert spare * b.refillRate >= 0.0;
  }

  /** An idle bucket resized to any limit refills to a full bucket of that limit. */
  lemma IdleActsAsNew(b: Bucket, limit: int, now: real)
    requires b.Valid() && limit >= 1 && now - b.lastRefill >= 60.0
    ensures b.Resize(limit).Refill(now) == FullBucket(limit, now).Refill(now)
  {
    MinuteRefillsFully(b.Resize(limit), now);
  }

  lemma StepKeepsHidden(swept: Table, full: Table, e: Event)
    requires ValidTable(swept) && ValidTable(full) && Hidden(swept, full, e.now)
    requires e.Sweep? ==> e.maxIdle >= 60.0
    ensures Hidden(Step(swept, e), if e.Call? then Step(full, e) else full, e.now)
    ensures e.Call? ==>
      Evaluate(swept, e.key, e.limitPerMinute, e.now).1 == Evaluate(full, e.key, e.limitPerMinute, e.now).1
  {
    if e.Call? && e.key in full && e.key !in swept {
      IdleActsAsNew(full[e.key], EffectiveLimit(e.limitPerMinute), e.now);
    }
  }

  lemma {:induction false} HiddenRunsAgree(swept: Table, full: Table, es: seq<Event>, from: real)
    requires ValidTable(swept) && ValidTable(full) && Hidden(swept, full, from)
    requires Clocked(from, es) && SweepsAreLate(es)
    ensures Results(swept, es) == Results(full, WithoutSweeps(es))
    decreases |es|
  {
    if es != [] {
      var e := es[0];
      StepKeepsHidden(swept, full, e);
      HiddenRunsAgree(Step(swept, e), if e.Call? then Step(full, e) else full, es[1..], e.now);
      if e.Call? {
        assert WithoutSweeps(es)[1..] == WithoutSweeps(es[1..]);
      } else {
        assert WithoutSweeps(es) == WithoutSweeps(es[1..]);
      }
    }
  }

  /**
   * A limiter that sweeps buckets idle for at least a minute, at any points of the run, answers every
   * call as one that never sweeps, also across plan changes.
   */
  lemma CleanupIsInvisible(t: Table, es: seq<Event>, from: real)
    requires ValidTable(t) && Clocked(from, es) && SweepsAreLate(es)
    ensures Results(t, es) == Results(t, WithoutSweeps(es))
  {
    HiddenRunsAgree(t, t, es, from);
  }

  ghost predicate SweepsInvisibly(maxIdle: real) {
    forall es :: Clocked(0.0, es) && SweepsAt(es, maxIdle) ==> Results(map[], es) == Results(map[], WithoutSweeps(es))
  }

  /** A one-token bucket drained at time 0 refuses a call within the minute, and a new bucket admits it. */
  lemma DrainedRefuses(later: real)
    requires 0.0 <= later < 60.0
    ensures Evaluate(map[], "k", 1, 0.0).0 == map["k" := Bucket(0.0, 1.0, 1.0 / 60.0, 0.0)]
    ensures !Evaluate(Evaluate(map[], "k", 1, 0.0).0, "k", 1, later).1.allowed
    ensures Evaluate(map[], "k", 1, later).1.allowed
  {
    var drained := Bucket(0.0, 1.0, 1.0 / 60.0, 0.0);
    assert drained.Resize(1).Refill(later).tokens < 1.0;
  }

  lemma ResultsOfCall(t: Table, e: Event, rest: seq<Event>)
    requires ValidTable(t) && e.Call?
    ensures Results(t, [e] + rest) == [Evaluate(t, e.key, e.limitPerMinute, e.now).1] + Results(Step(t, e), rest)
    ensures WithoutSweeps([e] + rest) == [e] + WithoutSweeps(rest)
  {
    assert ([e] + rest)[1..] == rest;
  }

  lemma ResultsOfSweep(t: Table, e: Event, rest: seq<Event>)
    requires ValidTable(t) && e.Sweep?
    ensures Results(t, [e] + rest) == Results(Step(t, e), rest)
    ensures WithoutSweeps([e] + rest) == WithoutSweeps(rest)
  {
    assert ([e] + rest)[1..] == rest;
  }

  /** Drain a one-token bucket, sweep it, and ask again before it has refilled. */
  lemma EarlySweepShows(maxIdle: real) returns (es: seq<Event>)
    requires maxIdle < 60.0
    ensures Clocked(0.0, es) && SweepsAt(es, maxIdle)
    ensures Results(map[], es) != Results(map[], WithoutSweeps(es))
  {
    var later := if maxIdle < 0.0 then 30.0 else (maxIdle + 60.0) / 2.0;
    var first, sweep, second := Call("k", 1, 0.0), Sweep(maxIdle, later), Call("k", 1, later);
    es := [first] + ([sweep] + [second]);
    assert es[1..] == [sweep] + [second] && ([sweep] + [second])[1..] == [second];
    assert Clocked(later, [second]) && Clocked(0.0, [sweep] + [second]);
    DrainedRefuses(later);
    var drained := Step(map[], first);
    assert Step(drained, sweep) == map[];
    ResultsOfCall(map[], first, [sweep] + [second]);
    ResultsOfSweep(drained, sweep, [second]);
    ResultsOfCall(map[], first, [second]);
    ResultsOfCall(map[], second, []);
    ResultsOfCall(drained, second, []);
    assert [second] + [] == [second];
    assert Results(map[], es)[1].allowed && !Results(map[], WithoutSweeps(es))[1].allowed;
  }

  /** A minute is the exact threshold: sweeping can be seen for every smaller `maxIdle`. */
  lemma CleanupThreshold(maxIdle: real)
    ensures SweepsInvisibly(maxIdle) <==> maxIdle >= 60.0
  {
    if maxIdle >= 60.0 {
      forall es | Clocked(0.0, es) && SweepsAt(es, maxIdle)
        ensures Results(map[], es) == Results(map[], WithoutSweeps(es))
      {
        CleanupIsInvisible(map[], es, 0.0);
      }
    } else {
      var es := EarlySweepShows(maxIdle);
    }
  }

  // ---- Retry-After ----

  /** Calls on `key` all have the limit `limit` and are refused, and sweeps spare buckets used in the last minute. */
  predicate Refused(t: Table, es: seq<Event>, key: string, limit: int)
    requires ValidTable(t)
    decreases |es|
  {
    es == [] ||
    (&& (es[0].Sweep? ==> es[0].maxIdle >= 60.0)
     && (es[0].Call? && es[0].key == key ==> EffectiveLimit(es[0].limitPerMinute) == limit && !Admits(t, es[0], key))
     && Refused(Step(t, es[0]), es[1..], key, limit))
  }

  /** Refilling in two steps is refilling once. */
  lemma RefillComposes(b: Bucket, mid: real, now: real)
    requires b.Valid() && b.lastRefill <= mid <= now
    ensures b.Refill(mid).Refill(now) == b.Refill(now)
  {
    GainsAddUp(b.refillRate, b.lastRefill, mid, now);
  }

  lemma RefusalKeepsLevel(t: Table, e: Event, key: string, limit: int, now: real)
    requires ValidTable(t) && UpToDate(t, e.now) && e.now <= now && limit >= 1
    requires e.Call? && key in t && t[key].capacity == limit as real
    requires e.key == key ==> EffectiveLimit(e.limitPerMinute) == limit && !Admits(t, e, key)
    ensures ValidTable(Step(t, e)) && UpToDate(Step(t, e), e.now)
    ensures key in Step(t, e) && Step(t, e)[key].capacity == limit as real
    ensures Step(t, e)[key].Refill(now) == t[key].Refill(now)
  {
    CallSpendsPotential(t, e.key, e.limitPerMinute, e.now, EffectiveLimit(e.limitPerMinute) as real);
    if e.key == key {
      RefillComposes(t[key], e.now, now);
    }
  }

  lemma {:induction false} RefusalsKeepLevel(t: Table, es: seq<Event>, key: string, limit: int, from: real, now: real)
    requires ValidTable(t) && UpToDate(t, from) && limit >= 1
    requires key in t && t[key].capacity == limit as real
    requires Clocked(from, es) && Refused(t, es, key, limit) && FinalReading(from, es) <= now
    requires forall i | 0 <= i < |es| :: es[i].Call?
    ensures key in Run(t, es) && Run(t, es)[key].capacity == limit as real
    ensures Run(t, es)[key].Refill(now) == t[key].Refill(now)
    decreases |es|
  {
    if es != [] {
      ReadingsGrow(es[0].now, es[1..]);
      RefusalKeepsLevel(t, es[0], key, limit, now);
      RefusalsKeepLevel(Step(t, es[0]), es[1..], key, limit, es[0].now, now);
    }
  }

  lemma {:induction false} ReadingsGrow(from: real, es: seq<Event>)
    requires Clocked(from, es)
    ensures from <= FinalReading(from, es)
    decreases |es|
  {
    if es != [] {
      ReadingsGrow(es[0].now, es[1..]);
    }
  }

  lemma QuotientThreshold(wait: real, missing: real, rate: real)
    requires rate > 0.0 && missing > 0.0
    ensures missing / rate > 0.0 && (wait * rate >= missing <==> wait >= missing / rate)
  {
    var q := missing / rate;
    assert q * rate == missing;
    PositiveScale(wait, q, rate);
    PositiveScale(0.0, q, rate);
  }

  lemma RefillAfter(b: Bucket, wait: real)
    requires wait > 0.0
    ensures b.Refill(b.lastRefill + wait).tokens == Min(b.capacity, b.tokens + wait * b.refillRate)
  {
    assert b.lastRefill + wait - b.lastRefill == wait;
  }

  lemma WaitDecides(b: Bucket, wait: real)
    requires b.Valid() && b.tokens < 1.0 && wait >= 0.0
    ensures b.Refill(b.lastRefill + wait).tokens >= 1.0 <==> wait >= (1.0 - b.tokens) / b.refillRate
  {
    QuotientThreshold(wait, 1.0 - b.tokens, b.refillRate);
    if wait > 0.0 {
      RefillAfter(b, wait);
    }
  }

  lemma RetryAfterWithoutSweeps(t: Table, key: string, limit: int, at: real, es: seq<Event>, now: real)
    requires ValidTable(t) && UpToDate(t, at) && limit >= 1
    requires !Evaluate(t, key, limit, at).1.allowed
    requires
      var after := Evaluate(t, key, limit, at).0;
      && Clocked(at, es) && Refused(after, es, key, limit) && FinalReading(at, es) <= now
      && forall i | 0 <= i < |es| :: es[i].Call?
    ensures
      var (after, refusal) := Evaluate(t, key, limit, at);
      var admitted := Evaluate(Run(after, es), key, limit, now).1.allowed;
      && refusal.retryAfter >= 1
      && (now - at >= refusal.retryAfter as real ==> admitted)
      && (now - at == (now - at).Floor as real ==> (admitted <==> (now - at).Floor >= refusal.retryAfter))
  {
    var (after, refusal) := Evaluate(t, key, limit, at);
    CallSpendsPotential(t, key, limit, at, limit as real);
    var b := after[key];
    assert b.Valid() && b.lastRefill == at && b.capacity == limit as real && b.tokens < 1.0;
    ReadingsGrow(at, es);
    RefusalsKeepLevel(after, es, key, limit, at, now);
    WaitDecides(b, now - at);
    assert Evaluate(Run(after, es), key, limit, now).1.allowed <==> b.Refill(now).tokens >= 1.0;
    QuotientThreshold(now - at, 1.0 - b.tokens, b.refillRate);
  }

  lemma ClockedEarlier(from: real, later: real, es: seq<Event>)
    requires from <= later && Clocked(later, es)
    ensures Clocked(from, es) && (es != [] ==> FinalReading(from, es) == FinalReading(later, es))
  {
  }

  /** A run with late sweeps and the same run without them stay alike, refuse alike, and end alike. */
  lemma {:induction false} SweepsAreHidden(swept: Table, full: Table, es: seq<Event>, key: string, limit: int, from: real)
    requires ValidTable(swept) && ValidTable(full) && Hidden(swept, full, from)
    requires Clocked(from, es) && Refused(swept, es, key, limit)
    ensures
      var calls := WithoutSweeps(es);
      && Clocked(from, calls) && FinalReading(from, calls) <= FinalReading(from, es)
      && (forall i | 0 <= i < |calls| :: calls[i].Call?)
      && Refused(full, calls, key, limit)
      && Hidden(Run(swept, es), Run(full, calls), FinalReading(from, es))
    decreases |es|
  {
    if es != [] {
      var e, rest := es[0], es[1..];
      StepKeepsHidden(swept, full, e);
      ReadingsGrow(e.now, rest);
      if e.Call? {
        SweepsAreHidden(Step(swept, e), Step(full, e), rest, key, limit, e.now);
        assert WithoutSweeps(es)[1..] == WithoutSweeps(rest);
      } else {
        SweepsAreHidden(Step(swept, e), full, rest, key, limit, e.now);
        assert WithoutSweeps(es) == WithoutSweeps(rest);
        ClockedEarlier(from, e.now, WithoutSweeps(rest));
      }
    }
  }

  /**
   * After a refusal with Retry-After `r`, as long as nothing is admitted on the key in between, a call
   * with the same limit `r` or more seconds later is admitted and a call after any smaller whole
   * number of seconds is refused. (Further refused calls, calls on other keys, and sweeps may come between.)
   */
  lemma RetryAfterIsExact(t: Table, key: string, limitPerMinute: int, at: real, es: seq<Event>, now: real)
    requires ValidTable(t) && UpToDate(t, at)
    requires !Evaluate(t, key, limitPerMinute, at).1.allowed
    requires
      var after := Evaluate(t, key, limitPerMinute, at).0;
      Clocked(at, es) && Refused(after, es, key, EffectiveLimit(limitPerMinute)) && FinalReading(at, es) <= now
    ensures
      var (after, refusal) := Evaluate(t, key, limitPerMinute, at);
      var admitted := Evaluate(Run(after, es), key, limitPerMinute, now).1.allowed;
      && refusal.retryAfter >= 1
      && (now - at >= refusal.retryAfter as real ==> admitted)
      && (now - at == (now - at).Floor as real ==> (admitted <==> (now - at).Floor >= refusal.retryAfter))
  {
    var limit := EffectiveLimit(limitPerMinute);
    var after, calls := Evaluate(t, key, limit, at).0, WithoutSweeps(es);
    SweepsAreHidden(after, after, es, key, limit, at);
    RetryAfterWithoutSweeps(t, key, limit, at, calls, now);
    StepKeepsHidden(Run(after, es), Run(after, calls), Call(key, limit, now));
  }

  // ---- Remaining ----

  /** `n` calls on a key at one instant. */
  function Burst(key: string, limitPerMinute: int, now: real, n: nat): seq<Event> {
    if n == 0 then [] else [Call(key, limitPerMinute, now)] + Burst(key, limitPerMinute, now, n - 1)
  }

  lemma {:induction false} BurstDrains(t: Table, key: string, limitPerMinute: int, now: real, n: nat)
    requires ValidTable(t) && key in t
    requires t[key].capacity == EffectiveLimit(limitPerMinute) as real && t[key].lastRefill == now
    ensures Admissions(t, Burst(key, limitPerMinute, now, n), key) == (if n <= t[key].tokens.Floor then n else t[key].tokens.Floor)
  {
    if n > 0 {
      var e := Call(key, limitPerMinute, now);
      assert Burst(key, limitPerMinute, now, n)[1..] == Burst(key, limitPerMinute, now, n - 1);
      BurstDrains(Step(t, e), key, limitPerMinute, now, n - 1);
    }
  }

  /** After an admission with Remaining `r`, a burst of `n` calls at the same instant admits exactly `min(n, r)`. */
  lemma RemainingIsExact(t: Table, key: string, limitPerMinute: int, now: real, n: nat)
    requires ValidTable(t) && UpToDate(t, now)
    requires Evaluate(t, key, limitPerMinute, now).1.allowed
    ensures
      var (after, result) := Evaluate(t, key, limitPerMinute, now);
      && result.remaining >= 0
      && Admissions(after, Burst(key, limitPerMinute, now, n), key) == (if n <= result.remaining then n else result.remaining)
  {
    CallSpendsPotential(t, key, limitPerMinute, now, EffectiveLimit(limitPerMinute) as real);
    BurstDrains(Evaluate(t, key, limitPerMinute, now).0, key, limitPerMinute, now, n);
  }
}
