// Plan changes in the token bucket, and the figures of its answers, told without the operations behind them.

module TokenBucketPlans {
  import opened RateLimits
  import opened TokenBuckets
  import opened TokenBucketBounds
  import opened TokenBucketExactness

  function Least(n: int, m: int): int {
    if n <= m then n else m
  }

  /** What the key's bucket holds for a call under `limit` at `now`: a full one when there is none yet. */
  function Holds(t: Table, key: string, limit: int, now: real): real {
    if key !in t then limit as real
    else
      var b := t[key];
      var kept := if b.tokens <= limit as real then b.tokens else limit as real;
      var held := if now <= b.lastRefill then kept else kept + (now - b.lastRefill) * (limit as real / 60.0);
      if held <= limit as real then held else limit as real
  }

  /** What a bucket gains under the caller's plan, whatever plan it was made for. */
  lemma HeldByBucket(b: Bucket, limit: int, now: real)
    requires b.Valid() && limit >= 1
    ensures
      var filled := b.Resize(limit).Refill(now);
      var kept := if b.tokens <= limit as real then b.tokens else limit as real;
      var held := if now <= b.lastRefill then kept else kept + (now - b.lastRefill) * (limit as real / 60.0);
      && filled.tokens == (if held <= limit as real then held else limit as real)
      && filled.capacity == limit as real && filled.refillRate == limit as real / 60.0
      && filled.lastRefill == (if now >= b.lastRefill then now else b.lastRefill)
  {
    assert b.Resize(limit).refillRate == limit as real / 60.0;
  }

  /** The bucket that a call takes from. */
  lemma HeldAtCall(t: Table, key: string, limit: int, now: real)
    requires ValidTable(t) && limit >= 1
    ensures
      var filled := GetOrCreate(t, key, limit, now).Refill(now);
      && filled.tokens == Holds(t, key, limit, now)
      && filled.capacity == limit as real && filled.refillRate == limit as real / 60.0
      && filled.lastRefill == (if key !in t || now >= t[key].lastRefill then now else t[key].lastRefill)
  {
    if key in t {
      HeldByBucket(t[key], limit, now);
    }
  }

  /**
   * A call, under the plan of the last one or any other, is admitted exactly when the tokens held at the last
   * refill, cut to the limit, and what the limit regains since then, again up to the limit, come to at least
   * one; it then leaves one less, the whole part of which is reported, and a refusal leaves them as they are.
   */
  lemma CallAcrossPlanChange(t: Table, key: string, limitPerMinute: int, now: real)
    requires ValidTable(t)
    ensures
      var limit := EffectiveLimit(limitPerMinute);
      var held := Holds(t, key, limit, now);
      var (t', r) := Evaluate(t, key, limitPerMinute, now);
      && (r.allowed <==> held >= 1.0)
      && r.remaining == (if held >= 1.0 then (held - 1.0).Floor else 0)
      && r.limit == limit && key in t'
      && t'[key].tokens == (if held >= 1.0 then held - 1.0 else held)
      && t'[key].capacity == limit as real
      && t'[key].lastRefill == (if key !in t || now >= t[key].lastRefill then now else t[key].lastRefill)
  {
    HeldAtCall(t, key, EffectiveLimit(limitPerMinute), now);
  }

  /**
   * After an admission with Remaining `r`, a burst of `n` calls at the same instant, under this limit or any
   * other limit `L`, admits exactly min(n, r, L).
   */
  lemma BurstAcrossPlanChange(t: Table, key: string, limitPerMinute: int, other: int, now: real, n: nat)
    requires ValidTable(t) && UpToDate(t, now)
    requires Evaluate(t, key, limitPerMinute, now).1.allowed
    ensures
      var (after, result) := Evaluate(t, key, limitPerMinute, now);
      Admissions(after, Burst(key, other, now, n), key) == Least(n, Least(result.remaining, EffectiveLimit(other)))
  {
    CallAcrossPlanChange(t, key, limitPerMinute, now);
    BurstFrom(Evaluate(t, key, limitPerMinute, now).0, key, other, now, n);
  }

  /** A burst admits what the bucket holds in whole tokens. */
  lemma {:induction false} BurstFrom(t: Table, key: string, limitPerMinute: int, now: real, n: nat)
    requires ValidTable(t) && (key in t ==> t[key].lastRefill == now)
    ensures Admissions(t, Burst(key, limitPerMinute, now, n), key) == Least(n, Holds(t, key, EffectiveLimit(limitPerMinute), now).Floor)
    decreases n
  {
    if n > 0 {
      var e := Call(key, limitPerMinute, now);
      CallAcrossPlanChange(t, key, limitPerMinute, now);
      assert Burst(key, limitPerMinute, now, n)[1..] == Burst(key, limitPerMinute, now, n - 1);
      BurstFrom(Step(t, e), key, limitPerMinute, now, n - 1);
    }
  }

  /** A key that has no bucket admits as many calls at once as its limit, and 10 when it has none. */
  lemma FreshKeyAdmits(t: Table, key: string, limitPerMinute: int, now: real, n: nat)
    requires ValidTable(t) && key !in t
    ensures Admissions(t, Burst(key, limitPerMinute, now, n), key) == Least(n, if limitPerMinute > 0 then limitPerMinute else 10)
  {
    BurstFrom(t, key, limitPerMinute, now, n);
  }

  /** A sweep keeps exactly the buckets that were refilled within `maxIdle`, and keeps them as they are. */
  lemma SweepKeeps(t: Table, maxIdle: real, now: real, key: string)
    ensures key in Cleanup(t, maxIdle, now) <==> key in t && now - t[key].lastRefill <= maxIdle
    ensures key in Cleanup(t, maxIdle, now) ==> Cleanup(t, maxIdle, now)[key] == t[key]
  {
  }

  // ---- The reset time ----

  /** What is regained under `limit` in so many seconds. */
  function Regained(limit: int, seconds: int): real {
    seconds as real * (limit as real / 60.0)
  }

  /** The reset time of a bucket is that many whole seconds away. */
  lemma ResetOfBucket(b: Bucket, limit: int, now: real)
    requires limit >= 1 && b.capacity == limit as real && b.refillRate == limit as real / 60.0 && b.tokens <= b.capacity
    ensures
      var missing, s := limit as real - b.tokens, b.ResetTime(now) - now.Floor;
      && s >= 1
      && (missing == 0.0 ==> s == 60)
      && (missing > 0.0 ==> Regained(limit, s - 1) < missing <= Regained(limit, s))
  {
    var missing, rate := limit as real - b.tokens, b.refillRate;
    if missing > 0.0 {
      var s := SecondsFor(missing, rate);
      QuotientThreshold(s as real, missing, rate);
      QuotientThreshold((s - 1) as real, missing, rate);
    } else {
      assert missing / rate == 0.0;
    }
  }

  /** The seconds from a call to the reset time it reports are the least that regain what the bucket lacked before it. */
  lemma ResetTimeIs(t: Table, key: string, limitPerMinute: int, now: real)
    requires ValidTable(t)
    ensures
      var limit := EffectiveLimit(limitPerMinute);
      var missing := limit as real - Holds(t, key, limit, now);
      var s := Evaluate(t, key, limitPerMinute, now).1.resetTime - now.Floor;
      && missing >= 0.0 && s >= 1
      && (missing == 0.0 ==> s == 60)
      && (missing > 0.0 ==> Regained(limit, s - 1) < missing <= Regained(limit, s))
  {
    var limit := EffectiveLimit(limitPerMinute);
    HeldAtCall(t, key, limit, now);
    GetOrCreateIsValid(t, key, limit, now);
    EvaluateInSteps(t, key, limitPerMinute, now, GetOrCreate(t, key, limit, now));
    ResetOfBucket(GetOrCreate(t, key, limit, now).Refill(now), limit, now);
  }

  /**
   * After a refusal the bucket is full again when as many seconds have passed, and not a second sooner. After
   * an admission it lacks at most one token then: the reset time does not count the token just taken. Up to 60
   * calls a minute it is full then exactly when it was full before the call.
   */
  lemma ResetTimeExactly(t: Table, key: string, limitPerMinute: int, now: real)
    requires ValidTable(t) && UpToDate(t, now)
    ensures
      var limit := EffectiveLimit(limitPerMinute);
      var (after, r) := Evaluate(t, key, limitPerMinute, now);
      var s := r.resetTime - now.Floor;
      var atReset := Holds(after, key, limit, now + s as real);
      && (!r.allowed ==> atReset == limit as real && Holds(after, key, limit, now + (s - 1) as real) < limit as real)
      && (r.allowed ==> limit as real - 1.0 <= atReset <= limit as real)
      && (r.allowed && limit <= 60 ==> (atReset == limit as real <==> Holds(t, key, limit, now) == limit as real))
  {
    var limit := EffectiveLimit(limitPerMinute);
    var (after, r) := Evaluate(t, key, limitPerMinute, now);
    var s := r.resetTime - now.Floor;
    CallAcrossPlanChange(t, key, limitPerMinute, now);
    ResetTimeIs(t, key, limitPerMinute, now);
    HoldsLater(after, key, limit, s);
    HoldsLater(after, key, limit, s - 1);
    FigureOfLevel(limit, s, Holds(t, key, limit, now));
  }

  /** What a bucket that held `held` before a call comes to, with or without the token, `s` seconds later. */
  lemma FigureOfLevel(limit: int, s: int, held: real)
    requires limit >= 1 && held <= limit as real && s >= 1
    requires held == limit as real ==> s == 60
    requires held < limit as real ==> Regained(limit, s - 1) < limit as real - held <= Regained(limit, s)
    ensures held + Regained(limit, s) >= limit as real
    ensures held < limit as real ==> held + Regained(limit, s - 1) < limit as real
    ensures limit <= 60 ==> (held - 1.0 + Regained(limit, s) >= limit as real <==> held == limit as real)
  {
    assert Regained(limit, s) == Regained(limit, s - 1) + limit as real / 60.0;
    assert Regained(limit, 60) == limit as real;
  }

  /** What a bucket of the limit holds `seconds` after its last refill. */
  lemma HoldsLater(t: Table, key: string, limit: int, seconds: int)
    requires key in t && t[key].tokens <= limit as real && limit >= 1 && seconds >= 0
    ensures
      var held := t[key].tokens + Regained(limit, seconds);
      Holds(t, key, limit, t[key].lastRefill + seconds as real) == if held <= limit as real then held else limit as real
  {
    var b := t[key];
    assert b.lastRefill + seconds as real - b.lastRefill == seconds as real;
  }
}
