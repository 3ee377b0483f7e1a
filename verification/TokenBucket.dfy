// The in-memory token-bucket limiter. Tokens and times (in seconds) are exact reals.

module TokenBuckets {
  import opened RateLimits

  function Min(x: real, y: real): real {
    if x <= y then x else y
  }

  /** The least integer not below `x`. */
  function Ceil(x: real): (n: int)
    ensures n as real - 1.0 < x <= n as real
  {
    -((-x).Floor)
  }

  /** Whole seconds until `amount` tokens have been refilled. */
  function SecondsFor(amount: real, refillRate: real): int
    requires refillRate > 0.0
  {
    Ceil(amount / refillRate)
  }

  datatype Bucket = Bucket(tokens: real, capacity: real, refillRate: real, lastRefill: real) {

    ghost predicate Valid() {
      0.0 <= tokens <= capacity && 1.0 <= capacity && refillRate == capacity / 60.0
    }

    /** Adopts the limit of the caller's current plan. */
    function Resize(limit: int): Bucket {
      if capacity == limit as real then this
      else
        this.(capacity := limit as real, refillRate := limit as real / 60.0, tokens := Min(tokens, limit as real))
    }

    function Refill(now: real): Bucket {
      if now - lastRefill > 0.0
      then this.(tokens := Min(capacity, tokens + (now - lastRefill) * refillRate), lastRefill := now)
      else this
    }

    function ResetTime(now: real): int
      requires refillRate > 0.0
    {
      var secondsToFull := SecondsFor(capacity - tokens, refillRate);
      now.Floor + (if secondsToFull <= 0 then 60 else secondsToFull)
    }

    /** Takes one token if there is one. */
    function Consume(limit: int, now: real): (Bucket, Result)
      requires refillRate > 0.0
    {
      if tokens >= 1.0 then
        (this.(tokens := tokens - 1.0), Result(true, limit, (tokens - 1.0).Floor, ResetTime(now), 0))
      else
        var retryAfter := SecondsFor(1.0 - tokens, refillRate);
        (this, Result(false, limit, 0, ResetTime(now), if retryAfter < 1 then 1 else retryAfter))
    }
  }

  function FullBucket(limit: int, now: real): Bucket {
    Bucket(limit as real, limit as real, limit as real / 60.0, now)
  }

  type Table = map<string, Bucket>

  ghost predicate ValidTable(t: Table) {
    forall key | key in t :: t[key].Valid()
  }

  function GetOrCreate(t: Table, key: string, limit: int, now: real): Bucket {
    if key in t then t[key].Resize(limit) else FullBucket(limit, now)
  }

  lemma GetOrCreateIsValid(t: Table, key: string, limit: int, now: real)
    requires ValidTable(t) && limit >= 1
    ensures GetOrCreate(t, key, limit, now).Valid()
  {
  }

  lemma RefillIsValid(b: Bucket, now: real)
    requires b.Valid()
    ensures b.Refill(now).Valid()
  {
    if now > b.lastRefill {
      assert (now - b.lastRefill) * b.refillRate >= 0.0;
    }
  }

  function Evaluate(t: Table, key: string, limitPerMinute: int, now: real): (answer: (Table, Result))
    requires ValidTable(t)
    ensures ValidTable(answer.0)
  {
    var limit := EffectiveLimit(limitPerMinute);
    GetOrCreateIsValid(t, key, limit, now);
    var filled := GetOrCreate(t, key, limit, now).Refill(now);
    RefillIsValid(GetOrCreate(t, key, limit, now), now);
    var (left, result) := filled.Consume(limit, now);
    (t[key := left], result)
  }

  /** A call finds its bucket, and takes from it what the refilled bucket gives. */
  lemma EvaluateInSteps(t: Table, key: string, limitPerMinute: int, now: real, found: Bucket)
    requires ValidTable(t) && found == GetOrCreate(t, key, EffectiveLimit(limitPerMinute), now) && found.Valid()
    ensures
      var (left, result) := found.Refill(now).Consume(EffectiveLimit(limitPerMinute), now);
      Evaluate(t, key, limitPerMinute, now) == (t[key := left], result)
  {
  }

  lemma MissingSeconds(b: Bucket)
    requires b.Valid() && b.tokens < 1.0
    ensures 1 <= SecondsFor(1.0 - b.tokens, b.refillRate) <= 60
  {
    var missing := (1.0 - b.tokens) / b.refillRate;
    assert missing * b.refillRate == 1.0 - b.tokens;
    assert missing > 0.0;
    if missing > 60.0 {
      assert (missing - 60.0) * b.refillRate > 0.0;
    }
  }

  /**
   * What a caller can rely on: exactly the refusals carry a wait, of at most a minute; an admission leaves
   * fewer than the limit; the bucket is full again in the future; and no other key is touched.
   */
  lemma AnswersAreCoherent(t: Table, key: string, limitPerMinute: int, now: real)
    requires ValidTable(t)
    ensures
      var (t', r) := Evaluate(t, key, limitPerMinute, now);
      && ValidTable(t') && t'.Keys == t.Keys + {key}
      && (forall k | k in t && k != key :: t'[k] == t[k])
      && r.limit == EffectiveLimit(limitPerMinute) && r.resetTime > now.Floor
      && (if r.allowed then 0 <= r.remaining < r.limit && r.retryAfter == 0
          else r.remaining == 0 && 1 <= r.retryAfter <= 60)
  {
    var limit := EffectiveLimit(limitPerMinute);
    GetOrCreateIsValid(t, key, limit, now);
    var filled := GetOrCreate(t, key, limit, now).Refill(now);
    RefillIsValid(GetOrCreate(t, key, limit, now), now);
    if filled.tokens < 1.0 {
      MissingSeconds(filled);
    }
  }

  lemma RemovingOneKey<V>(m: map<string, V>, key: string)
    requires key in m
    ensures |(m - {key}).Keys| == |m.Keys| - 1
  {
    assert (m - {key}).Keys == m.Keys - {key};
  }

  predicate Idle(b: Bucket, maxIdle: real, now: real) {
    now - b.lastRefill > maxIdle
  }

  function Cleanup(t: Table, maxIdle: real, now: real): Table {
    map key | key in t && !Idle(t[key], maxIdle, now) :: t[key]
  }

  lemma CleanedTable(t: Table, left: Table, maxIdle: real, now: real)
    requires forall key | key in left :: key in t && left[key] == t[key]
    requires forall key | key in t :: key in left <==> !Idle(t[key], maxIdle, now)
    ensures left == Cleanup(t, maxIdle, now)
  {
  }

  /** A bucket as the source holds it: shared by pointer and updated in place. */
  class BucketCell {
    var tokens: real
    var capacity: real
    var refillRate: real
    var lastRefill: real

    ghost function View(): Bucket
      reads this
    {
      Bucket(tokens, capacity, refillRate, lastRefill)
    }

    constructor (limit: int, now: real)
      ensures View() == FullBucket(limit, now)
    {
      tokens, capacity, refillRate, lastRefill := limit as real, limit as real, limit as real / 60.0, now;
    }

    /** Switches to `limit` when the plan has changed. */
    method Resize(limit: int)
      modifies this
      ensures View() == old(View()).Resize(limit)
    {
      if capacity != limit as real {
        capacity := limit as real;
        refillRate := limit as real / 60.0;
        if tokens > capacity {
          tokens := capacity;
        }
      }
    }

    /** The region of Allow that holds the bucket's own lock. */
    method Take(limit: int, now: real) returns (result: Result)
      requires refillRate > 0.0
      modifies this
      ensures (View(), result) == old(View()).Refill(now).Consume(limit, now)
    {
      ghost var filled := View().Refill(now);
      var elapsed := now - lastRefill;
      if elapsed > 0.0 {
        tokens := Min(capacity, tokens + elapsed * refillRate);
        lastRefill := now;
      }
      assert View() == filled;
      var tokensNeeded := capacity - tokens;
      var secondsToFull := SecondsFor(tokensNeeded, refillRate);
      if secondsToFull <= 0 {
        secondsToFull := 60;
      }
      var resetTime := now.Floor + secondsToFull;
      if tokens >= 1.0 {
        tokens := tokens - 1.0;
        return Result(true, limit, tokens.Floor, resetTime, 0);
      }
      var missing := 1.0 - tokens;
      var retryAfter := SecondsFor(missing, refillRate);
      if retryAfter < 1 {
        retryAfter := 1;
      }
      return Result(false, limit, 0, resetTime, retryAfter);
    }
  }

  class Limiter {
    var buckets: map<string, BucketCell>

    ghost predicate Distinct()
      reads this
    {
      forall k, l | k in buckets && l in buckets && k != l :: buckets[k] != buckets[l]
    }

    ghost function View(): Table
      reads this, buckets.Values
    {
      map key | key in buckets :: buckets[key].View()
    }

    ghost predicate Valid()
      reads this, buckets.Values
    {
      Distinct() && ValidTable(View())
    }

    constructor ()
      ensures Valid() && View() == map[]
    {
      buckets := map[];
    }

    method GetOrCreateBucket(key: string, limit: int, now: real) returns (b: BucketCell)
      requires Valid() && limit >= 1
      modifies this, buckets.Values
      ensures Valid() && key in buckets && buckets[key] == b
      ensures buckets.Values <= old(buckets.Values) + {b}
      ensures key in old(buckets) || fresh(b)
      ensures key in old(buckets) ==> buckets == old(buckets)
      ensures View() == old(View())[key := GetOrCreate(old(View()), key, limit, now)]
    {
      GetOrCreateIsValid(View(), key, limit, now);
      if key in buckets {
        b := buckets[key];
        b.Resize(limit);
      } else {
        b := new BucketCell(limit, now);
        buckets := buckets[key := b];
      }
      assert View() == old(View())[key := GetOrCreate(old(View()), key, limit, now)];
    }

    /** The second half of Allow, on the bucket that the first half has found. */
    method TakeFrom(key: string, limit: int, now: real) returns (result: Result)
      requires Valid() && key in buckets
      modifies buckets.Values
      ensures buckets == old(buckets)
      ensures
        var (left, r) := old(View())[key].Refill(now).Consume(limit, now);
        View() == old(View())[key := left] && result == r
    {
      var b := buckets[key];
      assert b.View() == View()[key] && b.View().Valid();
      result := b.Take(limit, now);
      assert forall k | k in buckets && k != key :: buckets[k] != b;
    }

    method Allow(key: string, limitPerMinute: int, now: real) returns (result: Result)
      requires Valid()
      modifies this, buckets.Values
      ensures Valid() && fresh(buckets.Values - old(buckets.Values))
      ensures (View(), result) == Evaluate(old(View()), key, limitPerMinute, now)
    {
      ghost var was := View();
      var limit := if limitPerMinute <= 0 then 10 else limitPerMinute;
      var b := GetOrCreateBucket(key, limit, now);
      ghost var found := View()[key];
      assert found.Valid();
      result := TakeFrom(key, limit, now);
      EvaluateInSteps(was, key, limitPerMinute, now, found);
      assert View() == was[key := found.Refill(now).Consume(limit, now).0];
    }

    /** The administrative reset of one key. */
    method Reset(key: string)
      requires Valid()
      modifies this
      ensures Valid() && View() == old(View()) - {key}
    {
      buckets := buckets - {key};
    }

    method CleanupStale(maxIdle: real, now: real) returns (removed: int)
      requires Valid()
      modifies this
      ensures Valid() && View() == Cleanup(old(View()), maxIdle, now)
      ensures removed == |old(View()).Keys| - |View().Keys|
    {
      ghost var before, was := buckets, View();
      var todo := buckets.Keys;
      removed := 0;
      while todo != {}
        invariant todo <= before.Keys && buckets.Keys <= before.Keys
        invariant forall key | key in buckets :: buckets[key] == before[key]
        invariant forall key | key in before :: key in buckets <==> key in todo || !Idle(was[key], maxIdle, now)
        invariant removed + |buckets.Keys| == |before.Keys|
        decreases todo
      {
        var key :| key in todo;
        assert buckets[key].View() == was[key];
        if now - buckets[key].lastRefill > maxIdle {
          RemovingOneKey(buckets, key);
          buckets := buckets - {key};
          removed := removed + 1;
        }
        todo := todo - {key};
      }
      assert View().Keys == buckets.Keys && was.Keys == before.Keys;
      CleanedTable(was, View(), maxIdle, now);
    }
  }
}
