// The rate bound of the token bucket is reached: an empty limiter admits a full bucket at once, and then
// one call each time a token has been refilled.

module TokenBucketTightness {
  import opened Arithmetic
  import opened TokenBuckets
  import opened TokenBucketBounds

  /** A bucket for `limit` calls a minute that holds `tokens`. */
  function Holding(limit: int, tokens: real, last: real): Bucket {
    Bucket(tokens, limit as real, limit as real / 60.0, last)
  }

  /** When the `n`-th token since `start` has been refilled. */
  function Tick(limit: int, start: real, n: nat): real
    requires limit >= 1
  {
    start + Times(n, 60.0 / limit as real)
  }

  lemma TicksGrow(limit: int, start: real, n: nat)
    requires limit >= 1
    ensures start <= Tick(limit, start, n) <= Tick(limit, start, n + 1) == Tick(limit, start, n) + 60.0 / limit as real
    ensures 60.0 / limit as real > 0.0
  {
    TimesIsProduct(n, 60.0 / limit as real);
    assert n as real * (60.0 / limit as real) >= 0.0;
  }

  lemma OneTokenPerTick(x: real)
    requires x > 0.0
    ensures (60.0 / x) * (x / 60.0) == 1.0
  {
    var q := 60.0 / x;
    assert q * x == 60.0;
    assert q * (x / 60.0) == q * x / 60.0;
  }

  lemma TickRefills(limit: int, last: real, now: real)
    requires limit >= 1 && now == last + 60.0 / limit as real
    ensures Holding(limit, 0.0, last).Refill(now) == Holding(limit, 1.0, now)
  {
    OneTokenPerTick(limit as real);
    assert (now - last) * (limit as real / 60.0) == 1.0;
  }

  /** What is allowed up to the `n`-th tick is a full bucket and `n` more. */
  lemma AllowanceAtTick(limit: int, n: nat)
    requires limit >= 1
    ensures Allowance(limit, 0.0, Tick(limit, 0.0, n)) == (limit + n) as real
  {
    var x, T := limit as real, Tick(limit, 0.0, n);
    AllowanceIsBurstAndGain(limit, 0.0, T);
    TimesIsProduct(n, 60.0 / x);
    OneTokenPerTick(x);
    assert T * (x / 60.0) == n as real * ((60.0 / x) * (x / 60.0));
  }

  /** The run `es` leads from `t` to `t'`, stays within the limit, and admits `n` calls. */
  ghost predicate Leads(t: Table, es: seq<Event>, t': Table, key: string, limit: int, from: real, to: real, n: nat)
    requires ValidTable(t)
  {
    && Clocked(from, es) && FinalReading(from, es) == to && Bounded(es, key, limit)
    && Run(t, es) == t' && Admissions(t, es, key) == n
  }

  lemma {:induction false} LeadsThrough(
      t: Table, xs: seq<Event>, mid: Table, ys: seq<Event>, t': Table,
      key: string, limit: int, from: real, via: real, to: real, m: nat, n: nat)
    requires ValidTable(t) && ValidTable(mid)
    requires Leads(t, xs, mid, key, limit, from, via, m) && Leads(mid, ys, t', key, limit, via, to, n)
    ensures Leads(t, xs + ys, t', key, limit, from, to, m + n)
    decreases |xs|
  {
    if xs == [] {
      assert xs + ys == ys;
    } else {
      var rest, e := xs[1..], xs[0];
      assert (xs + ys)[1..] == rest + ys;
      assert Bounded(rest, key, limit) && EventBounded(e, key, limit);
      LeadsThrough(Step(t, e), rest, mid, ys, t', key, limit, e.now, via, to, Admissions(Step(t, e), rest, key), n);
      assert Bounded(xs + ys, key, limit);
    }
  }

  lemma OneCall(t: Table, key: string, limit: int, from: real, now: real, tokens: real)
    requires ValidTable(t) && limit >= 1 && from <= now && tokens >= 1.0
    requires GetOrCreate(t, key, limit, now).Refill(now) == Holding(limit, tokens, now)
    ensures Leads(t, [Call(key, limit, now)], t[key := Holding(limit, tokens - 1.0, now)], key, limit, from, now, 1)
  {
    var e := Call(key, limit, now);
    assert [e][1..] == [];
    assert Clocked(now, []) && FinalReading(now, []) == now;
    assert Run(Step(t, e), []) == Step(t, e) && Admissions(Step(t, e), [], key) == 0;
  }

  /** A full bucket is created and emptied at one instant. */
  lemma {:induction false} Drain(key: string, limit: int, now: real, n: nat) returns (es: seq<Event>)
    requires 1 <= n <= limit
    ensures Leads(map[], es, map[key := Holding(limit, (limit - n) as real, now)], key, limit, now, now, n)
  {
    if n == 1 {
      es := [Call(key, limit, now)];
      OneCall(map[], key, limit, now, now, limit as real);
      assert map[][key := Holding(limit, (limit - 1) as real, now)] == map[key := Holding(limit, (limit - 1) as real, now)];
    } else {
      var most := Drain(key, limit, now, n - 1);
      var t, t' := map[key := Holding(limit, (limit - n + 1) as real, now)], map[key := Holding(limit, (limit - n) as real, now)];
      OneCall(t, key, limit, now, now, (limit - n + 1) as real);
      assert t[key := Holding(limit, (limit - n) as real, now)] == t';
      LeadsThrough(map[], most, t, [Call(key, limit, now)], t', key, limit, now, now, now, n - 1, 1);
      es := most + [Call(key, limit, now)];
    }
  }

  /** After that one call is admitted at every tick. */
  lemma {:induction false} RateBoundIsReached(key: string, limit: int, n: nat) returns (es: seq<Event>)
    requires limit >= 1
    ensures
      var end := Tick(limit, 0.0, n);
      && Leads(map[], es, map[key := Holding(limit, 0.0, end)], key, limit, 0.0, end, limit + n)
      && (limit + n) as real == Allowance(limit, 0.0, end)
    decreases n
  {
    AllowanceAtTick(limit, n);
    if n == 0 {
      es := Drain(key, limit, 0.0, limit);
    } else {
      var before := RateBoundIsReached(key, limit, n - 1);
      var last, end := Tick(limit, 0.0, n - 1), Tick(limit, 0.0, n);
      var t := map[key := Holding(limit, 0.0, last)];
      TicksGrow(limit, 0.0, n - 1);
      TickRefills(limit, last, end);
      OneCall(t, key, limit, last, end, 1.0);
      assert t[key := Holding(limit, 0.0, end)] == map[key := Holding(limit, 0.0, end)];
      LeadsThrough(map[], before, t, [Call(key, limit, end)], map[key := Holding(limit, 0.0, end)],
                   key, limit, 0.0, last, end, limit + n - 1, 1);
      es := before + [Call(key, limit, end)];
    }
  }
}
