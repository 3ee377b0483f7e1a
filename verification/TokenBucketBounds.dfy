// What the token bucket promises over whole runs: a rate bound on every interval, for one process and
// for a cluster of replicas.

module TokenBucketBounds {
  import opened Arithmetic
  import opened RateLimits
  import opened TokenBuckets
  import opened Replicas

  datatype Event =
    | Call(key: string, limitPerMinute: int, now: real)
    | Sweep(maxIdle: real, now: real)

  function Step(t: Table, e: Event): (t': Table)
    requires ValidTable(t)
    ensures ValidTable(t')
  {
    match e
    case Call(key, limit, now) => Evaluate(t, key, limit, now).0
    case Sweep(maxIdle, now) => Cleanup(t, maxIdle, now)
  }

  predicate Admits(t: Table, e: Event, key: string)
    requires ValidTable(t)
  {
    e.Call? && e.key == key && Evaluate(t, key, e.limitPerMinute, e.now).1.allowed
  }

  function Run(t: Table, es: seq<Event>): (t': Table)
    requires ValidTable(t)
    ensures ValidTable(t')
    decreases |es|
  {
    if es == [] then t
    else
      Run(Step(t, es[0]), es[1..])
  }

  function Admissions(t: Table, es: seq<Event>, key: string): nat
    requires ValidTable(t)
    decreases |es|
  {
    if es == [] then 0
    else
      (if Admits(t, es[0], key) then 1 else 0) + Admissions(Step(t, es[0]), es[1..], key)
  }

  /** The clock never goes back, starting from `t`. */
  predicate Clocked(t: real, es: seq<Event>)
    decreases |es|
  {
    es == [] || (t <= es[0].now && Clocked(es[0].now, es[1..]))
  }

  function FinalReading(t: real, es: seq<Event>): real
    decreases |es|
  {
    if es == [] then t else FinalReading(es[0].now, es[1..])
  }

  /** No bucket was refilled after `now`. */
  ghost predicate UpToDate(t: Table, now: real) {
    forall key | key in t :: t[key].lastRefill <= now
  }

  /** A limit used on `key` is at most `most`, and a sweep spares buckets used in the last minute. */
  predicate EventBounded(e: Event, key: string, most: int) {
    match e
    case Call(k, limitPerMinute, _) => k == key ==> EffectiveLimit(limitPerMinute) <= most
    case Sweep(maxIdle, _) => maxIdle >= 60.0
  }

  predicate Bounded(es: seq<Event>, key: string, most: int) {
    forall i | 0 <= i < |es| :: EventBounded(es[i], key, most)
  }

  // ---- The rate bound ----

  /** What a bucket that refills at `rate` gains between two readings. */
  function Gain(rate: real, from: real, to: real): real {
    (to - from) * rate
  }

  lemma GainsAddUp(rate: real, from: real, mid: real, to: real)
    requires from <= mid <= to && rate >= 0.0
    ensures Gain(rate, from, to) == Gain(rate, from, mid) + Gain(rate, mid, to)
    ensures Gain(rate, from, mid) >= 0.0 && Gain(rate, mid, to) >= 0.0
  {
  }

  lemma SlowerGain(rate: real, faster: real, from: real, to: real)
    requires from <= to && rate <= faster
    ensures Gain(rate, from, to) <= Gain(faster, from, to)
  {
  }

  /** The tokens a bucket could hold at `now` if it refilled at the rate of the largest limit, `most`. */
  function BucketPotential(b: Bucket, most: real, now: real): real {
    Min(most, b.tokens + Gain(most / 60.0, b.lastRefill, now))
  }

  function Potential(t: Table, key: string, most: real, now: real): real {
    if key in t then BucketPotential(t[key], most, now) else most
  }

  lemma PotentialGrowsAtTheRate(t: Table, key: string, most: real, now: real, later: real)
    requires UpToDate(t, now) && now <= later && most >= 1.0
    ensures Potential(t, key, most, later) <= Potential(t, key, most, now) + Gain(most / 60.0, now, later)
  {
    if key in t {
      GainsAddUp(most / 60.0, t[key].lastRefill, now, later);
    } else {
      GainsAddUp(most / 60.0, now, now, later);
    }
  }

  lemma RefillStaysWithinPotential(b: Bucket, most: real, now: real)
    requires b.Valid() && b.capacity <= most && b.lastRefill <= now
    ensures b.Refill(now).lastRefill == now
    ensures b.Refill(now).tokens <= BucketPotential(b, most, now)
  {
    SlowerGain(b.refillRate, most / 60.0, b.lastRefill, now);
  }

  lemma IdleBucketsAreFull(b: Bucket, most: real, now: real)
    requires b.Valid() && most >= 1.0 && now - b.lastRefill >= 60.0
    ensures BucketPotential(b, most, now) == most
  {
    GainsAddUp(most / 60.0, b.lastRefill, b.lastRefill + 60.0, now);
  }

  /** An admission costs one unit of potential, and a call creates none. */
  lemma CallSpendsPotential(t: Table, key: string, limitPerMinute: int, now: real, most: real)
    requires ValidTable(t) && UpToDate(t, now) && EffectiveLimit(limitPerMinute) as real <= most
    ensures
      var (t', result) := Evaluate(t, key, limitPerMinute, now);
      && t'[key].lastRefill == now
      && Potential(t', key, most, now) + (if result.allowed then 1.0 else 0.0) <= Potential(t, key, most, now)
  {
    var limit := EffectiveLimit(limitPerMinute);
    var found := GetOrCreate(t, key, limit, now);
    GetOrCreateIsValid(t, key, limit, now);
    RefillStaysWithinPotential(found, most, now);
    assert BucketPotential(found, most, now) <= Potential(t, key, most, now);
  }

  /** The same for any event: sweeps of buckets that have been idle for a minute create no potential either. */
  lemma StepSpendsPotential(t: Table, e: Event, key: string, most: int)
    requires ValidTable(t) && UpToDate(t, e.now) && EventBounded(e, key, most) && most >= 1
    ensures UpToDate(Step(t, e), e.now)
    ensures Potential(Step(t, e), key, most as real, e.now) + (if Admits(t, e, key) then 1.0 else 0.0)
         <= Potential(t, key, most as real, e.now)
  {
    match e
    case Call(k, limitPerMinute, now) =>
      CallSpendsPotential(t, k, limitPerMinute, now, if k == key then most as real else EffectiveLimit(limitPerMinute) as real);
    case Sweep(maxIdle, now) =>
      if key in t && Idle(t[key], maxIdle, now) {
        IdleBucketsAreFull(t[key], most as real, now);
      }
  }

  lemma {:induction false} RunSpendsPotential(t: Table, es: seq<Event>, key: string, most: int, from: real)
    requires ValidTable(t) && UpToDate(t, from) && Clocked(from, es) && Bounded(es, key, most) && most >= 1
    ensures UpToDate(Run(t, es), FinalReading(from, es)) && from <= FinalReading(from, es)
    ensures Admissions(t, es, key) as real + Potential(Run(t, es), key, most as real, FinalReading(from, es))
         <= Potential(t, key, most as real, from) + Gain(most as real / 60.0, from, FinalReading(from, es))
    decreases |es|
  {
    if es != [] {
      var e := es[0];
      PotentialGrowsAtTheRate(t, key, most as real, from, e.now);
      StepSpendsPotential(t, e, key, most);
      RunSpendsPotential(Step(t, e), es[1..], key, most, e.now);
      GainsAddUp(most as real / 60.0, from, e.now, FinalReading(from, es));
    }
  }

  lemma PotentialIsBounded(t: Table, key: string, most: real, now: real)
    requires ValidTable(t) && UpToDate(t, now) && most >= 1.0
    ensures 0.0 <= Potential(t, key, most, now) <= most
  {
    if key in t {
      GainsAddUp(most / 60.0, t[key].lastRefill, now, now);
    }
  }

  /** What a limit of `most` a minute allows between two readings: one full bucket, and the refill meanwhile. */
  function Allowance(most: int, from: real, to: real): real {
    most as real * (1.0 + (to - from) / 60.0)
  }

  lemma AllowanceIsBurstAndGain(most: int, from: real, to: real)
    ensures Allowance(most, from, to) == most as real + Gain(most as real / 60.0, from, to)
  {
    var m, T := most as real, to - from;
    assert m * (1.0 + T / 60.0) == m + m * (T / 60.0);
    assert m * (T / 60.0) == T * (m / 60.0);
  }

  /**
   * From any table, in any stretch of `T` seconds, at most `most * (1 + T/60)` calls on a key are
   * admitted, whatever plan changes up to `most`, other keys and sweeps happen meanwhile.
   */
  lemma RateBound(t: Table, es: seq<Event>, key: string, most: int, from: real)
    requires ValidTable(t) && UpToDate(t, from) && Clocked(from, es) && Bounded(es, key, most) && most >= 1
    ensures Admissions(t, es, key) as real <= Allowance(most, from, FinalReading(from, es))
  {
    RunSpendsPotential(t, es, key, most, from);
    PotentialIsBounded(t, key, most as real, from);
    PotentialIsBounded(Run(t, es), key, most as real, FinalReading(from, es));
    AllowanceIsBurstAndGain(most, from, FinalReading(from, es));
  }

  // ---- Replicas ----

  datatype ClusterEvent = At(replica: nat, event: Event)

  ghost predicate ValidCluster(c: seq<Table>, now: real) {
    forall i | 0 <= i < |c| :: ValidTable(c[i]) && UpToDate(c[i], now)
  }

  predicate Routed(c: seq<Table>, es: seq<ClusterEvent>) {
    forall i | 0 <= i < |es| :: es[i].replica < |c|
  }

  /** The clock of the whole cluster never goes back. */
  predicate ClusterClocked(t: real, es: seq<ClusterEvent>)
    decreases |es|
  {
    es == [] || (t <= es[0].event.now && ClusterClocked(es[0].event.now, es[1..]))
  }

  function ClusterFinal(t: real, es: seq<ClusterEvent>): real
    decreases |es|
  {
    if es == [] then t else ClusterFinal(es[0].event.now, es[1..])
  }

  /** A replica uses its share of some plan limit of at most `limit`. */
  ghost predicate ShareBounded(e: Event, key: string, limit: int, replicas: int) {
    match e
    case Call(k, l, _) => k == key ==> exists plan | 1 <= plan <= limit :: l == PerReplicaLimit(plan, replicas)
    case Sweep(maxIdle, _) => maxIdle >= 60.0
  }

  ghost predicate ClusterBounded(es: seq<ClusterEvent>, key: string, limit: int, replicas: int) {
    forall i | 0 <= i < |es| :: ShareBounded(es[i].event, key, limit, replicas)
  }

  lemma ShareIsBounded(e: Event, key: string, limit: int, replicas: int)
    requires limit >= 1 && replicas >= 1 && ShareBounded(e, key, limit, replicas)
    ensures EventBounded(e, key, PerReplicaLimit(limit, replicas))
  {
    if e.Call? && e.key == key {
      var plan :| 1 <= plan <= limit && e.limitPerMinute == PerReplicaLimit(plan, replicas);
      SharesAreMonotone(plan, limit, replicas);
    }
  }

  function ClusterAdmissions(c: seq<Table>, es: seq<ClusterEvent>, key: string): nat
    requires forall i | 0 <= i < |c| :: ValidTable(c[i])
    requires Routed(c, es)
    decreases |es|
  {
    if es == [] then 0
    else
      var At(i, e) := es[0];
      assert forall j | 0 <= j < |es[1..]| :: es[1..][j] == es[j + 1];
      (if Admits(c[i], e, key) then 1 else 0) + ClusterAdmissions(c[i := Step(c[i], e)], es[1..], key)
  }

  function ClusterPotential(c: seq<Table>, key: string, most: real, now: real): real {
    if c == [] then 0.0
    else ClusterPotential(c[..|c| - 1], key, most, now) + Potential(c[|c| - 1], key, most, now)
  }

  lemma {:induction false} ClusterGrowsAtTheRate(c: seq<Table>, key: string, most: real, now: real, later: real)
    requires ValidCluster(c, now) && now <= later && most >= 1.0
    ensures ClusterPotential(c, key, most, later)
         <= ClusterPotential(c, key, most, now) + Times(|c|, Gain(most / 60.0, now, later))
  {
    if c != [] {
      assert ValidCluster(c[..|c| - 1], now);
      ClusterGrowsAtTheRate(c[..|c| - 1], key, most, now, later);
      PotentialGrowsAtTheRate(c[|c| - 1], key, most, now, later);
    }
  }

  lemma {:induction false} ClusterUpdate(c: seq<Table>, i: nat, t: Table, key: string, most: real, now: real)
    requires i < |c|
    ensures ClusterPotential(c[i := t], key, most, now) - ClusterPotential(c, key, most, now)
         == Potential(t, key, most, now) - Potential(c[i], key, most, now)
  {
    var last := |c| - 1;
    if i == last {
      assert c[i := t][..last] == c[..last];
    } else {
      assert c[i := t][..last] == c[..last][i := t];
      ClusterUpdate(c[..last], i, t, key, most, now);
    }
  }

  lemma {:induction false} ClusterIsBounded(c: seq<Table>, key: string, most: real, now: real)
    requires ValidCluster(c, now) && most >= 1.0
    ensures 0.0 <= ClusterPotential(c, key, most, now) <= Times(|c|, most)
  {
    if c != [] {
      assert ValidCluster(c[..|c| - 1], now);
      ClusterIsBounded(c[..|c| - 1], key, most, now);
      PotentialIsBounded(c[|c| - 1], key, most, now);
    }
  }

  /** One event of the cluster, at the replica it was routed to. */
  lemma ClusterStepSpends(c: seq<Table>, i: nat, e: Event, key: string, most: int)
    requires i < |c| && ValidCluster(c, e.now) && EventBounded(e, key, most) && most >= 1
    ensures ValidCluster(c[i := Step(c[i], e)], e.now)
    ensures ClusterPotential(c[i := Step(c[i], e)], key, most as real, e.now) + (if Admits(c[i], e, key) then 1.0 else 0.0)
         <= ClusterPotential(c, key, most as real, e.now)
  {
    StepSpendsPotential(c[i], e, key, most);
    ClusterUpdate(c, i, Step(c[i], e), key, most as real, e.now);
  }

  /** One event of the cluster after `from`, and what its replicas gain meanwhile. */
  lemma ClusterStepAfter(c: seq<Table>, i: nat, e: Event, key: string, most: int, from: real, to: real)
    requires i < |c| && ValidCluster(c, from) && from <= e.now <= to && EventBounded(e, key, most) && most >= 1
    ensures ValidCluster(c[i := Step(c[i], e)], e.now)
    ensures
      var rate := most as real / 60.0;
      ClusterPotential(c[i := Step(c[i], e)], key, most as real, e.now) + (if Admits(c[i], e, key) then 1.0 else 0.0)
      + Times(|c|, Gain(rate, e.now, to))
      <= ClusterPotential(c, key, most as real, from) + Times(|c|, Gain(rate, from, to))
  {
    var rate := most as real / 60.0;
    ClusterGrowsAtTheRate(c, key, most as real, from, e.now);
    ClusterStepSpends(c, i, e, key, most);
    GainsAddUp(rate, from, e.now, to);
    TimesAdds(|c|, Gain(rate, from, e.now), Gain(rate, e.now, to));
  }

  lemma {:induction false} ClusterReadingsGrow(from: real, es: seq<ClusterEvent>)
    requires ClusterClocked(from, es)
    ensures from <= ClusterFinal(from, es)
    decreases |es|
  {
    if es != [] {
      ClusterReadingsGrow(es[0].event.now, es[1..]);
    }
  }

  lemma {:induction false} ClusterSpends(c: seq<Table>, es: seq<ClusterEvent>, key: string, limit: int, from: real)
    requires |c| >= 1 && limit >= 1
    requires ValidCluster(c, from) && Routed(c, es) && ClusterClocked(from, es)
    requires ClusterBounded(es, key, limit, |c|)
    ensures from <= ClusterFinal(from, es)
    ensures
      var most := PerReplicaLimit(limit, |c|) as real;
      ClusterAdmissions(c, es, key) as real
      <= ClusterPotential(c, key, most, from) + Times(|c|, Gain(most / 60.0, from, ClusterFinal(from, es)))
    decreases |es|
  {
    var most := PerReplicaLimit(limit, |c|);
    SharesAreMonotone(limit, limit, |c|);
    ClusterReadingsGrow(from, es);
    if es == [] {
      ClusterIsBounded(c, key, most as real, from);
      TimesIsProduct(|c|, Gain(most as real / 60.0, from, from));
    } else {
      var At(i, e) := es[0];
      ClusterReadingsGrow(e.now, es[1..]);
      ShareIsBounded(e, key, limit, |c|);
      ClusterStepAfter(c, i, e, key, most, from, ClusterFinal(from, es));
      assert forall j | 0 <= j < |es[1..]| :: es[1..][j] == es[j + 1];
      ClusterSpends(c[i := Step(c[i], e)], es[1..], key, limit, e.now);
    }
  }

  lemma ClusterTotal(c: seq<Table>, es: seq<ClusterEvent>, key: string, limit: int, share: int, from: real, end: real)
    requires |c| >= 1 && limit >= 1
    requires ValidCluster(c, from) && Routed(c, es) && ClusterClocked(from, es)
    requires ClusterBounded(es, key, limit, |c|)
    requires share == PerReplicaLimit(limit, |c|) && end == ClusterFinal(from, es)
    ensures from <= end
    ensures ClusterAdmissions(c, es, key) as real
         <= Times(|c|, share as real) + Times(|c|, Gain(share as real / 60.0, from, end))
  {
    SharesAreMonotone(limit, limit, |c|);
    ClusterSpends(c, es, key, limit, from);
    ClusterIsBounded(c, key, share as real, from);
  }

  /**
   * `N` replicas that each enforce their share admit together at most `max(limit, N) * (1 + T/60)`
   * calls on a key in any `T` seconds, however the calls are routed.
   */
  lemma ClusterRateBound(c: seq<Table>, es: seq<ClusterEvent>, key: string, limit: int, from: real)
    requires |c| >= 1 && limit >= 1
    requires ValidCluster(c, from) && Routed(c, es) && ClusterClocked(from, es)
    requires ClusterBounded(es, key, limit, |c|)
    ensures ClusterAdmissions(c, es, key) as real <= Allowance(Max(limit, |c|), from, ClusterFinal(from, es))
  {
    var end := ClusterFinal(from, es);
    ClusterTotal(c, es, key, limit, PerReplicaLimit(limit, |c|), from, end);
    ScaledShares(|c|, limit, from, end);
  }

  lemma ScaledShares(n: int, limit: int, from: real, to: real)
    requires n >= 1 && limit >= 1 && from <= to
    ensures Times(n, PerReplicaLimit(limit, n) as real)
          + Times(n, Gain(PerReplicaLimit(limit, n) as real / 60.0, from, to))
         <= Allowance(Max(limit, n), from, to)
  {
    SharesAddUp(limit, n);
    ScaledBound(n, PerReplicaLimit(limit, n), Max(limit, n), from, to);
  }

  lemma ScaledBound(n: nat, share: int, most: int, from: real, to: real)
    requires n * share <= most && from <= to
    ensures Times(n, share as real) + Times(n, Gain(share as real / 60.0, from, to))
         <= Allowance(most, from, to)
  {
    var T := to - from;
    TimesIsProduct(n, share as real);
    TimesIsProduct(n, Gain(share as real / 60.0, from, to));
    var total := n as real * share as real;
    assert total == (n * share) as real;
    assert n as real * (T * (share as real / 60.0)) == total * (T / 60.0);
    var factor := 1.0 + T / 60.0;
    assert total * factor <= most as real * factor;
  }
}
