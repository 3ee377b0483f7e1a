// The rate bound of the cluster is reached: every replica admits a full bucket at once, and then one call
// each time a token has been refilled.

module ClusterTightness {
  import opened TokenBuckets
  import opened TokenBucketBounds
  import opened Replicas
  import T = TokenBucketTightness

  ghost predicate AllValid(c: seq<Table>) {
    forall i | 0 <= i < |c| :: ValidTable(c[i])
  }

  lemma RestIsRouted(c: seq<Table>, i: nat, t: Table, es: seq<ClusterEvent>)
    requires i < |c| && es != [] && Routed(c, es)
    ensures Routed(c[i := t], es[1..])
  {
    assert forall j | 0 <= j < |es[1..]| :: es[1..][j] == es[j + 1];
  }

  ghost function ClusterRun(c: seq<Table>, es: seq<ClusterEvent>): (c': seq<Table>)
    requires AllValid(c) && Routed(c, es)
    ensures AllValid(c') && |c'| == |c|
    decreases |es|
  {
    if es == [] then c
    else
      var At(i, e) := es[0];
      RestIsRouted(c, i, Step(c[i], e), es);
      ClusterRun(c[i := Step(c[i], e)], es[1..])
  }

  /** The run `es` leads from `c` to `c'`, uses shares of `limit`, and admits `n` calls. */
  ghost predicate Leads(c: seq<Table>, es: seq<ClusterEvent>, c': seq<Table>, key: string, limit: int, from: real, to: real, n: nat) {
    && AllValid(c) && Routed(c, es) && ClusterClocked(from, es) && ClusterFinal(from, es) == to
    && ClusterBounded(es, key, limit, |c|) && ClusterRun(c, es) == c' && ClusterAdmissions(c, es, key) == n
  }

  lemma {:induction false} LeadsThrough(
      c: seq<Table>, xs: seq<ClusterEvent>, mid: seq<Table>, ys: seq<ClusterEvent>, c': seq<Table>,
      key: string, limit: int, from: real, via: real, to: real, m: nat, n: nat)
    requires Leads(c, xs, mid, key, limit, from, via, m) && Leads(mid, ys, c', key, limit, via, to, n)
    ensures Leads(c, xs + ys, c', key, limit, from, to, m + n)
    decreases |xs|
  {
    if xs == [] {
      assert xs + ys == ys;
    } else {
      var rest := xs[1..];
      var At(i, e) := xs[0];
      var next := c[i := Step(c[i], e)];
      RestIsRouted(c, i, Step(c[i], e), xs);
      assert (xs + ys)[1..] == rest + ys;
      assert ClusterBounded(rest, key, limit, |c|) && ShareBounded(e, key, limit, |c|);
      LeadsThrough(next, rest, mid, ys, c', key, limit, e.now, via, to, ClusterAdmissions(next, rest, key), n);
      assert Routed(c, xs + ys) && ClusterBounded(xs + ys, key, limit, |c|);
    }
  }

  lemma OneCall(c: seq<Table>, i: nat, key: string, limit: int, from: real, now: real, c': seq<Table>)
    requires i < |c| && AllValid(c) && limit >= 1 && from <= now
    requires
      var (t, r) := Evaluate(c[i], key, PerReplicaLimit(limit, |c|), now);
      r.allowed && c' == c[i := t]
    ensures AllValid(c') && Leads(c, [At(i, Call(key, PerReplicaLimit(limit, |c|), now))], c', key, limit, from, now, 1)
  {
    var e := Call(key, PerReplicaLimit(limit, |c|), now);
    var es := [At(i, e)];
    assert es[1..] == [];
    assert ClusterRun(c', []) == c' && ClusterAdmissions(c', [], key) == 0;
    assert ClusterClocked(now, []) && ClusterFinal(now, []) == now;
    assert Routed(c', []);
  }

  /** The first `i` of `n` replicas have the table `t'`, the others still `t`. */
  function Mixed(n: nat, i: nat, t: Table, t': Table): seq<Table> {
    seq(n, j => if j < i then t' else t)
  }

  /** Every replica in turn admits one call. */
  lemma {:induction false} Round(n: nat, i: nat, t: Table, t': Table, key: string, limit: int, from: real, now: real)
    returns (es: seq<ClusterEvent>)
    requires 1 <= i <= n && limit >= 1 && from <= now && ValidTable(t)
    requires
      var (after, r) := Evaluate(t, key, PerReplicaLimit(limit, n), now);
      r.allowed && after == t'
    ensures Leads(Mixed(n, 0, t, t'), es, Mixed(n, i, t, t'), key, limit, from, now, i)
    decreases i
  {
    var one := [At(i - 1, Call(key, PerReplicaLimit(limit, n), now))];
    var before := Mixed(n, i - 1, t, t');
    assert before[i - 1] == t && before[i - 1 := t'] == Mixed(n, i, t, t');
    if i == 1 {
      es := one;
      OneCall(before, 0, key, limit, from, now, Mixed(n, 1, t, t'));
    } else {
      var most := Round(n, i - 1, t, t', key, limit, from, now);
      OneCall(before, i - 1, key, limit, now, now, Mixed(n, i, t, t'));
      LeadsThrough(Mixed(n, 0, t, t'), most, before, one, Mixed(n, i, t, t'), key, limit, from, now, now, i - 1, 1);
      es := most + one;
    }
  }

  lemma OneMoreRound(n: int, k: int)
    ensures n * (k - 1) + n == n * k
  {
  }

  function Same(n: nat, t: Table): seq<Table> {
    seq(n, j => t)
  }

  /** One round after another: if a run has brought every replica to `t`, one more round brings them to `t'`. */
  lemma RoundAfter(n: nat, start: Table, before: seq<ClusterEvent>, t: Table, t': Table,
                   key: string, limit: int, via: real, now: real, m: nat) returns (es: seq<ClusterEvent>)
    requires n >= 1 && limit >= 1 && via <= now && ValidTable(t)
    requires Leads(Same(n, start), before, Same(n, t), key, limit, 0.0, via, m)
    requires
      var (after, r) := Evaluate(t, key, PerReplicaLimit(limit, n), now);
      r.allowed && after == t'
    ensures Leads(Same(n, start), es, Same(n, t'), key, limit, 0.0, now, m + n)
  {
    var round := Round(n, n, t, t', key, limit, via, now);
    assert Mixed(n, 0, t, t') == Same(n, t) && Mixed(n, n, t, t') == Same(n, t');
    LeadsThrough(Same(n, start), before, Same(n, t), round, Same(n, t'), key, limit, 0.0, via, now, m, n);
    es := before + round;
  }

  /** `k` rounds at time 0 take `k` tokens from every full bucket. */
  lemma {:induction false} Drain(n: nat, key: string, limit: int, k: nat) returns (es: seq<ClusterEvent>)
    requires n >= 1 && limit >= 1 && 1 <= k <= PerReplicaLimit(limit, n)
    ensures
      var share := PerReplicaLimit(limit, n);
      Leads(Same(n, map[]), es, Same(n, map[key := T.Holding(share, (share - k) as real, 0.0)]), key, limit, 0.0, 0.0, n * k)
    decreases k
  {
    var share := PerReplicaLimit(limit, n);
    var t' := map[key := T.Holding(share, (share - k) as real, 0.0)];
    if k == 1 {
      assert map[][key := T.Holding(share, (share - 1) as real, 0.0)] == t';
      assert ClusterAdmissions(Same(n, map[]), [], key) == 0 && ClusterRun(Same(n, map[]), []) == Same(n, map[]);
      assert ClusterClocked(0.0, []) && ClusterFinal(0.0, []) == 0.0;
      es := RoundAfter(n, map[], [], map[], t', key, limit, 0.0, 0.0, 0);
    } else {
      var before := Drain(n, key, limit, k - 1);
      var t := map[key := T.Holding(share, (share - k + 1) as real, 0.0)];
      assert t[key := T.Holding(share, (share - k) as real, 0.0)] == t';
      es := RoundAfter(n, map[], before, t, t', key, limit, 0.0, 0.0, n * (k - 1));
      OneMoreRound(n, k);
    }
  }

  /** When every replica's bucket has been empty since `last`, a round is admitted one tick later. */
  lemma RoundAtTick(n: nat, before: seq<ClusterEvent>, key: string, limit: int, last: real, now: real, m: nat)
    returns (es: seq<ClusterEvent>)
    requires n >= 1 && limit >= 1 && PerReplicaLimit(limit, n) >= 1 && now == last + 60.0 / PerReplicaLimit(limit, n) as real
    requires last <= now
    requires
      Leads(Same(n, map[]), before, Same(n, map[key := T.Holding(PerReplicaLimit(limit, n), 0.0, last)]), key, limit, 0.0, last, m)
    ensures
      Leads(Same(n, map[]), es, Same(n, map[key := T.Holding(PerReplicaLimit(limit, n), 0.0, now)]), key, limit, 0.0, now, m + n)
  {
    var share := PerReplicaLimit(limit, n);
    var t, t' := map[key := T.Holding(share, 0.0, last)], map[key := T.Holding(share, 0.0, now)];
    T.TickRefills(share, last, now);
    assert t[key := T.Holding(share, 0.0, now)] == t';
    es := RoundAfter(n, map[], before, t, t', key, limit, last, now, m);
  }

  /**
   * Whenever the shares add up to the bound's limit, the replicas reach the bound at every tick; whatever is
   * lost in dividing, they admit more there than a limit smaller by one request a replica would let them.
   */
  lemma {:induction false} ClusterBoundIsReached(n: nat, key: string, limit: int, k: nat)
    returns (es: seq<ClusterEvent>, end: real, c': seq<Table>)
    requires n >= 1 && limit >= 1
    ensures PerReplicaLimit(limit, n) >= 1 && end == T.Tick(PerReplicaLimit(limit, n), 0.0, k)
    ensures
      var share := PerReplicaLimit(limit, n);
      && c' == Same(n, map[key := T.Holding(share, 0.0, end)])
      && Leads(Same(n, map[]), es, c', key, limit, 0.0, end, n * (share + k))
      && (n * share == Max(limit, n) ==> (n * (share + k)) as real == Allowance(Max(limit, n), 0.0, end))
      && (n * (share + k)) as real > Allowance(limit - n, 0.0, end)
    decreases k
  {
    var share := PerReplicaLimit(limit, n);
    SharesAddUp(limit, n);
    end := T.Tick(share, 0.0, k);
    c' := Same(n, map[key := T.Holding(share, 0.0, end)]);
    if k == 0 {
      es := Drain(n, key, limit, share);
    } else {
      var before, last, _ := ClusterBoundIsReached(n, key, limit, k - 1);
      T.TicksGrow(share, 0.0, k - 1);
      es := RoundAtTick(n, before, key, limit, last, end, n * (share + k - 1));
      OneMoreRound(n, share + k);
    }
    AllowanceOfShares(n, share, k);
    LittleIsLost(n, limit, end);
  }

  /** The shares together allow more than the limit less one request a replica. */
  lemma LittleIsLost(n: nat, limit: int, end: real)
    requires n >= 1 && limit >= 1 && end >= 0.0
    ensures Allowance(n * PerReplicaLimit(limit, n), 0.0, end) > Allowance(limit - n, 0.0, end)
  {
    var whole, factor := n * PerReplicaLimit(limit, n), 1.0 + (end - 0.0) / 60.0;
    SharesAreFair(limit, n);
    assert whole > limit - n;
    assert (whole as real - (limit - n) as real) * factor > 0.0;
  }

  lemma AllowanceOfShares(n: nat, share: int, k: nat)
    requires share >= 1
    ensures Allowance(n * share, 0.0, T.Tick(share, 0.0, k)) == (n * (share + k)) as real
  {
    T.AllowanceAtTick(share, k);
    var factor := 1.0 + (T.Tick(share, 0.0, k) - 0.0) / 60.0;
    assert (n * share) as real == n as real * share as real;
    assert n as real * (share as real * factor) == (n as real * share as real) * factor;
    assert (n * (share + k)) as real == n as real * (share + k) as real;
  }
}
