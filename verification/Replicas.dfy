// How a plan limit is divided among the API replicas that share the load.

module Replicas {
  import opened Arithmetic

  function Max(x: int, y: int): int {
    if x >= y then x else y
  }

  /** The share of a plan limit that one of `replicas` processes enforces; Go's division truncates. */
  function PerReplicaLimit(limit: int, replicas: int): int {
    if replicas <= 1 then limit
    else
      var divided := if limit >= 0 then limit / replicas else -(-limit / replicas);
      if divided >= 1 then divided else 1
  }

  /** The shares of all replicas come to no more than the limit, or one request each when that is more. */
  lemma SharesAddUp(limit: int, replicas: int)
    requires limit >= 1 && replicas >= 1
    ensures 1 <= PerReplicaLimit(limit, replicas)
    ensures replicas * PerReplicaLimit(limit, replicas) <= Max(limit, replicas)
  {
    assert replicas * (limit / replicas) <= limit;
  }

  /** All of the limit is handed out but for less than one request a replica; below one each, every replica gets one. */
  lemma SharesAreFair(limit: int, replicas: int)
    ensures replicas <= 1 ==> PerReplicaLimit(limit, replicas) == limit
    ensures replicas >= 1 && limit >= replicas ==> limit - replicas < replicas * PerReplicaLimit(limit, replicas) <= limit
    ensures replicas >= 2 && limit < replicas ==> PerReplicaLimit(limit, replicas) == 1
  {
    if replicas >= 2 {
      if limit >= 0 {
        DivisionRoundsDown(limit, replicas);
      } else {
        DivisionRoundsDown(-limit, replicas);
      }
    }
  }

  lemma DivisionRoundsDown(x: int, d: int)
    requires x >= 0 && d >= 1
    ensures x / d >= 0 && x - d < d * (x / d) <= x
    ensures x / d >= 1 <==> x >= d
  {
    var q := x / d;
    assert x == q * d + x % d;
    if q >= 1 {
      assert (q - 1) * d >= 0;
    } else {
      assert q == 0;
    }
  }

  lemma SharesAreMonotone(plan: int, limit: int, replicas: int)
    requires 1 <= plan <= limit && replicas >= 1
    ensures 1 <= PerReplicaLimit(plan, replicas) <= PerReplicaLimit(limit, replicas)
  {
    QuotientsAreMonotone(plan, limit, replicas);
  }
}
