// Admissions out of swept buckets. A call that has looked its bucket up before a sweep takes from it
// afterwards, so a sweep can add to what is admitted. This module bounds by how much.

module TokenBucketStrays {
  import opened Arithmetic
  import opened Options
  import opened TokenBuckets
  import B = TokenBucketBounds
  import opened TokenBucketRaces

  /** The sweep drops the bucket of `key`. */
  predicate Drops(w: World, e: Event, key: string, delay: real)
    requires Shaped(w) && Enabled(w, e, delay)
  {
    key in w.index && key !in Step(w, e, delay).index
  }

  /** Some call holds the `c`-th bucket. */
  ghost predicate Held(w: World, c: nat) {
    exists id | id in w.pending :: w.pending[id].cell == Some(c)
  }

  /** The `c`-th bucket was one of `key`, has been dropped, and is still held by some call. */
  ghost predicate IsStray(w: World, key: string, c: nat)
    requires c < |w.cells|
  {
    w.cells[c].key == key && (key in w.index ==> w.index[key] != c) && Held(w, c)
  }

  /** How many of the first `n` buckets are strays. */
  ghost function StrayBuckets(w: World, key: string, n: nat): nat
    requires n <= |w.cells|
  {
    if n == 0 then 0 else StrayBuckets(w, key, n - 1) + (if IsStray(w, key, n - 1) then 1 else 0)
  }

  /** How often the run drops a bucket of `key` that some call holds. */
  ghost function HeldDrops(w: World, es: seq<Event>, key: string, delay: real): nat
    requires Shaped(w) && Legal(w, es, delay)
    decreases |es|
  {
    if es == [] then 0
    else
      StepIsShaped(w, es[0], delay);
      (if Drops(w, es[0], key, delay) && Held(w, w.index[key]) then 1 else 0)
      + HeldDrops(Step(w, es[0], delay), es[1..], key, delay)
  }

  // ---- The potential of strays ----

  /**
   * `frozen[c]` is a time after every reading that can still reach the stray `c`: it was dropped by then,
   * and nobody has looked it up since.
   */
  ghost predicate Frozen(w: World, key: string, frozen: seq<real>, at: real) {
    && |frozen| == |w.cells|
    && (forall c | 0 <= c < |frozen| && IsStray(w, key, c) :: w.cells[c].bucket.lastRefill <= frozen[c] <= at)
    && (forall id | id in w.pending && w.pending[id].cell.Some? ::
          var c := w.pending[id].cell.value;
          c < |w.cells| && (IsStray(w, key, c) ==> w.pending[id].now <= frozen[c]))
  }

  ghost function StrayPotential(w: World, key: string, most: real, delay: real, frozen: seq<real>, n: nat): real
    requires n <= |w.cells| && n <= |frozen|
  {
    if n == 0 then 0.0
    else
      StrayPotential(w, key, most, delay, frozen, n - 1)
      + (if IsStray(w, key, n - 1) then CellPotential(w.cells[n - 1].bucket, most, delay, frozen[n - 1]) else 0.0)
  }

  lemma CellPotentialRange(b: Bucket, most: real, delay: real, at: real)
    requires b.Valid() && most >= 1.0 && delay >= 0.0 && b.lastRefill <= at
    ensures 0.0 <= CellPotential(b, most, delay, at) <= Ceiling(most, delay)
  {
    B.GainsAddUp(most / 60.0, 0.0, 0.0, delay);
    B.GainsAddUp(most / 60.0, b.lastRefill, b.lastRefill, at);
  }

  lemma {:induction false} StrayPotentialRange(w: World, key: string, most: real, delay: real, frozen: seq<real>, at: real, n: nat)
    requires Shaped(w) && Frozen(w, key, frozen, at) && most >= 1.0 && delay >= 0.0 && n <= |w.cells|
    ensures 0.0 <= StrayPotential(w, key, most, delay, frozen, n) <= Times(StrayBuckets(w, key, n), Ceiling(most, delay))
    decreases n
  {
    if n > 0 {
      StrayPotentialRange(w, key, most, delay, frozen, at, n - 1);
      if IsStray(w, key, n - 1) {
        CellPotentialRange(w.cells[n - 1].bucket, most, delay, frozen[n - 1]);
      }
    }
  }

  /** What `c` contributes. */
  ghost function Share(w: World, key: string, most: real, delay: real, frozen: seq<real>, c: nat): real
    requires c < |w.cells| && c < |frozen|
  {
    if IsStray(w, key, c) then CellPotential(w.cells[c].bucket, most, delay, frozen[c]) else 0.0
  }

  /** If only the `c`-th bucket contributes more, the sum grows by no more than that. */
  lemma {:induction false} OneShareChanges(
      w: World, w': World, key: string, most: real, delay: real, frozen: seq<real>, frozen': seq<real>, c: nat, more: real, n: nat)
    requires n <= |w.cells| <= |w'.cells| && |frozen| == |w.cells| && |frozen'| == |w'.cells|
    requires forall i | 0 <= i < n && i != c ::
      Share(w', key, most, delay, frozen', i) <= Share(w, key, most, delay, frozen, i)
    requires c < n ==> Share(w', key, most, delay, frozen', c) <= Share(w, key, most, delay, frozen, c) + more
    ensures StrayPotential(w', key, most, delay, frozen', n)
         <= StrayPotential(w, key, most, delay, frozen, n) + (if c < n then more else 0.0)
    decreases n
  {
    if n > 0 {
      OneShareChanges(w, w', key, most, delay, frozen, frozen', c, more, n - 1);
      assert Share(w', key, most, delay, frozen', n - 1) <= Share(w, key, most, delay, frozen, n - 1) + (if c == n - 1 then more else 0.0);
    }
  }

  ghost function Total(w: World, key: string, most: int, delay: real, frozen: seq<real>): real
    requires |frozen| == |w.cells|
  {
    StrayPotential(w, key, most as real, delay, frozen, |w.cells|)
  }

  // ---- What each step does to it ----

  /** The step makes no stray, and no stray's potential grows; `c` is the bucket it works on. */
  lemma NothingGrows(w: World, w': World, key: string, most: int, delay: real, frozen: seq<real>, at: real)
    requires Inv(w, key, most, at) && Frozen(w, key, frozen, at) && most >= 1 && delay >= 0.0
    requires |w'.cells| == |w.cells|
    requires forall i | 0 <= i < |w.cells| && IsStray(w', key, i) ::
      IsStray(w, key, i) && w'.cells[i].bucket.lastRefill == w.cells[i].bucket.lastRefill
      && w'.cells[i].bucket.tokens <= w.cells[i].bucket.tokens
    ensures Total(w', key, most, delay, frozen) <= Total(w, key, most, delay, frozen)
  {
    var limit := most as real;
    forall i | 0 <= i < |w.cells|
      ensures Share(w', key, limit, delay, frozen, i) <= Share(w, key, limit, delay, frozen, i)
    {
      if IsStray(w, key, i) {
        CellPotentialRange(w.cells[i].bucket, limit, delay, frozen[i]);
      }
    }
    OneShareChanges(w, w', key, limit, delay, frozen, frozen, 0, 0.0, |w.cells|);
  }

  /** Holding a key's current bucket makes no stray. */
  lemma NewHolder(w: World, w': World, key: string, id: nat, p: Pending)
    requires Shaped(w) && Shaped(w') && w'.index == w.index && w'.cells == w.cells && w'.pending == w.pending[id := p]
    requires id in w.pending ==> w.pending[id].cell == None
    requires p.cell.Some? ==> p.key in w.index && w.index[p.key] == p.cell.value
    ensures forall c | 0 <= c < |w.cells| :: IsStray(w', key, c) <==> IsStray(w, key, c)
  {
    forall c | 0 <= c < |w.cells| ensures IsStray(w', key, c) <==> IsStray(w, key, c) {
      if Held(w, c) {
        var other :| other in w.pending && w.pending[other].cell == Some(c);
        assert w'.pending[other].cell == Some(c);
      }
      if IsStray(w', key, c) {
        var other :| other in w'.pending && w'.pending[other].cell == Some(c);
        assert other != id;
        assert w.pending[other].cell == Some(c);
      }
    }
  }

  lemma LookStrays(w: World, e: Event, key: string, most: int, delay: real, frozen: seq<real>)
    requires Inv(w, key, most, e.at) && Frozen(w, key, frozen, e.at) && Enabled(w, e, delay) && e.Look?
    requires most >= 1 && delay >= 0.0
    ensures
      var w' := Step(w, e, delay);
      Frozen(w', key, frozen, e.at) && Total(w', key, most, delay, frozen) <= Total(w, key, most, delay, frozen)
  {
    var w' := Step(w, e, delay);
    StepIsShaped(w, e, delay);
    NewHolder(w, w', key, e.id, w'.pending[e.id]);
    NothingGrows(w, w', key, most, delay, frozen, e.at);
  }

  /** The look-up missed, but the bucket has been made meanwhile. */
  lemma AdoptMadeStrays(w: World, id: nat, at: real, key: string, most: int, delay: real, frozen: seq<real>)
    requires Inv(w, key, most, at) && Frozen(w, key, frozen, at) && Enabled(w, Adopt(id, at), delay)
    requires most >= 1 && delay >= 0.0 && w.pending[id].cell.None? && w.pending[id].key in w.index
    ensures
      var w' := Step(w, Adopt(id, at), delay);
      Frozen(w', key, frozen, at) && Total(w', key, most, delay, frozen) <= Total(w, key, most, delay, frozen)
  {
    var w' := Step(w, Adopt(id, at), delay);
    StepIsShaped(w, Adopt(id, at), delay);
    NewHolder(w, w', key, id, w'.pending[id]);
    NothingGrows(w, w', key, most, delay, frozen, at);
  }

  lemma AdoptFoundStrays(w: World, id: nat, at: real, key: string, most: int, delay: real, frozen: seq<real>)
    requires Inv(w, key, most, at) && Frozen(w, key, frozen, at) && Enabled(w, Adopt(id, at), delay)
    requires most >= 1 && delay >= 0.0 && w.pending[id].cell.Some?
    ensures
      var w' := Step(w, Adopt(id, at), delay);
      Frozen(w', key, frozen, at) && Total(w', key, most, delay, frozen) <= Total(w, key, most, delay, frozen)
  {
    var w' := Step(w, Adopt(id, at), delay);
    forall c | 0 <= c < |w.cells| ensures IsStray(w', key, c) <==> IsStray(w, key, c) {
      if Held(w, c) {
        var other :| other in w.pending && w.pending[other].cell == Some(c);
        assert w'.pending[other].cell == Some(c);
      }
      if Held(w', c) {
        var other :| other in w'.pending && w'.pending[other].cell == Some(c);
        assert w.pending[other].cell == Some(c);
      }
    }
    NothingGrows(w, w', key, most, delay, frozen, at);
  }

  /** Making a bucket makes no stray. */
  lemma NewBucket(w: World, w': World, key: string, id: nat, p: Pending, made: Cell)
    requires Shaped(w) && p.key !in w.index && (id in w.pending ==> w.pending[id].cell == None)
    requires w' == World(w.index[p.key := |w.cells|], w.cells + [made], w.pending[id := p])
    requires p.cell == Some(|w.cells|) && made.key == p.key
    ensures forall c | 0 <= c < |w.cells| :: IsStray(w', key, c) <==> IsStray(w, key, c)
    ensures !IsStray(w', key, |w.cells|)
  {
    forall c | 0 <= c < |w.cells| ensures IsStray(w', key, c) <==> IsStray(w, key, c) {
      if Held(w, c) {
        var other :| other in w.pending && w.pending[other].cell == Some(c);
        assert w'.pending[other].cell == Some(c);
      }
      if Held(w', c) {
        var other :| other in w'.pending && w'.pending[other].cell == Some(c);
        assert other != id && w.pending[other].cell == Some(c);
      }
    }
  }

  lemma AdoptNewStrays(w: World, id: nat, at: real, key: string, most: int, delay: real, frozen: seq<real>)
    requires Inv(w, key, most, at) && Frozen(w, key, frozen, at) && Enabled(w, Adopt(id, at), delay)
    requires most >= 1 && delay >= 0.0 && w.pending[id].cell.None? && w.pending[id].key !in w.index
    ensures
      var w' := Step(w, Adopt(id, at), delay);
      Frozen(w', key, frozen + [at], at) && Total(w', key, most, delay, frozen + [at]) <= Total(w, key, most, delay, frozen)
  {
    var w', p := Step(w, Adopt(id, at), delay), w.pending[id];
    NewBucket(w, w', key, id, w'.pending[id], Cell(p.key, FullBucket(p.limit, p.now)));
    OneShareChanges(w, w', key, most as real, delay, frozen, frozen + [at], 0, 0.0, |w.cells|);
  }

  lemma TakeStrays(w: World, id: nat, at: real, key: string, most: int, delay: real, frozen: seq<real>)
    requires Inv(w, key, most, at) && Frozen(w, key, frozen, at) && Enabled(w, Take(id, at), delay)
    requires most >= 1 && delay >= 0.0
    ensures
      var w' := Step(w, Take(id, at), delay);
      && Frozen(w', key, frozen, at)
      && Total(w', key, most, delay, frozen)
           + (if Admits(w, Take(id, at), key, delay) && Stray(w, Take(id, at), delay) then 1.0 else 0.0)
         <= Total(w, key, most, delay, frozen)
  {
    var w', p := Step(w, Take(id, at), delay), w.pending[id];
    var c := p.cell.value;
    StepIsShaped(w, Take(id, at), delay);
    assert Held(w, c);
    forall i | 0 <= i < |w.cells| && IsStray(w', key, i) ensures IsStray(w, key, i) {
      var other :| other in w'.pending && w'.pending[other].cell == Some(i);
      assert other in w.pending && w.pending[other].cell == Some(i);
    }
    var spent := if Admits(w, Take(id, at), key, delay) && Stray(w, Take(id, at), delay) then 1.0 else 0.0;
    TakeSpendsShare(w, id, at, key, most, delay, frozen);
    var limit := most as real;
    forall i | 0 <= i < |w.cells| && i != c
      ensures Share(w', key, limit, delay, frozen, i) <= Share(w, key, limit, delay, frozen, i)
    {
      if IsStray(w, key, i) {
        CellPotentialRange(w.cells[i].bucket, limit, delay, frozen[i]);
      }
    }
    OneShareChanges(w, w', key, limit, delay, frozen, frozen, c, -spent, |w.cells|);
  }

  /** A stray admission costs one unit of the stray's potential. */
  lemma TakeSpendsShare(w: World, id: nat, at: real, key: string, most: int, delay: real, frozen: seq<real>)
    requires Inv(w, key, most, at) && Frozen(w, key, frozen, at) && Enabled(w, Take(id, at), delay)
    requires most >= 1 && delay >= 0.0 && Held(w, w.pending[id].cell.value)
    requires
      var w' := Step(w, Take(id, at), delay);
      forall i | 0 <= i < |w.cells| && IsStray(w', key, i) :: IsStray(w, key, i)
    ensures
      var w', c := Step(w, Take(id, at), delay), w.pending[id].cell.value;
      && Share(w', key, most as real, delay, frozen, c)
           + (if Admits(w, Take(id, at), key, delay) && Stray(w, Take(id, at), delay) then 1.0 else 0.0)
         <= Share(w, key, most as real, delay, frozen, c)
      && (IsStray(w, key, c) ==> w'.cells[c].bucket.lastRefill <= frozen[c])
  {
    var p := w.pending[id];
    var c := p.cell.value;
    if IsStray(w, key, c) {
      var b := w.cells[c].bucket;
      LateRefill(b, most as real, delay, p.now, frozen[c]);
      CellPotentialRange(b, most as real, delay, frozen[c]);
      RefillIsValid(b, p.now);
      CellPotentialRange(b.Refill(p.now), most as real, delay, frozen[c]);
      B.GainsAddUp(most as real / 60.0, b.Refill(p.now).lastRefill, b.Refill(p.now).lastRefill, frozen[c]);
    }
  }

  lemma SweepStrays(w: World, e: Event, key: string, most: int, delay: real, frozen: seq<real>)
    requires Inv(w, key, most, e.at) && Frozen(w, key, frozen, e.at) && Enabled(w, e, delay) && e.Sweep?
    requires most >= 1 && delay >= 0.0 && Drops(w, e, key, delay)
    ensures
      var w', c := Step(w, e, delay), w.index[key];
      && Frozen(w', key, frozen[c := e.at], e.at)
      && Total(w', key, most, delay, frozen[c := e.at])
         <= Total(w, key, most, delay, frozen) + (if Held(w, c) then Ceiling(most as real, delay) else 0.0)
  {
    var w', c := Step(w, e, delay), w.index[key];
    var frozen' := frozen[c := e.at];
    assert w'.pending == w.pending && w'.cells == w.cells;
    forall i | 0 <= i < |w.cells| && i != c ensures IsStray(w', key, i) <==> IsStray(w, key, i) {
      assert Held(w', i) <==> Held(w, i);
    }
    assert IsStray(w', key, c) <==> Held(w, c);
    CellPotentialRange(w.cells[c].bucket, most as real, delay, e.at);
    OneShareChanges(w, w', key, most as real, delay, frozen, frozen', c,
                    if Held(w, c) then Ceiling(most as real, delay) else 0.0, |w.cells|);
  }

  lemma OtherSweepStrays(w: World, e: Event, key: string, most: int, delay: real, frozen: seq<real>)
    requires Inv(w, key, most, e.at) && Frozen(w, key, frozen, e.at) && Enabled(w, e, delay) && e.Sweep?
    requires most >= 1 && delay >= 0.0 && !Drops(w, e, key, delay)
    ensures
      var w' := Step(w, e, delay);
      Frozen(w', key, frozen, e.at) && Total(w', key, most, delay, frozen) <= Total(w, key, most, delay, frozen)
  {
    var w' := Step(w, e, delay);
    forall i | 0 <= i < |w.cells| ensures IsStray(w', key, i) <==> IsStray(w, key, i) {
      assert Held(w', i) <==> Held(w, i);
    }
    NothingGrows(w, w', key, most, delay, frozen, e.at);
  }

  // ---- Runs ----

  /** One step: a stray admission is paid for, and only dropping a bucket that is held adds anything. */
  lemma StepStrays(w: World, e: Event, key: string, most: int, delay: real, frozen: seq<real>) returns (frozen': seq<real>)
    requires Inv(w, key, most, e.at) && Frozen(w, key, frozen, e.at) && Enabled(w, e, delay)
    requires most >= 1 && delay >= 0.0
    ensures
      var w' := Step(w, e, delay);
      && Frozen(w', key, frozen', e.at)
      && Total(w', key, most, delay, frozen') + (if Admits(w, e, key, delay) && Stray(w, e, delay) then 1.0 else 0.0)
         <= Total(w, key, most, delay, frozen)
            + (if Drops(w, e, key, delay) && Held(w, w.index[key]) then Ceiling(most as real, delay) else 0.0)
  {
    frozen' := frozen;
    match e
    case Look(_, _, _, _, _) => LookStrays(w, e, key, most, delay, frozen);
    case Adopt(id, at) =>
      if w.pending[id].cell.Some? {
        AdoptFoundStrays(w, id, at, key, most, delay, frozen);
      } else if w.pending[id].key in w.index {
        AdoptMadeStrays(w, id, at, key, most, delay, frozen);
      } else {
        AdoptNewStrays(w, id, at, key, most, delay, frozen);
        frozen' := frozen + [at];
      }
    case Take(id, at) => TakeStrays(w, id, at, key, most, delay, frozen);
    case Sweep(_, _, _, _) =>
      if Drops(w, e, key, delay) {
        SweepStrays(w, e, key, most, delay, frozen);
        frozen' := frozen[w.index[key] := e.at];
      } else {
        OtherSweepStrays(w, e, key, most, delay, frozen);
      }
  }

  lemma FrozenAges(w: World, key: string, frozen: seq<real>, at: real, later: real)
    requires Frozen(w, key, frozen, at) && at <= later
    ensures Frozen(w, key, frozen, later)
  {
  }

  /** What is paid for by one step and by the rest is paid for by the whole. */
  lemma Accounts(strays: nat, spent: bool, drops: nat, dropped: bool, before: real, after: real, ceiling: real, all: nat, allDrops: nat)
    requires after + (if spent then 1.0 else 0.0) <= before + (if dropped then ceiling else 0.0)
    requires strays as real <= after + Times(drops, ceiling)
    requires all == strays + (if spent then 1 else 0) && allDrops == drops + (if dropped then 1 else 0)
    ensures all as real <= before + Times(allDrops, ceiling)
  {
  }

  lemma CountsUnfold(w: World, es: seq<Event>, key: string, delay: real) returns (spent: bool, dropped: bool)
    requires Shaped(w) && Legal(w, es, delay) && es != []
    ensures Shaped(Step(w, es[0], delay)) && Legal(Step(w, es[0], delay), es[1..], delay)
    ensures Strays(w, es, key, delay) == Strays(Step(w, es[0], delay), es[1..], key, delay) + (if spent then 1 else 0)
    ensures HeldDrops(w, es, key, delay) == HeldDrops(Step(w, es[0], delay), es[1..], key, delay) + (if dropped then 1 else 0)
    ensures spent == (Admits(w, es[0], key, delay) && Stray(w, es[0], delay))
    ensures dropped == (Drops(w, es[0], key, delay) && Held(w, w.index[key]))
  {
    StepIsShaped(w, es[0], delay);
    spent := Admits(w, es[0], key, delay) && Stray(w, es[0], delay);
    dropped := Drops(w, es[0], key, delay) && Held(w, w.index[key]);
  }

  lemma {:induction false} RunStrays(
      w: World, es: seq<Event>, key: string, most: int, delay: real, frozen: seq<real>, from: real, strays: nat, drops: nat)
    requires Inv(w, key, most, from) && Frozen(w, key, frozen, from) && Legal(w, es, delay) && Clocked(from, es)
    requires LimitsBounded(es, key, most) && most >= 1 && delay >= 0.0
    requires strays == Strays(w, es, key, delay) && drops == HeldDrops(w, es, key, delay)
    ensures strays as real <= Total(w, key, most, delay, frozen) + Times(drops, Ceiling(most as real, delay))
    decreases |es|
  {
    if es == [] {
      StrayPotentialRange(w, key, most as real, delay, frozen, from, |w.cells|);
    } else {
      var e := es[0];
      InvAges(w, key, most, from, e.at);
      FrozenAges(w, key, frozen, from, e.at);
      StepKeepsInv(w, e, key, most, delay);
      var frozen' := StepStrays(w, e, key, most, delay, frozen);
      var next := Step(w, e, delay);
      var spent, dropped := CountsUnfold(w, es, key, delay);
      var later, laterDrops := Strays(next, es[1..], key, delay), HeldDrops(next, es[1..], key, delay);
      RunStrays(next, es[1..], key, most, delay, frozen', e.at, later, laterDrops);
      Accounts(later, spent, laterDrops, dropped, Total(w, key, most, delay, frozen), Total(next, key, most, delay, frozen'),
               Ceiling(most as real, delay), strays, drops);
    }
  }

  lemma StartIsFrozen(w: World, key: string, most: int, from: real)
    requires Inv(w, key, most, from)
    ensures Frozen(w, key, seq(|w.cells|, _ => from), from)
  {
  }

  /** Each bucket that is dropped while a call holds it, in the run or before, gives at most what a bucket can give late. */
  lemma StraysAreBounded(w: World, es: seq<Event>, key: string, most: int, delay: real, from: real)
    requires Inv(w, key, most, from) && Legal(w, es, delay) && Clocked(from, es)
    requires LimitsBounded(es, key, most) && most >= 1 && delay >= 0.0
    ensures
      var buckets := StrayBuckets(w, key, |w.cells|) + HeldDrops(w, es, key, delay);
      Strays(w, es, key, delay) as real <= Times(buckets, Ceiling(most as real, delay))
  {
    var frozen := seq(|w.cells|, _ => from);
    StartIsFrozen(w, key, most, from);
    RunStrays(w, es, key, most, delay, frozen, from, Strays(w, es, key, delay), HeldDrops(w, es, key, delay));
    StrayPotentialRange(w, key, most as real, delay, frozen, from, |w.cells|);
    TimesOfSum(StrayBuckets(w, key, |w.cells|), HeldDrops(w, es, key, delay), Ceiling(most as real, delay));
  }

  lemma TimesOfSum(m: nat, n: nat, x: real)
    ensures Times(m + n, x) == Times(m, x) + Times(n, x)
  {
    TimesIsProduct(m, x);
    TimesIsProduct(n, x);
    TimesIsProduct(m + n, x);
  }

  // ---- How often a bucket can be dropped ----

  /** The key's current bucket, if any, was not last refilled before `since`, give or take a delay. */
  ghost predicate LiveSince(w: World, key: string, delay: real, since: real) {
    key in w.index ==> w.index[key] < |w.cells| && w.cells[w.index[key]].bucket.lastRefill >= since - delay
  }

  lemma StepStaysLive(w: World, e: Event, key: string, delay: real, since: real)
    requires Shaped(w) && Enabled(w, e, delay) && LiveSince(w, key, delay, since) && since <= e.at
    requires Spares(e, key, 60.0 + delay)
    ensures LiveSince(Step(w, e, delay), key, delay, since)
    ensures Drops(w, e, key, delay) ==> e.at >= since + 60.0 && LiveSince(Step(w, e, delay), key, delay, e.at)
  {
  }

  lemma {:induction false} DropsAfter(w: World, es: seq<Event>, key: string, delay: real, since: real, from: real)
    requires Shaped(w) && Legal(w, es, delay) && Clocked(from, es) && SweepsSpare(es, key, 60.0 + delay)
    requires LiveSince(w, key, delay, since) && since <= from
    ensures 60.0 * HeldDrops(w, es, key, delay) as real <= FinalReading(from, es) - since
    decreases |es|
  {
    if es != [] {
      var e, next, rest := es[0], Step(w, es[0], delay), es[1..];
      StepStaysLive(w, e, key, delay, since);
      var _, dropped := CountsUnfold(w, es, key, delay);
      DropsAfter(next, rest, key, delay, if dropped then e.at else since, e.at);
    }
  }

  /** Buckets of a key are dropped at least a minute apart. */
  lemma {:induction false} DropsAreSpaced(w: World, es: seq<Event>, key: string, delay: real, from: real)
    requires Shaped(w) && Legal(w, es, delay) && Clocked(from, es) && SweepsSpare(es, key, 60.0 + delay)
    ensures 60.0 * HeldDrops(w, es, key, delay) as real <= FinalReading(from, es) - from + 60.0
    decreases |es|
  {
    if es != [] {
      var e, next, rest := es[0], Step(w, es[0], delay), es[1..];
      var _, dropped := CountsUnfold(w, es, key, delay);
      if dropped {
        DropsAfter(next, rest, key, delay, e.at, e.at);
      } else {
        DropsAreSpaced(next, rest, key, delay, e.at);
      }
    }
  }

  /**
   * The whole bound under interleaving. When no call is under way for longer than `delay` and sweeps spare
   * buckets idle for up to a minute and a delay, at most `most * (1 + (T + delay)/60)` calls on a key take a
   * token within `T` seconds, and `most * (1 + delay/60)` more for every bucket of the key that is dropped
   * while a call holds it, or was so before; of the former there are at most `1 + T/60`.
   */
  lemma SweptRateBound(w: World, es: seq<Event>, key: string, most: int, delay: real, from: real)
    requires Inv(w, key, most, from) && Legal(w, es, delay) && Clocked(from, es)
    requires LimitsBounded(es, key, most) && SweepsSpare(es, key, 60.0 + delay)
    requires most >= 1 && delay >= 0.0
    ensures
      var T := FinalReading(from, es) - from;
      var before, drops := StrayBuckets(w, key, |w.cells|), HeldDrops(w, es, key, delay);
      && Admissions(w, es, key, delay) as real
         <= B.Allowance(most, from, from + T + delay) + Times(before + drops, Ceiling(most as real, delay))
      && drops as real <= 1.0 + T / 60.0
  {
    RacingRateBound(w, es, key, most, delay, from);
    StraysAreBounded(w, es, key, most, delay, from);
    DropsAreSpaced(w, es, key, delay, from);
  }
}
