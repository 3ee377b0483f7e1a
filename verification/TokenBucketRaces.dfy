// The token bucket under concurrent calls, one step per locked region.
//
// A call reads its clock, looks its bucket up, adopts it (resizing it, or creating it when the look-up
// missed), and takes a token, each under a lock of its own. So a call can take its token later than the
// reading it refills to, and from a bucket that a sweep has meanwhile dropped from the limiter. Both
// widen the rate bound, and this module says by how much.

module TokenBucketRaces {
  import opened Options
  import opened RateLimits
  import opened TokenBuckets
  import opened TokenBucketBounds

  /** A bucket and the key it was created for; a swept bucket lives on as long as a call holds it. */
  datatype Cell = Cell(key: string, bucket: Bucket)

  /** A call under way: `cell` is what its look-up found, or, once it is ready, the bucket it takes from. */
  datatype Pending = Pending(key: string, limit: int, now: real, cell: Option<nat>, ready: bool)

  datatype World = World(index: map<string, nat>, cells: seq<Cell>, pending: map<nat, Pending>)

  /** `now` is a clock reading of the step's own thread, `at` the time at which the step takes place. */
  datatype Event =
    | Look(id: nat, key: string, limitPerMinute: int, now: real, at: real)
    | Adopt(id: nat, at: real)
    | Take(id: nat, at: real)
    | Sweep(key: string, maxIdle: real, now: real, at: real)

  const START := World(map[], [], map[])

  ghost predicate Shaped(w: World) {
    && (forall k | k in w.index :: w.index[k] < |w.cells| && w.cells[w.index[k]].key == k)
    && (forall c | 0 <= c < |w.cells| :: w.cells[c].bucket.Valid())
    && (forall id | id in w.pending ::
          var p := w.pending[id];
          p.limit >= 1 && (p.cell.Some? ==> p.cell.value < |w.cells| && w.cells[p.cell.value].key == p.key))
  }

  /** No call takes longer than `delay` from its clock reading to its last step. */
  predicate Enabled(w: World, e: Event, delay: real) {
    match e
    case Look(id, _, _, now, at) => id !in w.pending && now <= at <= now + delay
    case Adopt(id, at) => id in w.pending && !w.pending[id].ready && at <= w.pending[id].now + delay
    case Take(id, at) =>
      id in w.pending && w.pending[id].ready && w.pending[id].cell.Some? && at <= w.pending[id].now + delay
    case Sweep(_, _, now, at) => now <= at
  }

  function TakeFrom(w: World, p: Pending): (Bucket, Result)
    requires Shaped(w) && p.cell.Some? && p.cell.value < |w.cells|
  {
    var b := w.cells[p.cell.value].bucket;
    RefillIsValid(b, p.now);
    b.Refill(p.now).Consume(p.limit, p.now)
  }

  /** The look-up missed: the bucket another call has created meanwhile is used as it is, or else a full one is made. */
  function AdoptMissing(w: World, id: nat, p: Pending): World {
    if p.key in w.index
    then w.(pending := w.pending[id := p.(cell := Some(w.index[p.key]), ready := true)])
    else
      World(w.index[p.key := |w.cells|], w.cells + [Cell(p.key, FullBucket(p.limit, p.now))],
            w.pending[id := p.(cell := Some(|w.cells|), ready := true)])
  }

  function Step(w: World, e: Event, delay: real): World
    requires Shaped(w) && Enabled(w, e, delay)
  {
    match e
    case Look(id, key, limitPerMinute, now, _) =>
      var found := if key in w.index then Some(w.index[key]) else None;
      w.(pending := w.pending[id := Pending(key, EffectiveLimit(limitPerMinute), now, found, false)])
    case Adopt(id, _) =>
      var p := w.pending[id];
      if p.cell.None? then AdoptMissing(w, id, p)
      else
        var c := p.cell.value;
        w.(cells := w.cells[c := w.cells[c].(bucket := w.cells[c].bucket.Resize(p.limit))],
           pending := w.pending[id := p.(ready := true)])
    case Take(id, _) =>
      var c := w.pending[id].cell.value;
      w.(cells := w.cells[c := w.cells[c].(bucket := TakeFrom(w, w.pending[id]).0)], pending := w.pending - {id})
    case Sweep(key, maxIdle, now, _) =>
      if key in w.index && Idle(w.cells[w.index[key]].bucket, maxIdle, now) then w.(index := w.index - {key}) else w
  }

  lemma AdoptMissingIsShaped(w: World, id: nat, at: real, delay: real)
    requires Shaped(w) && Enabled(w, Adopt(id, at), delay) && w.pending[id].cell.None?
    ensures Shaped(Step(w, Adopt(id, at), delay))
  {
    var p := w.pending[id];
    assert FullBucket(p.limit, p.now).Valid();
  }

  lemma AdoptFoundIsShaped(w: World, id: nat, at: real, delay: real)
    requires Shaped(w) && Enabled(w, Adopt(id, at), delay) && w.pending[id].cell.Some?
    ensures Shaped(Step(w, Adopt(id, at), delay))
  {
    var p := w.pending[id];
    assert w.cells[p.cell.value].bucket.Resize(p.limit).Valid();
  }

  lemma TakeIsShaped(w: World, id: nat, at: real, delay: real)
    requires Shaped(w) && Enabled(w, Take(id, at), delay)
    ensures Shaped(Step(w, Take(id, at), delay))
  {
    RefillIsValid(w.cells[w.pending[id].cell.value].bucket, w.pending[id].now);
  }

  lemma StepIsShaped(w: World, e: Event, delay: real)
    requires Shaped(w) && Enabled(w, e, delay)
    ensures Shaped(Step(w, e, delay))
  {
    match e
    case Look(_, _, _, _, _) =>
    case Adopt(id, at) =>
      if w.pending[id].cell.None? { AdoptMissingIsShaped(w, id, at, delay); } else { AdoptFoundIsShaped(w, id, at, delay); }
    case Take(id, at) => TakeIsShaped(w, id, at, delay);
    case Sweep(_, _, _, _) =>
  }

  ghost predicate Legal(w: World, es: seq<Event>, delay: real)
    requires Shaped(w)
    decreases |es|
  {
    es == [] ||
    (&& Enabled(w, es[0], delay)
     && (StepIsShaped(w, es[0], delay); Legal(Step(w, es[0], delay), es[1..], delay)))
  }

  ghost function Run(w: World, es: seq<Event>, delay: real): (w': World)
    requires Shaped(w) && Legal(w, es, delay)
    ensures Shaped(w')
    decreases |es|
  {
    if es == [] then w else StepIsShaped(w, es[0], delay); Run(Step(w, es[0], delay), es[1..], delay)
  }

  predicate Clocked(t: real, es: seq<Event>)
    decreases |es|
  {
    es == [] || (t <= es[0].at && Clocked(es[0].at, es[1..]))
  }

  function FinalReading(t: real, es: seq<Event>): real
    decreases |es|
  {
    if es == [] then t else FinalReading(es[0].at, es[1..])
  }

  predicate Admits(w: World, e: Event, key: string, delay: real)
    requires Shaped(w) && Enabled(w, e, delay)
  {
    e.Take? && w.pending[e.id].key == key && TakeFrom(w, w.pending[e.id]).1.allowed
  }

  /** The bucket the event takes from has been swept. */
  predicate Stray(w: World, e: Event, delay: real)
    requires Enabled(w, e, delay) && e.Take?
  {
    var p := w.pending[e.id];
    p.key !in w.index || w.index[p.key] != p.cell.value
  }

  ghost function Admissions(w: World, es: seq<Event>, key: string, delay: real): nat
    requires Shaped(w) && Legal(w, es, delay)
    decreases |es|
  {
    if es == [] then 0
    else
      StepIsShaped(w, es[0], delay);
      (if Admits(w, es[0], key, delay) then 1 else 0) + Admissions(Step(w, es[0], delay), es[1..], key, delay)
  }

  /** The admissions out of swept buckets. */
  ghost function Strays(w: World, es: seq<Event>, key: string, delay: real): nat
    requires Shaped(w) && Legal(w, es, delay)
    decreases |es|
  {
    if es == [] then 0
    else
      StepIsShaped(w, es[0], delay);
      (if Admits(w, es[0], key, delay) && Stray(w, es[0], delay) then 1 else 0)
      + Strays(Step(w, es[0], delay), es[1..], key, delay)
  }

  /** A limit used on `key` is at most `most`. */
  predicate LimitBounded(e: Event, key: string, most: int) {
    e.Look? && e.key == key ==> EffectiveLimit(e.limitPerMinute) <= most
  }

  predicate LimitsBounded(es: seq<Event>, key: string, most: int) {
    forall i | 0 <= i < |es| :: LimitBounded(es[i], key, most)
  }

  /** A sweep spares the bucket of `key` unless it has been idle for longer than `idle`. */
  predicate Spares(e: Event, key: string, idle: real) {
    e.Sweep? && e.key == key ==> e.maxIdle >= idle
  }

  predicate SweepsSpare(es: seq<Event>, key: string, idle: real) {
    forall i | 0 <= i < |es| :: Spares(es[i], key, idle)
  }

  /** What has been read is past, and nothing on `key` uses more than `most`. */
  ghost predicate Inv(w: World, key: string, most: int, at: real) {
    && Shaped(w)
    && (forall c | 0 <= c < |w.cells| ::
          w.cells[c].bucket.lastRefill <= at && (w.cells[c].key == key ==> w.cells[c].bucket.capacity <= most as real))
    && (forall id | id in w.pending :: w.pending[id].now <= at && (w.pending[id].key == key ==> w.pending[id].limit <= most))
  }

  lemma AdoptMissingKeepsInv(w: World, id: nat, at: real, key: string, most: int, delay: real)
    requires Inv(w, key, most, at) && Enabled(w, Adopt(id, at), delay) && w.pending[id].cell.None?
    requires Shaped(Step(w, Adopt(id, at), delay))
    ensures Inv(Step(w, Adopt(id, at), delay), key, most, at)
  {
    var next := Step(w, Adopt(id, at), delay);
    assert |next.cells| > |w.cells| ==>
      next.cells[|w.cells|] == Cell(w.pending[id].key, FullBucket(w.pending[id].limit, w.pending[id].now));
  }

  lemma AdoptFoundKeepsInv(w: World, id: nat, at: real, key: string, most: int, delay: real)
    requires Inv(w, key, most, at) && Enabled(w, Adopt(id, at), delay) && w.pending[id].cell.Some?
    requires Shaped(Step(w, Adopt(id, at), delay))
    ensures Inv(Step(w, Adopt(id, at), delay), key, most, at)
  {
    var next, c := Step(w, Adopt(id, at), delay), w.pending[id].cell.value;
    assert next.cells[c].key == w.pending[id].key && next.cells[c].bucket.lastRefill == w.cells[c].bucket.lastRefill;
    assert forall i | 0 <= i < |w.cells| && i != c :: next.cells[i] == w.cells[i];
  }

  lemma TakeKeepsInv(w: World, id: nat, at: real, key: string, most: int, delay: real)
    requires Inv(w, key, most, at) && Enabled(w, Take(id, at), delay) && Shaped(Step(w, Take(id, at), delay))
    ensures Inv(Step(w, Take(id, at), delay), key, most, at)
  {
    var p := w.pending[id];
    assert w.cells[p.cell.value].bucket.Refill(p.now).lastRefill <= at;
  }

  lemma StepKeepsInv(w: World, e: Event, key: string, most: int, delay: real)
    requires Inv(w, key, most, e.at) && Enabled(w, e, delay) && LimitBounded(e, key, most)
    ensures Inv(Step(w, e, delay), key, most, e.at)
  {
    StepIsShaped(w, e, delay);
    match e
    case Look(_, _, _, _, _) =>
    case Adopt(id, at) =>
      if w.pending[id].cell.None? {
        AdoptMissingKeepsInv(w, id, at, key, most, delay);
      } else {
        AdoptFoundKeepsInv(w, id, at, key, most, delay);
      }
    case Take(id, at) => TakeKeepsInv(w, id, at, key, most, delay);
    case Sweep(_, _, _, _) =>
  }

  lemma InvAges(w: World, key: string, most: int, at: real, later: real)
    requires Inv(w, key, most, at) && at <= later
    ensures Inv(w, key, most, later)
  {
  }

  /** Every run of the limiter from its empty start keeps the invariant. */
  lemma {:induction false} RunKeepsInv(w: World, es: seq<Event>, key: string, most: int, delay: real, from: real)
    requires Inv(w, key, most, from) && Legal(w, es, delay) && Clocked(from, es) && LimitsBounded(es, key, most)
    ensures Inv(Run(w, es, delay), key, most, FinalReading(from, es))
    decreases |es|
  {
    if es != [] {
      InvAges(w, key, most, from, es[0].at);
      StepKeepsInv(w, es[0], key, most, delay);
      RunKeepsInv(Step(w, es[0], delay), es[1..], key, most, delay, es[0].at);
    }
  }

  // ---- Potential ----

  /** A full bucket, and what it can regain while a call is under way. */
  function Ceiling(most: real, delay: real): real {
    most + Gain(most / 60.0, 0.0, delay)
  }

  function CellPotential(b: Bucket, most: real, delay: real, at: real): real {
    Min(Ceiling(most, delay), b.tokens + Gain(most / 60.0, b.lastRefill, at))
  }

  function Potential(w: World, key: string, most: real, delay: real, at: real): real
    requires key in w.index ==> w.index[key] < |w.cells|
  {
    if key in w.index then CellPotential(w.cells[w.index[key]].bucket, most, delay, at) else Ceiling(most, delay)
  }

  /** Refilling to an earlier reading creates no potential, and leaves less than the ceiling. */
  lemma LateRefill(b: Bucket, most: real, delay: real, now: real, at: real)
    requires b.Valid() && b.capacity <= most && b.lastRefill <= at && now <= at <= now + delay
    ensures
      var filled := b.Refill(now);
      var held := filled.tokens + Gain(most / 60.0, filled.lastRefill, at);
      held <= b.tokens + Gain(most / 60.0, b.lastRefill, at) && held <= Ceiling(most, delay)
  {
    var rate := most / 60.0;
    var filled := b.Refill(now);
    if now > b.lastRefill {
      SlowerGain(b.refillRate, rate, b.lastRefill, now);
      GainsAddUp(rate, b.lastRefill, now, at);
    }
    GainsAddUp(rate, 0.0, at - filled.lastRefill, delay);
    assert Gain(rate, 0.0, at - filled.lastRefill) == Gain(rate, filled.lastRefill, at);
  }

  lemma IdleCellsAreFull(b: Bucket, most: real, delay: real, at: real)
    requires b.Valid() && most >= 1.0 && delay >= 0.0 && at - b.lastRefill >= 60.0 + delay
    ensures CellPotential(b, most, delay, at) == Ceiling(most, delay)
  {
    var rate, full := most / 60.0, b.lastRefill + 60.0;
    GainsAddUp(rate, b.lastRefill, full, full + delay);
    GainsAddUp(rate, b.lastRefill, full + delay, at);
    assert Gain(rate, b.lastRefill, full) == most && Gain(rate, full, full + delay) == Gain(rate, 0.0, delay);
  }

  /** An admission out of the key's own bucket costs one unit, and no step creates any. */
  lemma StepSpends(w: World, e: Event, key: string, most: int, delay: real)
    requires Inv(w, key, most, e.at) && Enabled(w, e, delay) && Spares(e, key, 60.0 + delay)
    requires most >= 1 && delay >= 0.0 && LimitBounded(e, key, most)
    ensures Shaped(Step(w, e, delay))
    ensures Potential(Step(w, e, delay), key, most as real, delay, e.at)
          + (if Admits(w, e, key, delay) && !Stray(w, e, delay) then 1.0 else 0.0)
         <= Potential(w, key, most as real, delay, e.at)
  {
    StepIsShaped(w, e, delay);
    match e
    case Look(_, _, _, _, _) =>
    case Adopt(_, _) =>
    case Take(id, at) => TakeSpends(w, id, key, most, delay, at);
    case Sweep(k, maxIdle, now, at) =>
      if k == key && key in w.index && Idle(w.cells[w.index[key]].bucket, maxIdle, now) {
        IdleCellsAreFull(w.cells[w.index[key]].bucket, most as real, delay, at);
      }
  }

  lemma TakeSpends(w: World, id: nat, key: string, most: int, delay: real, at: real)
    requires Inv(w, key, most, at) && Enabled(w, Take(id, at), delay) && most >= 1 && delay >= 0.0
    requires Shaped(Step(w, Take(id, at), delay))
    ensures Potential(Step(w, Take(id, at), delay), key, most as real, delay, at)
          + (if Admits(w, Take(id, at), key, delay) && !Stray(w, Take(id, at), delay) then 1.0 else 0.0)
         <= Potential(w, key, most as real, delay, at)
  {
    var p := w.pending[id];
    var c := p.cell.value;
    if key in w.index && w.index[key] == c {
      LateRefill(w.cells[c].bucket, most as real, delay, p.now, at);
      assert p.key == key;
    } else if key in w.index {
      assert Step(w, Take(id, at), delay).cells[w.index[key]] == w.cells[w.index[key]];
    }
  }

  lemma PotentialGrows(w: World, key: string, most: int, delay: real, at: real, later: real)
    requires Inv(w, key, most, at) && at <= later && most >= 1 && delay >= 0.0
    ensures Potential(w, key, most as real, delay, later)
         <= Potential(w, key, most as real, delay, at) + Gain(most as real / 60.0, at, later)
  {
    GainsAddUp(most as real / 60.0, at, at, later);
    if key in w.index {
      GainsAddUp(most as real / 60.0, w.cells[w.index[key]].bucket.lastRefill, at, later);
    }
  }

  lemma PotentialIsPositive(w: World, key: string, most: int, delay: real, at: real)
    requires Inv(w, key, most, at) && most >= 1 && delay >= 0.0
    ensures 0.0 <= Potential(w, key, most as real, delay, at) <= Ceiling(most as real, delay)
  {
    GainsAddUp(most as real / 60.0, 0.0, 0.0, delay);
    if key in w.index {
      var last := w.cells[w.index[key]].bucket.lastRefill;
      GainsAddUp(most as real / 60.0, last, last, at);
    }
  }

  lemma {:induction false} RunSpends(w: World, es: seq<Event>, key: string, most: int, delay: real, from: real)
    requires Inv(w, key, most, from) && Legal(w, es, delay) && Clocked(from, es)
    requires LimitsBounded(es, key, most) && SweepsSpare(es, key, 60.0 + delay)
    requires most >= 1 && delay >= 0.0
    ensures from <= FinalReading(from, es)
    ensures Admissions(w, es, key, delay) as real
         <= Potential(w, key, most as real, delay, from) + Gain(most as real / 60.0, from, FinalReading(from, es))
          + Strays(w, es, key, delay) as real
    decreases |es|
  {
    if es == [] {
      PotentialIsPositive(w, key, most, delay, from);
    } else {
      var e := es[0];
      InvAges(w, key, most, from, e.at);
      StepKeepsInv(w, e, key, most, delay);
      PotentialGrows(w, key, most, delay, from, e.at);
      StepSpends(w, e, key, most, delay);
      RunSpends(Step(w, e, delay), es[1..], key, most, delay, e.at);
      GainsAddUp(most as real / 60.0, from, e.at, FinalReading(from, es));
    }
  }

  lemma DelayedAllowance(most: int, delay: real, from: real, to: real)
    requires most >= 1 && delay >= 0.0 && from <= to
    ensures Ceiling(most as real, delay) + Gain(most as real / 60.0, from, to) == Allowance(most, from, to + delay)
  {
    AllowanceIsBurstAndGain(most, from, to + delay);
    GainsAddUp(most as real / 60.0, from, to, to + delay);
  }

  /**
   * When no call is under way for longer than `delay` and sweeps spare buckets idle for up to a minute
   * and a delay, the calls on a key that take a token within `T` seconds number at most
   * `most * (1 + (T + delay)/60)`, and the admissions out of swept buckets on top.
   */
  lemma RacingRateBound(w: World, es: seq<Event>, key: string, most: int, delay: real, from: real)
    requires Inv(w, key, most, from) && Legal(w, es, delay) && Clocked(from, es)
    requires LimitsBounded(es, key, most) && SweepsSpare(es, key, 60.0 + delay)
    requires most >= 1 && delay >= 0.0
    ensures Admissions(w, es, key, delay) as real
         <= Allowance(most, from, FinalReading(from, es) + delay) + Strays(w, es, key, delay) as real
  {
    RunSpends(w, es, key, most, delay, from);
    PotentialIsPositive(w, key, most, delay, from);
    DelayedAllowance(most, delay, from, FinalReading(from, es));
  }

  // ---- Calls that nothing comes between ----

  /** The limiter's table: the buckets that the index leads to. */
  function TableOf(w: World): (t: Table)
    requires forall k | k in w.index :: w.index[k] < |w.cells|
  {
    map k | k in w.index :: w.cells[w.index[k]].bucket
  }

  /** What the call holds is what the index says now. */
  ghost predicate Undisturbed(w: World, id: nat) {
    && id in w.pending && !w.pending[id].ready
    && w.pending[id].cell == if w.pending[id].key in w.index then Some(w.index[w.pending[id].key]) else None
  }

  lemma AdoptsMissing(w: World, id: nat, at: real, delay: real)
    requires Shaped(w) && Undisturbed(w, id) && Enabled(w, Adopt(id, at), delay) && w.pending[id].cell.None?
    ensures
      var w', p := Step(w, Adopt(id, at), delay), w.pending[id];
      && p.key in w'.index && w'.index[p.key] < |w'.cells| && (forall k | k in w'.index :: w'.index[k] < |w'.cells|)
      && w'.pending == w.pending[id := p.(cell := Some(w'.index[p.key]), ready := true)]
      && TableOf(w') == TableOf(w)[p.key := GetOrCreate(TableOf(w), p.key, p.limit, p.now)]
  {
    var w', p := Step(w, Adopt(id, at), delay), w.pending[id];
    assert w'.index == w.index[p.key := |w.cells|];
    assert forall k | k in w.index :: w'.cells[w'.index[k]] == w.cells[w.index[k]];
  }

  lemma AdoptsFound(w: World, id: nat, at: real, delay: real)
    requires Shaped(w) && Undisturbed(w, id) && Enabled(w, Adopt(id, at), delay) && w.pending[id].cell.Some?
    ensures
      var w', p := Step(w, Adopt(id, at), delay), w.pending[id];
      && w'.index == w.index && p.key in w'.index && |w'.cells| == |w.cells|
      && w'.pending == w.pending[id := p.(cell := Some(w'.index[p.key]), ready := true)]
      && TableOf(w') == TableOf(w)[p.key := GetOrCreate(TableOf(w), p.key, p.limit, p.now)]
  {
    var w', p := Step(w, Adopt(id, at), delay), w.pending[id];
    assert forall k | k in w.index && k != p.key :: w.index[k] != w.index[p.key];
    assert forall k | k in w.index && k != p.key :: w'.cells[w.index[k]] == w.cells[w.index[k]];
  }

  /** Adopting gives an undisturbed call the bucket that a call in one step would take from. */
  lemma AdoptsInOneGo(w: World, id: nat, at: real, delay: real)
    requires Shaped(w) && Undisturbed(w, id) && Enabled(w, Adopt(id, at), delay)
    ensures
      var w', p := Step(w, Adopt(id, at), delay), w.pending[id];
      && Shaped(w') && p.key in w'.index
      && w'.pending == w.pending[id := p.(cell := Some(w'.index[p.key]), ready := true)]
      && TableOf(w') == TableOf(w)[p.key := GetOrCreate(TableOf(w), p.key, p.limit, p.now)]
  {
    StepIsShaped(w, Adopt(id, at), delay);
    if w.pending[id].cell.None? {
      AdoptsMissing(w, id, at, delay);
    } else {
      AdoptsFound(w, id, at, delay);
    }
  }

  lemma LooksInOneGo(w: World, id: nat, key: string, limitPerMinute: int, now: real, at: real, delay: real)
    requires Shaped(w) && id !in w.pending && now <= at <= now + delay
    ensures
      var looked := Step(w, Look(id, key, limitPerMinute, now, at), delay);
      && Shaped(looked) && Undisturbed(looked, id) && Enabled(looked, Adopt(id, at), delay)
      && looked.index == w.index && looked.cells == w.cells && looked.pending.Keys == w.pending.Keys + {id}
      && looked.pending - {id} == w.pending
      && looked.pending[id].key == key && looked.pending[id].limit == EffectiveLimit(limitPerMinute) && looked.pending[id].now == now
  {
    StepIsShaped(w, Look(id, key, limitPerMinute, now, at), delay);
  }

  /** The two last steps of an undisturbed call. */
  lemma RestInOneGo(w: World, id: nat, at: real, delay: real)
    requires Shaped(w) && Undisturbed(w, id) && Enabled(w, Adopt(id, at), delay)
    requires w.pending[id].limit == EffectiveLimit(w.pending[id].limit)
    ensures ValidTable(TableOf(w))
    ensures
      var adopted, p := Step(w, Adopt(id, at), delay), w.pending[id];
      Shaped(adopted) && Enabled(adopted, Take(id, at), delay)
      && var taken := Step(adopted, Take(id, at), delay);
         && Shaped(taken) && taken.pending == w.pending - {id}
         && (TableOf(taken), TakeFrom(adopted, adopted.pending[id]).1) == Evaluate(TableOf(w), p.key, p.limit, p.now)
  {
    var adopted, p := Step(w, Adopt(id, at), delay), w.pending[id];
    AdoptsInOneGo(w, id, at, delay);
    StepIsShaped(adopted, Take(id, at), delay);
    TakesInOneGo(adopted, id, p.key, at, delay);
    EvaluateInParts(TableOf(w), p.key, p.limit, p.now);
    assert adopted.pending - {id} == w.pending - {id};
  }

  lemma EvaluateInParts(t: Table, key: string, limit: int, now: real)
    requires ValidTable(t) && limit == EffectiveLimit(limit)
    ensures
      var found := GetOrCreate(t, key, limit, now);
      found.Valid() && found.Refill(now).refillRate > 0.0
      && var (left, answer) := found.Refill(now).Consume(limit, now);
         (t[key := found][key := left], answer) == Evaluate(t, key, limit, now)
  {
    var found := GetOrCreate(t, key, limit, now);
    GetOrCreateIsValid(t, key, limit, now);
    RefillIsValid(found, now);
    EvaluateInSteps(t, key, limit, now, found);
    var left := found.Refill(now).Consume(limit, now).0;
    assert t[key := found][key := left] == t[key := left];
  }

  /** The three steps of a call in a row have the answer and the effect of the call in one step. */
  lemma CallInOneGo(w: World, id: nat, key: string, limitPerMinute: int, now: real, at: real, delay: real)
    requires Shaped(w) && id !in w.pending && now <= at <= now + delay
    ensures ValidTable(TableOf(w)) && Enabled(w, Look(id, key, limitPerMinute, now, at), delay)
    ensures
      var looked := Step(w, Look(id, key, limitPerMinute, now, at), delay);
      Shaped(looked) && Enabled(looked, Adopt(id, at), delay)
      && var adopted := Step(looked, Adopt(id, at), delay);
         Shaped(adopted) && Enabled(adopted, Take(id, at), delay)
         && var taken := Step(adopted, Take(id, at), delay);
            && Shaped(taken) && taken.pending == w.pending
            && (TableOf(taken), TakeFrom(adopted, adopted.pending[id]).1) == Evaluate(TableOf(w), key, limitPerMinute, now)
  {
    var looked := Step(w, Look(id, key, limitPerMinute, now, at), delay);
    LooksInOneGo(w, id, key, limitPerMinute, now, at, delay);
    RestInOneGo(looked, id, at, delay);
    assert TableOf(looked) == TableOf(w);
    SameLimit(TableOf(w), key, limitPerMinute, now);
  }

  lemma SameLimit(t: Table, key: string, limitPerMinute: int, now: real)
    requires ValidTable(t)
    ensures Evaluate(t, key, EffectiveLimit(limitPerMinute), now) == Evaluate(t, key, limitPerMinute, now)
  {
  }

  lemma TakesInOneGo(w: World, id: nat, key: string, at: real, delay: real)
    requires Shaped(w) && Enabled(w, Take(id, at), delay) && Shaped(Step(w, Take(id, at), delay))
    requires key in w.index && w.pending[id].cell == Some(w.index[key]) && w.pending[id].key == key
    ensures
      var p := w.pending[id];
      && TableOf(w)[key].Refill(p.now).refillRate > 0.0
      && TakeFrom(w, p) == TableOf(w)[key].Refill(p.now).Consume(p.limit, p.now)
      && TableOf(Step(w, Take(id, at), delay)) == TableOf(w)[key := TakeFrom(w, p).0]
  {
    RefillIsValid(w.cells[w.index[key]].bucket, w.pending[id].now);
    var next := Step(w, Take(id, at), delay);
    assert forall k | k in w.index && k != key :: w.index[k] != w.index[key];
    assert next.index == w.index;
  }

  /** A sweep of one key does to the table what a sweep does for that key. */
  lemma SweepInOneGo(w: World, key: string, maxIdle: real, now: real, at: real, delay: real)
    requires Shaped(w) && now <= at
    ensures
      var t, t' := TableOf(w), TableOf(Step(w, Event.Sweep(key, maxIdle, now, at), delay));
      && (forall k | k in t && k != key :: k in t' && t'[k] == t[k])
      && (key in t' <==> key in Cleanup(t, maxIdle, now)) && (key in t' ==> t'[key] == t[key]) && t'.Keys <= t.Keys
  {
  }
}
