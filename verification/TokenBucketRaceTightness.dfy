// The racing bound of the token bucket is exact: both the delay of calls and the idle time that sweeps
// allow for are needed, in every amount.

module TokenBucketRaceTightness {
  import opened Arithmetic
  import opened Options
  import opened TokenBuckets
  import B = TokenBucketBounds
  import opened TokenBucketTightness
  import opened TokenBucketRaces

  /** No call is longer than `delay`, limits are at most `most`, and sweeps of the key use at least `maxIdle`. */
  datatype Setting = Setting(key: string, most: int, delay: real, maxIdle: real) {
    predicate Valid() {
      most >= 1 && delay >= 0.0
    }
  }

  /** The key has a bucket and no call is under way; `swept` are the buckets it had before. */
  function Resting(key: string, swept: seq<Cell>, b: Bucket): World {
    World(map[key := |swept|], swept + [Cell(key, b)], map[])
  }

  function Without(swept: seq<Cell>): World {
    World(map[], swept, map[])
  }

  ghost predicate AllValid(swept: seq<Cell>) {
    forall i | 0 <= i < |swept| :: swept[i].bucket.Valid()
  }

  /** The run `es` leads from `w` to `w'` within the setting, and admits `n` calls, none out of a swept bucket. */
  ghost predicate Leads(s: Setting, w: World, es: seq<Event>, w': World, from: real, to: real, n: nat) {
    && Shaped(w) && Legal(w, es, s.delay) && Run(w, es, s.delay) == w'
    && Clocked(from, es) && FinalReading(from, es) == to
    && LimitsBounded(es, s.key, s.most) && SweepsSpare(es, s.key, s.maxIdle)
    && Admissions(w, es, s.key, s.delay) == n && Strays(w, es, s.key, s.delay) == 0
  }

  lemma {:induction false} LeadsThrough(
      s: Setting, w: World, xs: seq<Event>, mid: World, ys: seq<Event>, w': World,
      from: real, via: real, to: real, m: nat, n: nat)
    requires Leads(s, w, xs, mid, from, via, m) && Leads(s, mid, ys, w', via, to, n)
    ensures Leads(s, w, xs + ys, w', from, to, m + n)
    decreases |xs|
  {
    if xs == [] {
      assert xs + ys == ys;
    } else {
      var rest, e := xs[1..], xs[0];
      assert (xs + ys)[1..] == rest + ys;
      StepIsShaped(w, e, s.delay);
      var next := Step(w, e, s.delay);
      assert LimitsBounded(rest, s.key, s.most) && SweepsSpare(rest, s.key, s.maxIdle);
      LeadsThrough(s, next, rest, mid, ys, w', e.at, via, to, Admissions(next, rest, s.key, s.delay), n);
      assert LimitBounded(e, s.key, s.most) && Spares(e, s.key, s.maxIdle);
      assert LimitsBounded(xs + ys, s.key, s.most) && SweepsSpare(xs + ys, s.key, s.maxIdle);
    }
  }

  lemma OneStep(s: Setting, w: World, e: Event, w': World, from: real)
    requires Shaped(w) && Enabled(w, e, s.delay) && Step(w, e, s.delay) == w' && from <= e.at
    requires LimitBounded(e, s.key, s.most) && Spares(e, s.key, s.maxIdle) && !e.Take?
    ensures Shaped(w') && Leads(s, w, [e], w', from, e.at, 0)
  {
    StepIsShaped(w, e, s.delay);
    assert [e][1..] == [];
    assert Legal(w', [], s.delay) && Run(w', [], s.delay) == w';
    assert Clocked(e.at, []) && FinalReading(e.at, []) == e.at;
  }

  lemma OneTake(s: Setting, w: World, id: nat, at: real, w': World, from: real)
    requires Shaped(w) && Enabled(w, Take(id, at), s.delay) && Step(w, Take(id, at), s.delay) == w' && from <= at
    requires Admits(w, Take(id, at), s.key, s.delay) && !Stray(w, Take(id, at), s.delay)
    ensures Shaped(w') && Leads(s, w, [Take(id, at)], w', from, at, 1)
  {
    var e := Take(id, at);
    StepIsShaped(w, e, s.delay);
    assert [e][1..] == [];
    assert Legal(w', [], s.delay) && Run(w', [], s.delay) == w';
    assert Clocked(at, []) && FinalReading(at, []) == at;
  }

  function CallAt(s: Setting, now: real, at: real): seq<Event> {
    [Look(0, s.key, s.most, now, at)] + ([Adopt(0, at)] + [Take(0, at)])
  }

  /** The bucket has been adopted, and the call is ready to take. */
  function Adopted(s: Setting, swept: seq<Cell>, b: Bucket, now: real): World {
    Resting(s.key, swept, b).(pending := map[0 := Pending(s.key, s.most, now, Some(|swept|), true)])
  }

  lemma RestingIsShaped(key: string, swept: seq<Cell>, b: Bucket)
    requires AllValid(swept) && b.Valid()
    ensures Shaped(Resting(key, swept, b))
  {
  }

  lemma TakeAdopted(s: Setting, swept: seq<Cell>, b: Bucket, now: real, at: real, tokens: real)
    requires s.Valid() && AllValid(swept) && b.Valid() && now <= at <= now + s.delay && tokens >= 1.0
    requires b.Refill(now) == Holding(s.most, tokens, b.Refill(now).lastRefill)
    ensures
      var left := Holding(s.most, tokens - 1.0, b.Refill(now).lastRefill);
      && Shaped(Adopted(s, swept, b, now))
      && Leads(s, Adopted(s, swept, b, now), [Take(0, at)], Resting(s.key, swept, left), at, at, 1)
  {
    var w := Adopted(s, swept, b, now);
    var left := Holding(s.most, tokens - 1.0, b.Refill(now).lastRefill);
    assert TakeFrom(w, w.pending[0]).0 == left;
    assert w.pending - {0} == map[];
    assert w.cells[|swept| := Cell(s.key, left)] == swept + [Cell(s.key, left)];
    OneTake(s, w, 0, at, Resting(s.key, swept, left), at);
  }

  /** A call on a key with a bucket. */
  lemma OneCall(s: Setting, swept: seq<Cell>, b: Bucket, now: real, from: real, at: real, tokens: real)
    requires s.Valid() && AllValid(swept) && b.Valid() && b.capacity == s.most as real
    requires now <= at <= now + s.delay && from <= at && tokens >= 1.0
    requires b.Refill(now) == Holding(s.most, tokens, b.Refill(now).lastRefill)
    ensures
      var left := Holding(s.most, tokens - 1.0, b.Refill(now).lastRefill);
      Leads(s, Resting(s.key, swept, b), CallAt(s, now, at), Resting(s.key, swept, left), from, at, 1)
  {
    var w := Resting(s.key, swept, b);
    var looked := Pending(s.key, s.most, now, Some(|swept|), false);
    var w1 := w.(pending := map[0 := looked]);
    var w2 := Adopted(s, swept, b, now);
    var left := Holding(s.most, tokens - 1.0, b.Refill(now).lastRefill);
    RestingIsShaped(s.key, swept, b);
    assert map[][0 := looked] == w1.pending;
    OneStep(s, w, Look(0, s.key, s.most, now, at), w1, from);
    assert w1.cells[|swept| := w1.cells[|swept|]] == w1.cells && w1.pending[0 := looked.(ready := true)] == w2.pending;
    OneStep(s, w1, Adopt(0, at), w2, at);
    TakeAdopted(s, swept, b, now, at, tokens);
    LeadsThrough(s, w1, [Adopt(0, at)], w2, [Take(0, at)], Resting(s.key, swept, left), at, at, at, 0, 1);
    LeadsThrough(s, w, [Look(0, s.key, s.most, now, at)], w1, [Adopt(0, at)] + [Take(0, at)],
                 Resting(s.key, swept, left), from, at, at, 0, 1);
  }

  /** A call on a key without a bucket. */
  lemma FirstCall(s: Setting, swept: seq<Cell>, now: real, from: real, at: real)
    requires s.Valid() && AllValid(swept) && now <= at <= now + s.delay && from <= at
    ensures Leads(s, Without(swept), CallAt(s, now, at),
                  Resting(s.key, swept, Holding(s.most, (s.most - 1) as real, now)), from, at, 1)
  {
    var w := Without(swept);
    var looked := Pending(s.key, s.most, now, None, false);
    var w1 := w.(pending := map[0 := looked]);
    var full := FullBucket(s.most, now);
    var w2 := Adopted(s, swept, full, now);
    var left := Holding(s.most, (s.most - 1) as real, now);
    assert Shaped(w) && map[][0 := looked] == w1.pending;
    OneStep(s, w, Look(0, s.key, s.most, now, at), w1, from);
    assert map[][s.key := |swept|] == w2.index;
    assert w1.pending[0 := looked.(cell := Some(|swept|), ready := true)] == w2.pending;
    OneStep(s, w1, Adopt(0, at), w2, at);
    TakeAdopted(s, swept, full, now, at, s.most as real);
    LeadsThrough(s, w1, [Adopt(0, at)], w2, [Take(0, at)], Resting(s.key, swept, left), at, at, at, 0, 1);
    LeadsThrough(s, w, [Look(0, s.key, s.most, now, at)], w1, [Adopt(0, at)] + [Take(0, at)],
                 Resting(s.key, swept, left), from, at, at, 0, 1);
  }

  /** `n` calls with one reading empty a new bucket by as many tokens. */
  lemma {:induction false} Drain(s: Setting, swept: seq<Cell>, now: real, from: real, at: real, n: nat)
    returns (es: seq<Event>)
    requires s.Valid() && AllValid(swept) && now <= at <= now + s.delay && from <= at && 1 <= n <= s.most
    ensures Leads(s, Without(swept), es, Resting(s.key, swept, Holding(s.most, (s.most - n) as real, now)), from, at, n)
    decreases n
  {
    if n == 1 {
      es := CallAt(s, now, at);
      FirstCall(s, swept, now, from, at);
    } else {
      var before := Drain(s, swept, now, from, at, n - 1);
      var b := Holding(s.most, (s.most - n + 1) as real, now);
      OneCall(s, swept, b, now, at, at, (s.most - n + 1) as real);
      LeadsThrough(s, Without(swept), before, Resting(s.key, swept, b), CallAt(s, now, at),
                   Resting(s.key, swept, Holding(s.most, (s.most - n) as real, now)), from, at, at, n - 1, 1);
      es := before + CallAt(s, now, at);
    }
  }

  function Later(x: real, y: real): real {
    if x >= y then x else y
  }

  /** From an empty bucket one call is admitted for every tick, however late it takes place. */
  lemma {:induction false} Trickle(s: Setting, swept: seq<Cell>, start: real, at: real, n: nat) returns (es: seq<Event>)
    requires s.Valid() && AllValid(swept) && start <= at <= start + s.delay
    ensures
      var end := Tick(s.most, start, n);
      Leads(s, Resting(s.key, swept, Holding(s.most, 0.0, start)), es, Resting(s.key, swept, Holding(s.most, 0.0, end)),
            at, Later(at, end), n)
    decreases n
  {
    var first := Resting(s.key, swept, Holding(s.most, 0.0, start));
    if n == 0 {
      es := [];
      RestingIsShaped(s.key, swept, Holding(s.most, 0.0, start));
    } else {
      var before := Trickle(s, swept, start, at, n - 1);
      var last, end := Tick(s.most, start, n - 1), Tick(s.most, start, n);
      TicksGrow(s.most, start, n - 1);
      TickRefills(s.most, last, end);
      var now, b := Later(at, end), Holding(s.most, 0.0, last);
      OneCall(s, swept, b, end, Later(at, last), now, 1.0);
      LeadsThrough(s, first, before, Resting(s.key, swept, b), CallAt(s, end, now),
                   Resting(s.key, swept, Holding(s.most, 0.0, end)), at, Later(at, last), now, n - 1, 1);
      es := before + CallAt(s, end, now);
    }
  }

  // ---- The delay ----

  /**
   * The racing bound is reached for every limit, delay and number of ticks past the delay, without any
   * sweep or stray admission: `delay` late, a full bucket goes at once, and then every token there is.
   */
  lemma RacingBoundIsReached(s: Setting, n: nat) returns (es: seq<Event>, w: World)
    requires s.Valid() && Tick(s.most, 0.0, n) >= s.delay
    ensures Leads(s, START, es, w, s.delay, Tick(s.most, 0.0, n), s.most + n)
    ensures (s.most + n) as real == B.Allowance(s.most, s.delay, FinalReading(s.delay, es) + s.delay)
  {
    var end := Tick(s.most, 0.0, n);
    var drained := Drain(s, [], 0.0, s.delay, s.delay, s.most);
    var after := Trickle(s, [], 0.0, s.delay, n);
    assert START == Without([]);
    w := Resting(s.key, [], Holding(s.most, 0.0, end));
    LeadsThrough(s, START, drained, Resting(s.key, [], Holding(s.most, 0.0, 0.0)), after, w,
                 s.delay, s.delay, end, s.most, n);
    es := drained + after;
    AllowanceAtTick(s.most, n);
    SameSpan(s.most, s.delay, end + s.delay, 0.0, end);
  }

  lemma SameSpan(most: int, from: real, to: real, from': real, to': real)
    requires to - from == to' - from'
    ensures B.Allowance(most, from, to) == B.Allowance(most, from', to')
  {
  }

  lemma LongerSpan(most: int, from: real, to: real, later: real)
    requires most >= 1 && to < later
    ensures B.Allowance(most, from, to) < B.Allowance(most, from, later)
  {
    B.AllowanceIsBurstAndGain(most, from, to);
    B.AllowanceIsBurstAndGain(most, from, later);
    assert B.Gain(most as real / 60.0, from, later) - B.Gain(most as real / 60.0, from, to)
        == (later - to) * (most as real / 60.0);
    assert (later - to) * (most as real / 60.0) > 0.0;
  }

  /** Some tick comes at or after any time. */
  lemma TickAfter(limit: int, t: real) returns (n: nat)
    requires limit >= 1 && t >= 0.0
    ensures Tick(limit, 0.0, n) >= t
  {
    n := (t * limit as real).Floor + 1;
    TimesIsProduct(n, 60.0 / limit as real);
    var gap := 60.0 / limit as real;
    assert gap * limit as real == 60.0;
    assert n as real * gap >= t * limit as real * gap;
    assert t * limit as real * gap == t * 60.0;
  }

  /** Every stretch of every run without stray admissions keeps the bound `most * (1 + T/60)`. */
  ghost predicate MeetsUndelayed(key: string, most: int, delay: real) {
    forall w, es, from |
      && Inv(w, key, most, from) && Legal(w, es, delay) && Clocked(from, es)
      && LimitsBounded(es, key, most) && SweepsSpare(es, key, 60.0 + delay) && Strays(w, es, key, delay) == 0
      :: Admissions(w, es, key, delay) as real <= B.Allowance(most, from, FinalReading(from, es))
  }

  /** Under interleaving the bound without a delay term holds exactly when calls take no time. */
  lemma UndelayedBoundExactly(key: string, most: int, delay: real)
    requires most >= 1 && delay >= 0.0
    ensures MeetsUndelayed(key, most, delay) <==> delay == 0.0
  {
    if delay == 0.0 {
      forall w, es, from |
        && Inv(w, key, most, from) && Legal(w, es, delay) && Clocked(from, es)
        && LimitsBounded(es, key, most) && SweepsSpare(es, key, 60.0 + delay) && Strays(w, es, key, delay) == 0
        ensures Admissions(w, es, key, delay) as real <= B.Allowance(most, from, FinalReading(from, es))
      {
        RacingRateBound(w, es, key, most, delay, from);
      }
    } else {
      var s := Setting(key, most, delay, 60.0 + delay);
      var n := TickAfter(most, delay);
      var es, w := RacingBoundIsReached(s, n);
      var end := FinalReading(delay, es);
      LongerSpan(most, delay, end, end + delay);
      assert Inv(START, key, most, delay);
    }
  }

  // ---- The idle time ----

  /** Every stretch of every run keeps the racing bound when sweeps spare buckets idle for up to `maxIdle`. */
  ghost predicate MeetsRacing(key: string, delay: real, maxIdle: real) {
    forall most, w, es, from |
      && most >= 1 && Inv(w, key, most, from) && Legal(w, es, delay) && Clocked(from, es)
      && LimitsBounded(es, key, most) && SweepsSpare(es, key, maxIdle)
      :: Admissions(w, es, key, delay) as real
         <= B.Allowance(most, from, FinalReading(from, es) + delay) + Strays(w, es, key, delay) as real
  }

  lemma SweepAway(s: Setting, b: Bucket, now: real, from: real)
    requires s.Valid() && b.Valid() && now - b.lastRefill > s.maxIdle && from <= now
    ensures
      var sweep := Event.Sweep(s.key, s.maxIdle, now, now);
      Leads(s, Resting(s.key, [], b), [sweep], Without([Cell(s.key, b)]), from, now, 0)
  {
    var sweep := Event.Sweep(s.key, s.maxIdle, now, now);
    RestingIsShaped(s.key, [], b);
    assert [] + [Cell(s.key, b)] == [Cell(s.key, b)];
    assert map[s.key := 0] - {s.key} == map[];
    OneStep(s, Resting(s.key, [], b), sweep, Without([Cell(s.key, b)]), from);
  }

  /** A bucket made with a reading `delay` ago is emptied and gives every token there has been since. */
  lemma MadeLate(s: Setting, swept: seq<Cell>, now: real, n: nat) returns (es: seq<Event>, w: World)
    requires s.Valid() && AllValid(swept) && Tick(s.most, now - s.delay, n) <= now
    ensures Leads(s, Without(swept), es, w, now, now, s.most + n)
    ensures w == Resting(s.key, swept, Holding(s.most, 0.0, Tick(s.most, now - s.delay, n)))
  {
    var made := now - s.delay;
    var first := Drain(s, swept, made, now, now, s.most);
    var second := Trickle(s, swept, made, now, n);
    w := Resting(s.key, swept, Holding(s.most, 0.0, Tick(s.most, made, n)));
    LeadsThrough(s, Without(swept), first, Resting(s.key, swept, Holding(s.most, 0.0, made)), second, w,
                 now, now, now, s.most, n);
    es := first + second;
  }

  /** A bucket is emptied late, it is swept at `now`, and its successor is made late. */
  lemma SweptEarly(s: Setting, now: real, n: nat) returns (es: seq<Event>, w: World)
    requires s.Valid() && s.maxIdle < now && s.delay <= now && Tick(s.most, now - s.delay, n) <= now
    ensures Leads(s, START, es, w, s.delay, now, 2 * s.most + n)
  {
    var empty := Holding(s.most, 0.0, 0.0);
    var sweep := Event.Sweep(s.key, s.maxIdle, now, now);
    var first := Drain(s, [], 0.0, s.delay, s.delay, s.most);
    SweepAway(s, empty, now, s.delay);
    var rest;
    rest, w := MadeLate(s, [Cell(s.key, empty)], now, n);
    LeadsThrough(s, Resting(s.key, [], empty), [sweep], Without([Cell(s.key, empty)]), rest, w, s.delay, now, now, 0, s.most + n);
    LeadsThrough(s, START, first, Resting(s.key, [], empty), [sweep] + rest, w, s.delay, s.delay, now, s.most, s.most + n);
    es := first + ([sweep] + rest);
  }

  /** How many ticks of `most` calls a minute fit in `delay` seconds. */
  function TicksWithin(most: int, delay: real): int {
    (most as real * delay / 60.0).Floor
  }

  lemma TicksFit(most: int, start: real, delay: real)
    requires most >= 1 && delay >= 0.0
    ensures TicksWithin(most, delay) >= 0 && Tick(most, start, TicksWithin(most, delay)) <= start + delay
  {
    var n, x := TicksWithin(most, delay), most as real;
    assert x * delay >= 0.0;
    TimesIsProduct(n, 60.0 / x);
    assert n as real <= x * delay / 60.0;
    var gap := 60.0 / x;
    assert gap > 0.0 && x * gap == 60.0;
    assert n as real * gap <= (x * delay / 60.0) * gap;
    assert (x * delay / 60.0) * gap == delay * (x * gap) / 60.0;
  }

  /** For a limit that is large enough those admissions exceed the racing bound. */
  lemma EarlySweepExceeds(most: int, delay: real, now: real)
    requires most >= 1 && delay >= 0.0 && most as real * (60.0 + delay - now) >= 60.0
    ensures (2 * most + TicksWithin(most, delay)) as real > B.Allowance(most, delay, now + delay)
  {
    var x, n := most as real, TicksWithin(most, delay);
    SameSpan(most, delay, now + delay, 0.0, now);
    B.AllowanceIsBurstAndGain(most, 0.0, now);
    assert n as real > x * delay / 60.0 - 1.0;
    assert B.Gain(x / 60.0, 0.0, now) == x * now / 60.0;
    assert x * (60.0 + delay - now) == x * 60.0 + x * delay - x * now;
  }

  /** A minute and a delay is the exact threshold for sweeps: every smaller idle time lets some run exceed the bound. */
  lemma RacingSweepThreshold(key: string, delay: real, maxIdle: real)
    requires delay >= 0.0
    ensures MeetsRacing(key, delay, maxIdle) <==> maxIdle >= 60.0 + delay
  {
    if maxIdle >= 60.0 + delay {
      forall most, w, es, from |
        && most >= 1 && Inv(w, key, most, from) && Legal(w, es, delay) && Clocked(from, es)
        && LimitsBounded(es, key, most) && SweepsSpare(es, key, maxIdle)
        ensures Admissions(w, es, key, delay) as real
             <= B.Allowance(most, from, FinalReading(from, es) + delay) + Strays(w, es, key, delay) as real
      {
        RacingRateBound(w, es, key, most, delay, from);
      }
    } else {
      var now := (Later(maxIdle, delay) + 60.0 + delay) / 2.0;
      var room := 60.0 + delay - now;
      var most := (60.0 / room).Floor + 1;
      assert most as real * room >= 60.0 by {
        assert most as real > 60.0 / room && (60.0 / room) * room == 60.0;
        assert (most as real - 60.0 / room) * room > 0.0;
      }
      var s := Setting(key, most, delay, maxIdle);
      TicksFit(most, now - delay, delay);
      var es, w := SweptEarly(s, now, TicksWithin(most, delay));
      EarlySweepExceeds(most, delay, now);
      assert Inv(START, key, most, delay);
    }
  }
}
