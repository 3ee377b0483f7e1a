// The bound on admissions out of swept buckets is reached: for every limit, delay, idle time and number of
// sweeps, each of them doubles what is admitted at its instant.

module TokenBucketStrayTightness {
  import opened Arithmetic
  import opened Options
  import opened TokenBuckets
  import B = TokenBucketBounds
  import E = TokenBucketExactness
  import opened TokenBucketTightness
  import opened TokenBucketRaces
  import opened TokenBucketRaceTightness
  import opened TokenBucketStrays

  datatype Moment = Moment(world: World, time: real)

  datatype Link = Link(before: Moment, event: Event, after: Moment, admits: int, drops: int)

  /** A run with the moments it passes and what each step adds. */
  datatype Path = Stop(last: Moment) | Via(first: Moment, event: Event, admits: int, drops: int, rest: Path)

  function First(p: Path): Moment {
    if p.Stop? then p.last else p.first
  }

  function Last(p: Path): Moment {
    if p.Stop? then p.last else Last(p.rest)
  }

  function Events(p: Path): seq<Event> {
    if p.Stop? then [] else [p.event] + Events(p.rest)
  }

  function Admitted(p: Path): int {
    if p.Stop? then 0 else p.admits + Admitted(p.rest)
  }

  function Dropped(p: Path): int {
    if p.Stop? then 0 else p.drops + Dropped(p.rest)
  }

  ghost predicate Follows(steps: iset<Link>, p: Path) {
    p.Via? ==> Link(p.first, p.event, First(p.rest), p.admits, p.drops) in steps && Follows(steps, p.rest)
  }

  /** Steps among `steps` lead from `w` to `w'`, and add `n` in all. */
  ghost predicate Connects(steps: iset<Link>, w: Moment, p: Path, w': Moment, admitted: int, dropped: int) {
    Follows(steps, p) && First(p) == w && Last(p) == w' && Admitted(p) == admitted && Dropped(p) == dropped
  }

  lemma {:induction false} Joined(
      steps: iset<Link>, w: Moment, p: Path, mid: Moment, q: Path, w': Moment, a: int, d: int, a': int, d': int)
    returns (r: Path)
    requires Connects(steps, w, p, mid, a, d) && Connects(steps, mid, q, w', a', d')
    ensures Connects(steps, w, r, w', a + a', d + d')
    decreases p
  {
    if p.Stop? {
      r := q;
    } else {
      var rest := Joined(steps, First(p.rest), p.rest, mid, q, w', Admitted(p.rest), Dropped(p.rest), a', d');
      r := Via(p.first, p.event, p.admits, p.drops, rest);
    }
  }

  function OneLink(w: Moment, e: Event, w': Moment, a: int, d: int): Path {
    Via(w, e, a, d, Stop(w'))
  }

  lemma TwoLinks(steps: iset<Link>, w: Moment, e: Event, mid: Moment, f: Event, w': Moment)
    requires Link(w, e, mid, 0, 0) in steps && Link(mid, f, w', 0, 0) in steps
    ensures Connects(steps, w, Via(w, e, 0, 0, OneLink(mid, f, w', 0, 0)), w', 0, 0)
  {
    assert Connects(steps, w', Stop(w'), w', 0, 0);
    assert Connects(steps, mid, OneLink(mid, f, w', 0, 0), w', 0, 0);
  }

  /** `n` paths in a row, each of which adds `each` admissions. */
  lemma {:induction false} Repeat(steps: iset<Link>, world: nat -> Moment, path: nat -> Path, each: nat, n: nat)
    returns (p: Path)
    requires forall j: nat | j < n :: Connects(steps, world(j), path(j), world(j + 1), each, 0)
    ensures Connects(steps, world(0), p, world(n), n * each, 0)
    decreases n
  {
    if n == 0 {
      p := Stop(world(0));
    } else {
      var j := n - 1;
      var before := Repeat(steps, world, path, each, j);
      p := Joined(steps, world(0), before, world(j), path(j), world(n), j * each, 0, each, 0);
    }
  }

  /** A bucket is dropped between two paths. */
  lemma DropBetween(
      steps: iset<Link>, w0: Moment, p: Path, w1: Moment, sweep: Path, w2: Moment, q: Path, w3: Moment, n: int)
    returns (r: Path)
    requires Connects(steps, w0, p, w1, 0, 0) && Connects(steps, w1, sweep, w2, 0, 1) && Connects(steps, w2, q, w3, n, 0)
    ensures Connects(steps, w0, r, w3, n, 1)
  {
    var later := Joined(steps, w1, sweep, w2, q, w3, 0, 1, n, 0);
    r := Joined(steps, w0, p, w1, later, w3, 0, 0, n, 1);
  }

  lemma StartedEarlier(steps: iset<Link>, m: Moment, p: Path, m': Moment, a: int, d: int, earlier: Moment)
    returns (r: Path)
    requires Connects(steps, m, p, m', a, d) && p.Via?
    requires Link(earlier, p.event, First(p.rest), p.admits, p.drops) in steps
    ensures Connects(steps, earlier, r, m', a, d)
  {
    r := p.(first := earlier);
  }

  // ---- Paths of the limiter's steps ----

  /** A step within the setting, with the calls it admits and the held buckets it drops. */
  ghost predicate StepsTo(s: Setting, m: Moment, e: Event, m': Moment, admits: int, drops: int) {
    && Shaped(m.world) && Enabled(m.world, e, s.delay) && Step(m.world, e, s.delay) == m'.world
    && m.time <= e.at == m'.time
    && LimitBounded(e, s.key, s.most) && Spares(e, s.key, s.maxIdle)
    && admits == (if Admits(m.world, e, s.key, s.delay) then 1 else 0)
    && drops == (if Drops(m.world, e, s.key, s.delay) && Held(m.world, m.world.index[s.key]) then 1 else 0)
  }

  ghost function Within(s: Setting): iset<Link> {
    iset link: Link | StepsTo(s, link.before, link.event, link.after, link.admits, link.drops)
  }

  /** The run leads from one moment to the other, with these counts. */
  ghost predicate Counted(s: Setting, m: Moment, es: seq<Event>, m': Moment, admitted: int, dropped: int)
    requires Shaped(m.world)
  {
    && Legal(m.world, es, s.delay) && Run(m.world, es, s.delay) == m'.world
    && Clocked(m.time, es) && FinalReading(m.time, es) == m'.time
    && Admissions(m.world, es, s.key, s.delay) == admitted
    && HeldDrops(m.world, es, s.key, s.delay) == dropped
  }

  lemma NothingCounted(s: Setting, m: Moment)
    requires Shaped(m.world)
    ensures Counted(s, m, [], m, 0, 0)
  {
  }

  lemma AdmissionsUnfold(w: World, es: seq<Event>, key: string, delay: real)
    requires Shaped(w) && Legal(w, es, delay) && es != []
    ensures Shaped(Step(w, es[0], delay))
    ensures Admissions(w, es, key, delay)
         == (if Admits(w, es[0], key, delay) then 1 else 0) + Admissions(Step(w, es[0], delay), es[1..], key, delay)
  {
    StepIsShaped(w, es[0], delay);
  }

  lemma StepRuns(s: Setting, m: Moment, es: seq<Event>, mid: Moment, m': Moment, a: int, d: int, a': int, d': int)
    requires Shaped(m.world) && Shaped(mid.world) && es != [] && StepsTo(s, m, es[0], mid, a, d)
    requires Counted(s, mid, es[1..], m', a', d')
    ensures Legal(m.world, es, s.delay) && Run(m.world, es, s.delay) == m'.world
    ensures Clocked(m.time, es) && FinalReading(m.time, es) == m'.time
  {
    StepIsShaped(m.world, es[0], s.delay);
  }

  lemma StepCounts(s: Setting, m: Moment, es: seq<Event>, mid: Moment, m': Moment, a: int, d: int, a': int, d': int)
    requires Shaped(m.world) && Shaped(mid.world) && es != [] && StepsTo(s, m, es[0], mid, a, d)
    requires Counted(s, mid, es[1..], m', a', d')
    ensures Counted(s, m, es, m', a + a', d + d')
  {
    StepRuns(s, m, es, mid, m', a, d, a', d');
    AdmissionsUnfold(m.world, es, s.key, s.delay);
    var spent, dropped := CountsUnfold(m.world, es, s.key, s.delay);
  }

  lemma {:induction false} PathCounts(s: Setting, m: Moment, p: Path, m': Moment, admitted: int, dropped: int)
    requires Shaped(m.world) && Connects(Within(s), m, p, m', admitted, dropped)
    ensures Counted(s, m, Events(p), m', admitted, dropped)
    decreases p
  {
    if p.Stop? {
      NothingCounted(s, m);
    } else {
      var a, d := Admitted(p.rest), Dropped(p.rest);
      StepIsShaped(m.world, p.event, s.delay);
      PathCounts(s, First(p.rest), p.rest, m', a, d);
      assert Events(p)[0] == p.event && Events(p)[1..] == Events(p.rest);
      StepCounts(s, m, Events(p), First(p.rest), m', p.admits, p.drops, a, d);
    }
  }

  lemma {:induction false} PathIsWithin(s: Setting, p: Path)
    requires Follows(Within(s), p)
    ensures LimitsBounded(Events(p), s.key, s.most) && SweepsSpare(Events(p), s.key, s.maxIdle)
    decreases p
  {
    if p.Via? {
      PathIsWithin(s, p.rest);
      assert StepsTo(s, p.first, p.event, First(p.rest), p.admits, p.drops);
    }
  }

  lemma {:induction false} ReadingsReach(from: real, es: seq<Event>)
    requires Clocked(from, es)
    ensures from <= FinalReading(from, es)
    decreases |es|
  {
    if es != [] {
      ReadingsReach(es[0].at, es[1..]);
    }
  }

  lemma FirstStepLeads(s: Setting, w: World, es: seq<Event>, w': World, at: real, n: nat) returns (next: World, a: nat)
    requires es != [] && TokenBucketRaceTightness.Leads(s, w, es, w', at, at, n) && HeldDrops(w, es, s.key, s.delay) == 0
    ensures StepsTo(s, Moment(w, at), es[0], Moment(next, at), a, 0) && a <= n
    ensures TokenBucketRaceTightness.Leads(s, next, es[1..], w', at, at, n - a)
    ensures HeldDrops(next, es[1..], s.key, s.delay) == 0
  {
    var spent, dropped := CountsUnfold(w, es, s.key, s.delay);
    AdmissionsUnfold(w, es, s.key, s.delay);
    ReadingsReach(es[0].at, es[1..]);
    next, a := Step(w, es[0], s.delay), if Admits(w, es[0], s.key, s.delay) then 1 else 0;
    assert LimitBounded(es[0], s.key, s.most) && Spares(es[0], s.key, s.maxIdle);
  }

  /** A run at one instant that drops no held bucket. */
  lemma {:induction false} LeadsConnects(s: Setting, w: World, es: seq<Event>, w': World, at: real, n: nat) returns (p: Path)
    requires TokenBucketRaceTightness.Leads(s, w, es, w', at, at, n) && HeldDrops(w, es, s.key, s.delay) == 0
    ensures Connects(Within(s), Moment(w, at), p, Moment(w', at), n, 0)
    decreases |es|
  {
    if es == [] {
      p := Stop(Moment(w, at));
    } else {
      var next, a := FirstStepLeads(s, w, es, w', at, n);
      var rest := LeadsConnects(s, next, es[1..], w', at, n - a);
      p := Via(Moment(w, at), es[0], a, 0, rest);
    }
  }

  // ---- Calls that wait ----

  /** The reading of the `j`-th call: as long ago as the delay allows for a full bucket's worth, then one a tick. */
  function Reading(s: Setting, now: real, j: nat): real
    requires s.Valid()
  {
    if j < s.most then now - s.delay else Tick(s.most, now - s.delay, j - s.most + 1)
  }

  /** How many calls can wait: a full bucket, and what it regains within the delay. */
  function Waiters(s: Setting): nat
    requires s.Valid()
  {
    TicksFit(s.most, 0.0, s.delay);
    s.most + TicksWithin(s.most, s.delay)
  }

  lemma {:induction false} EarlierTicksFit(most: int, start: real, delay: real, i: nat, n: nat)
    requires most >= 1 && i <= n && Tick(most, start, n) <= start + delay
    ensures start <= Tick(most, start, i) <= start + delay
    decreases n - i
  {
    TicksGrow(most, start, i);
    if i < n {
      EarlierTicksFit(most, start, delay, i + 1, n);
    }
  }

  lemma ReadingsArePast(s: Setting, now: real, j: nat)
    requires s.Valid() && j < Waiters(s)
    ensures now - s.delay <= Reading(s, now, j) <= now
  {
    if j >= s.most {
      var i, n := j - s.most + 1, TicksWithin(s.most, s.delay);
      TicksFit(s.most, now - s.delay, s.delay);
      EarlierTicksFit(s.most, now - s.delay, s.delay, i, n);
    }
  }

  /** At `now` the key's current bucket `b` has been idle for long; `swept` are those it had before. */
  datatype Scene = Scene(s: Setting, swept: seq<Cell>, b: Bucket, now: real) {
    ghost predicate Valid() {
      && s.Valid() && AllValid(swept) && b.Valid() && b.capacity == s.most as real
      && now - b.lastRefill > s.maxIdle && now - b.lastRefill >= 60.0 + s.delay
    }
  }

  function Waiter(c: Scene, j: nat): Pending
    requires c.s.Valid()
  {
    Pending(c.s.key, c.s.most, Reading(c.s, c.now, j), Some(|c.swept|), true)
  }

  /** The calls from the `lo`-th up to but excluding the `hi`-th hold the bucket. */
  function Queue(c: Scene, lo: nat, hi: nat): map<nat, Pending>
    requires c.s.Valid()
  {
    map j: nat | lo <= j < hi :: Waiter(c, j)
  }

  function Crowded(c: Scene, n: nat): Moment
    requires c.s.Valid()
  {
    Moment(Resting(c.s.key, c.swept, c.b).(pending := Queue(c, 0, n)), c.now)
  }

  lemma QueueIsShaped(c: Scene, index: map<string, nat>, b: Bucket, lo: nat, hi: nat)
    requires c.s.Valid() && AllValid(c.swept) && b.Valid() && forall k | k in index :: k == c.s.key && index[k] == |c.swept|
    ensures Shaped(World(index, c.swept + [Cell(c.s.key, b)], Queue(c, lo, hi)))
  {
  }

  /** The `j`-th call has looked the bucket up. */
  function Looked(c: Scene, j: nat): Moment
    requires c.s.Valid()
  {
    var w := Crowded(c, j).world;
    Moment(w.(pending := w.pending[j := Waiter(c, j).(ready := false)]), c.now)
  }

  function Looks(c: Scene, j: nat): Event
    requires c.s.Valid()
  {
    Look(j, c.s.key, c.s.most, Reading(c.s, c.now, j), c.now)
  }

  /** The `j`-th call looks the bucket up and adopts it. */
  function Joins(c: Scene, j: nat): Path
    requires c.s.Valid()
  {
    Via(Crowded(c, j), Looks(c, j), 0, 0, OneLink(Looked(c, j), Adopt(j, c.now), Crowded(c, j + 1), 0, 0))
  }

  lemma OneMoreLooks(c: Scene, n: nat)
    requires c.Valid() && n < Waiters(c.s)
    ensures StepsTo(c.s, Crowded(c, n), Looks(c, n), Looked(c, n), 0, 0)
  {
    QueueIsShaped(c, Crowded(c, n).world.index, c.b, 0, n);
    ReadingsArePast(c.s, c.now, n);
  }

  lemma OneMoreWaits(c: Scene, n: nat)
    requires c.Valid() && n < Waiters(c.s)
    ensures Connects(Within(c.s), Crowded(c, n), Joins(c, n), Crowded(c, n + 1), 0, 0)
  {
    var w1, ready := Looked(c, n).world, Waiter(c, n);
    OneMoreLooks(c, n);
    ReadingsArePast(c.s, c.now, n);
    StepIsShaped(Crowded(c, n).world, Looks(c, n), c.s.delay);
    assert w1.cells[|c.swept| := w1.cells[|c.swept|]] == w1.cells;
    assert w1.pending[n := ready] == Queue(c, 0, n + 1);
    TwoLinks(Within(c.s), Crowded(c, n), Looks(c, n), Looked(c, n), Adopt(n, c.now), Crowded(c, n + 1));
  }

  lemma Crowd(c: Scene, n: nat) returns (p: Path)
    requires c.Valid() && n <= Waiters(c.s)
    ensures Connects(Within(c.s), Crowded(c, 0), p, Crowded(c, n), 0, 0)
  {
    forall j: nat | j < n ensures Connects(Within(c.s), Crowded(c, j), Joins(c, j), Crowded(c, j + 1), 0, 0) {
      OneMoreWaits(c, j);
    }
    p := Repeat(Within(c.s), (j: nat) => Crowded(c, j), (j: nat) => Joins(c, j), 0, n);
  }

  // ---- They take from the swept bucket ----

  /** The swept bucket when `j` of the calls have taken from it. */
  function Left(c: Scene, j: nat): Bucket
    requires c.s.Valid()
  {
    if j == 0 then c.b
    else if j <= c.s.most then Holding(c.s.most, (c.s.most - j) as real, c.now - c.s.delay)
    else Holding(c.s.most, 0.0, Tick(c.s.most, c.now - c.s.delay, j - c.s.most))
  }

  /** All the buckets the key has had. */
  function Cells(c: Scene, j: nat): seq<Cell>
    requires c.s.Valid()
  {
    c.swept + [Cell(c.s.key, Left(c, j))]
  }

  function Swept(c: Scene, j: nat): Moment
    requires c.s.Valid()
  {
    Moment(World(map[], Cells(c, j), Queue(c, j, Waiters(c.s))), c.now)
  }

  lemma LeftIsValid(c: Scene, j: nat)
    requires c.Valid()
    ensures Left(c, j).Valid() && AllValid(Cells(c, j))
  {
  }

  /** Each call finds a token: the first a bucket that a minute has filled, and those past the full bucket one a tick. */
  lemma TokenIsThere(c: Scene, j: nat)
    requires c.Valid()
    ensures
      var filled := Left(c, j).Refill(Reading(c.s, c.now, j));
      && filled.tokens >= 1.0
      && filled.(tokens := filled.tokens - 1.0) == Left(c, j + 1)
  {
    var made := c.now - c.s.delay;
    if j == 0 {
      E.MinuteRefillsFully(c.b, made);
    } else if j >= c.s.most {
      var last := Tick(c.s.most, made, j - c.s.most);
      TicksGrow(c.s.most, made, j - c.s.most);
      TickRefills(c.s.most, last, Reading(c.s, c.now, j));
      assert Left(c, j) == Holding(c.s.most, 0.0, last);
    }
  }

  function Takes(c: Scene, j: nat): Path
    requires c.s.Valid()
  {
    OneLink(Swept(c, j), Take(j, c.now), Swept(c, j + 1), 1, 0)
  }

  lemma OneTakes(c: Scene, j: nat)
    requires c.Valid() && j < Waiters(c.s)
    ensures Connects(Within(c.s), Swept(c, j), Takes(c, j), Swept(c, j + 1), 1, 0)
  {
    var w, w' := Swept(c, j).world, Swept(c, j + 1).world;
    LeftIsValid(c, j);
    QueueIsShaped(c, map[], Left(c, j), j, Waiters(c.s));
    TokenIsThere(c, j);
    ReadingsArePast(c.s, c.now, j);
    assert w.pending[j] == Waiter(c, j);
    assert TakeFrom(w, w.pending[j]).0 == Left(c, j + 1);
    assert w.pending - {j} == w'.pending;
    assert w.cells[|c.swept| := Cell(c.s.key, Left(c, j + 1))] == w'.cells;
    assert StepsTo(c.s, Swept(c, j), Take(j, c.now), Swept(c, j + 1), 1, 0);
  }

  lemma AllTake(c: Scene, n: nat) returns (p: Path)
    requires c.Valid() && n <= Waiters(c.s)
    ensures Connects(Within(c.s), Swept(c, 0), p, Swept(c, n), n, 0)
  {
    forall j: nat | j < n ensures Connects(Within(c.s), Swept(c, j), Takes(c, j), Swept(c, j + 1), 1, 0) {
      OneTakes(c, j);
    }
    p := Repeat(Within(c.s), (j: nat) => Swept(c, j), (j: nat) => Takes(c, j), 1, n);
  }

  function SweptNow(c: Scene): Path
    requires c.s.Valid()
  {
    OneLink(Crowded(c, Waiters(c.s)), Event.Sweep(c.s.key, c.s.maxIdle, c.now, c.now), Swept(c, 0), 0, 1)
  }

  lemma SweepUnderThem(c: Scene)
    requires c.Valid()
    ensures Connects(Within(c.s), Crowded(c, Waiters(c.s)), SweptNow(c), Swept(c, 0), 0, 1)
  {
    var w, e := Crowded(c, Waiters(c.s)).world, Event.Sweep(c.s.key, c.s.maxIdle, c.now, c.now);
    QueueIsShaped(c, w.index, c.b, 0, Waiters(c.s));
    assert w.index - {c.s.key} == map[];
    assert 0 in w.pending && w.pending[0].cell == Some(|c.swept|);
    assert StepsTo(c.s, Crowded(c, Waiters(c.s)), e, Swept(c, 0), 0, 1);
  }

  /** A bucket made now, with a reading as old as the delay allows, is not dropped at once. */
  lemma NewBucketStays(s: Setting, cells: seq<Cell>, now: real) returns (es: seq<Event>, b: Bucket)
    requires s.Valid() && AllValid(cells)
    ensures b.Valid() && b.capacity == s.most as real && b.lastRefill <= now
    ensures TokenBucketRaceTightness.Leads(s, Without(cells), es, Resting(s.key, cells, b), now, now, Waiters(s))
    ensures HeldDrops(Without(cells), es, s.key, s.delay) == 0
  {
    var sparing := s.(maxIdle := Later(s.maxIdle, 60.0 + s.delay));
    var ticks := TicksWithin(s.most, s.delay);
    TicksFit(s.most, now - s.delay, s.delay);
    var w;
    es, w := MadeLate(sparing, cells, now, ticks);
    b := Holding(s.most, 0.0, Tick(s.most, now - s.delay, ticks));
    assert SweepsSpare(es, s.key, 60.0 + s.delay) && SweepsSpare(es, s.key, s.maxIdle) by {
      assert forall i | 0 <= i < |es| :: Spares(es[i], s.key, sparing.maxIdle);
    }
    DropsAfter(Without(cells), es, s.key, s.delay, now, now);
  }

  /** A new bucket gives as much again. */
  lemma NewBucketGives(c: Scene) returns (p: Path, b: Bucket)
    requires c.Valid()
    ensures b.Valid() && b.capacity == c.s.most as real && b.lastRefill <= c.now
    ensures
      var n := Waiters(c.s);
      Connects(Within(c.s), Swept(c, n), p, Moment(Resting(c.s.key, Cells(c, n), b), c.now), n, 0)
  {
    var n := Waiters(c.s);
    LeftIsValid(c, n);
    var es;
    es, b := NewBucketStays(c.s, Cells(c, n), c.now);
    assert Swept(c, n).world == Without(Cells(c, n));
    p := LeadsConnects(c.s, Without(Cells(c, n)), es, Resting(c.s.key, Cells(c, n), b), c.now, n);
  }

  /**
   * While as many calls as the delay allows hold an idle bucket it is swept; they take all it can give, and
   * the next calls take as much again from its successor.
   */
  lemma SweepDoubles(c: Scene) returns (p: Path, b: Bucket)
    requires c.Valid()
    ensures b.Valid() && b.capacity == c.s.most as real && b.lastRefill <= c.now
    ensures AllValid(Cells(c, Waiters(c.s)))
    ensures
      var after := Moment(Resting(c.s.key, Cells(c, Waiters(c.s)), b), c.now);
      Connects(Within(c.s), Moment(Resting(c.s.key, c.swept, c.b), c.now), p, after, 2 * Waiters(c.s), 1)
  {
    var n := Waiters(c.s);
    var crowd := Crowd(c, n);
    SweepUnderThem(c);
    var takes := AllTake(c, n);
    var more;
    more, b := NewBucketGives(c);
    LeftIsValid(c, n);
    var after := Moment(Resting(c.s.key, Cells(c, n), b), c.now);
    p := Joined(Within(c.s), Swept(c, 0), takes, Swept(c, n), more, after, n, 0, n, 0);
    p := DropBetween(Within(c.s), Crowded(c, 0), crowd, Crowded(c, n), SweptNow(c), Swept(c, 0), p, after, 2 * n);
    assert Queue(c, 0, 0) == map[];
  }

  /** `n` sweeps, a `period` apart, each double what is admitted at their instant. */
  lemma {:induction false} SweepsDouble(c: Scene, period: real, n: nat) returns (p: Path, last: Moment)
    requires c.Valid() && n >= 1 && period > c.s.maxIdle && period >= 60.0 + c.s.delay
    ensures Connects(Within(c.s), Moment(Resting(c.s.key, c.swept, c.b), c.now), p, last, n * (2 * Waiters(c.s)), n)
    ensures last.time == c.now + Times(n - 1, period)
    decreases n
  {
    var once, b := SweepDoubles(c);
    var after := Moment(Resting(c.s.key, Cells(c, Waiters(c.s)), b), c.now);
    if n == 1 {
      p, last := once, after;
    } else {
      var next := Scene(c.s, Cells(c, Waiters(c.s)), b, c.now + period);
      var rest;
      rest, last := SweepsDouble(next, period, n - 1);
      rest := OnceMore(next, rest, last, (n - 1) * (2 * Waiters(c.s)), n - 1, after);
      p := Joined(Within(c.s), Moment(Resting(c.s.key, c.swept, c.b), c.now), once, after, rest, last,
                  2 * Waiters(c.s), 1, (n - 1) * (2 * Waiters(c.s)), n - 1);
    }
  }

  /** Nothing happens before the next sweep. */
  lemma OnceMore(c: Scene, p: Path, last: Moment, admitted: int, dropped: int, after: Moment) returns (r: Path)
    requires after.world == Resting(c.s.key, c.swept, c.b) && after.time <= c.now && dropped > 0
    requires Connects(Within(c.s), Moment(after.world, c.now), p, last, admitted, dropped)
    ensures Connects(Within(c.s), after, r, last, admitted, dropped)
  {
    assert p.Via?;
    assert StepsTo(c.s, Moment(after.world, c.now), p.event, First(p.rest), p.admits, p.drops);
    assert StepsTo(c.s, after, p.event, First(p.rest), p.admits, p.drops);
    r := StartedEarlier(Within(c.s), Moment(after.world, c.now), p, last, admitted, dropped, after);
  }

  // ---- The bound is reached, and the smaller one never holds ----

  /** What a bucket gives late, against what can wait for it. */
  lemma WaitersFillTheCeiling(s: Setting)
    requires s.Valid()
    ensures
      var ceiling := Ceiling(s.most as real, s.delay);
      && Waiters(s) as real <= ceiling < Waiters(s) as real + 1.0
      && ceiling == B.Allowance(s.most, 0.0, s.delay)
      && (TicksWithin(s.most, s.delay) as real == s.most as real * s.delay / 60.0 ==> Waiters(s) as real == ceiling)
  {
    var x := s.most as real * s.delay / 60.0;
    TicksFit(s.most, 0.0, s.delay);
    B.AllowanceIsBurstAndGain(s.most, 0.0, s.delay);
    assert B.Gain(s.most as real / 60.0, 0.0, s.delay) == x;
  }

  /** What a bucket would regain in the time by which a period is longer than need be. */
  function Spare(s: Setting, period: real): real {
    B.Gain(s.most as real / 60.0, 60.0 + s.delay, period)
  }

  lemma OnePeriodAdds(s: Setting, now: real, to: real, period: real)
    requires s.Valid()
    ensures B.Allowance(s.most, now, to + period) == B.Allowance(s.most, now, to) + Ceiling(s.most as real, s.delay) + Spare(s, period)
  {
    var rate := s.most as real / 60.0;
    B.AllowanceIsBurstAndGain(s.most, now, to);
    B.AllowanceIsBurstAndGain(s.most, now, to + period);
    assert B.Gain(rate, now, to + period) == B.Gain(rate, now, to) + period * rate;
    assert Spare(s, period) == period * rate - (60.0 + s.delay) * rate;
    assert (60.0 + s.delay) * rate == s.most as real + s.delay * rate;
  }

  /** The whole bound over `n` sweeps. */
  lemma {:induction false} BoundOverPeriods(s: Setting, now: real, period: real, n: nat)
    requires s.Valid() && n >= 1
    ensures
      var ceiling := Ceiling(s.most as real, s.delay);
      B.Allowance(s.most, now, now + Times(n - 1, period) + s.delay) + Times(n, ceiling)
        == Times(2 * n, ceiling) + Times(n - 1, Spare(s, period))
    decreases n
  {
    var ceiling := Ceiling(s.most as real, s.delay);
    if n == 1 {
      WaitersFillTheCeiling(s);
      SameSpan(s.most, now, now + s.delay, 0.0, s.delay);
      TwiceIs(ceiling, 0);
    } else {
      BoundOverPeriods(s, now, period, n - 1);
      OnePeriodAdds(s, now, now + Times(n - 2, period) + s.delay, period);
      TwiceIs(ceiling, n - 1);
    }
  }

  lemma TwiceIs(x: real, n: nat)
    ensures Times(2 * (n + 1), x) == Times(2 * n, x) + x + x
  {
    assert Times(2 * n + 1, x) == Times(2 * n, x) + x;
  }

  /**
   * For every limit, delay, idle time and number of sweeps, a period apart, a run from the empty limiter passes
   * a stretch that admits the whole bound, less two calls a sweep and what the period is longer than need be.
   * When a whole number of tokens is regained in the delay only the latter is missing.
   */
  lemma SweptBoundIsReached(s: Setting, period: real, n: nat)
    returns (first: seq<Event>, w: World, now: real, es: seq<Event>, last: Moment)
    requires s.Valid() && n >= 1 && period > s.maxIdle && period >= 60.0 + s.delay
    ensures TokenBucketRaceTightness.Leads(s, START, first, w, 0.0, 0.0, 1) && now >= 0.0
    ensures Inv(w, s.key, s.most, now) && StrayBuckets(w, s.key, |w.cells|) == 0
    ensures LimitsBounded(es, s.key, s.most) && SweepsSpare(es, s.key, s.maxIdle)
    ensures Counted(s, Moment(w, now), es, last, n * (2 * Waiters(s)), n) && last.time == now + Times(n - 1, period)
    ensures
      var admitted := (n * (2 * Waiters(s))) as real;
      var bound := B.Allowance(s.most, now, last.time + s.delay) + Times(n, Ceiling(s.most as real, s.delay));
      var missing := Times(n - 1, Spare(s, period));
      var whole := TicksWithin(s.most, s.delay) as real == s.most as real * s.delay / 60.0;
      && bound - missing - (2 * n) as real < admitted <= bound - missing
      && (whole ==> admitted == bound - missing)
  {
    var b := Holding(s.most, (s.most - 1) as real, 0.0);
    now := Later(s.maxIdle, 60.0 + s.delay) + 1.0;
    first, w := CallAt(s, 0.0, 0.0), Resting(s.key, [], b);
    assert START == Without([]);
    FirstCall(s, [], 0.0, 0.0, 0.0);
    RestingHasNoStrays(s, b, now);
    var p;
    p, last := SweepsDouble(Scene(s, [], b, now), period, n);
    es := Events(p);
    PathIsWithin(s, p);
    PathCounts(s, Moment(w, now), p, last, n * (2 * Waiters(s)), n);
    AdmittedAgainstBound(s, now, period, n);
  }

  lemma AdmittedAgainstBound(s: Setting, now: real, period: real, n: nat)
    requires s.Valid() && n >= 1
    ensures
      var admitted := (n * (2 * Waiters(s))) as real;
      var bound := B.Allowance(s.most, now, now + Times(n - 1, period) + s.delay) + Times(n, Ceiling(s.most as real, s.delay));
      var missing := Times(n - 1, Spare(s, period));
      var whole := TicksWithin(s.most, s.delay) as real == s.most as real * s.delay / 60.0;
      && bound - missing - (2 * n) as real < admitted <= bound - missing
      && (whole ==> admitted == bound - missing)
  {
    var ceiling, waiters := Ceiling(s.most as real, s.delay), Waiters(s);
    BoundOverPeriods(s, now, period, n);
    WaitersFillTheCeiling(s);
    TimesIsNear(2 * n, waiters, ceiling);
    assert n * (2 * waiters) == (2 * n) * waiters;
  }

  lemma {:induction false} TimesIsNear(n: nat, whole: nat, x: real)
    requires whole as real <= x < whole as real + 1.0
    ensures (n * whole) as real <= Times(n, x) <= (n * whole) as real + n as real
    ensures n > 0 ==> Times(n, x) < (n * whole) as real + n as real
    ensures x == whole as real ==> Times(n, x) == (n * whole) as real
    decreases n
  {
    if n > 0 {
      TimesIsNear(n - 1, whole, x);
      assert n * whole == (n - 1) * whole + whole;
    }
  }

  lemma RestingHasNoStrays(s: Setting, b: Bucket, now: real)
    requires s.Valid() && b.Valid() && b.lastRefill <= now && b.capacity <= s.most as real
    ensures var w := Resting(s.key, [], b); Inv(w, s.key, s.most, now) && StrayBuckets(w, s.key, |w.cells|) == 0
  {
    RestingIsShaped(s.key, [], b);
    assert [] + [Cell(s.key, b)] == [Cell(s.key, b)];
  }

  /** Every stretch of every run keeps the racing bound as it is, whatever is admitted out of swept buckets. */
  ghost predicate MeetsStrayFree(s: Setting) {
    forall w, es, from |
      && Inv(w, s.key, s.most, from) && Legal(w, es, s.delay) && Clocked(from, es)
      && LimitsBounded(es, s.key, s.most) && SweepsSpare(es, s.key, s.maxIdle)
      :: Admissions(w, es, s.key, s.delay) as real <= B.Allowance(s.most, from, FinalReading(from, es) + s.delay)
  }

  lemma DoubledExceeds(s: Setting, now: real)
    requires s.Valid()
    ensures (2 * Waiters(s)) as real > B.Allowance(s.most, now, now + s.delay)
  {
    WaitersFillTheCeiling(s);
    TicksFit(s.most, 0.0, s.delay);
    SameSpan(s.most, now, now + s.delay, 0.0, s.delay);
  }

  /** It is kept for no limit, delay and idle time at all: one sweep exceeds it. */
  lemma StrayFreeBoundNeverHolds(s: Setting)
    requires s.Valid()
    ensures !MeetsStrayFree(s)
  {
    var first, w, now, es, last := SweptBoundIsReached(s, Later(s.maxIdle, 60.0 + s.delay) + 1.0, 1);
    DoubledExceeds(s, now);
    assert last.time == now && Admissions(w, es, s.key, s.delay) == 2 * Waiters(s);
  }
}
