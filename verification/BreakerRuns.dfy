// The breaker under concurrent calls.
//
// A call is admitted by `Begin` and finishes by `End`, so any number of other events can happen in
// between and a call can finish in a mode, or in an epoch, other than the one that admitted it. An
// epoch is the stretch between two mode changes; the breaker itself does not record epochs, so the
// world below keeps the bookkeeping the theorems speak about beside the breaker.

module BreakerRuns {
  import opened Breakers

  /**
   * - current: unfinished calls admitted in this epoch
   * - older: unfinished calls admitted in an earlier epoch
   * - admitted: how many calls this epoch has admitted
   * - stale: how many completions of older calls have landed in this epoch
   * - history: one entry per completion in this epoch, true for an upstream failure
   */
  datatype World = World(
    breaker: Breaker,
    current: set<nat>,
    older: set<nat>,
    admitted: nat,
    stale: nat,
    history: seq<bool>)

  datatype Event =
    | Begin(id: nat, now: int, stamp: int)
    | End(id: nat, err: CallError, at: int)
    | TripAt(at: int)
    | ResetAt(at: int)

  function Start(now: int): World {
    World(NewBreaker(now), {}, {}, 0, 0, [])
  }

  /** Moves to `b`; a changed mode opens a new epoch. */
  function Settle(w: World, b: Breaker): World {
    if b.mode == w.breaker.mode then w.(breaker := b)
    else World(b, {}, w.current + w.older, 0, 0, [])
  }

  predicate Enabled(w: World, e: Event) {
    match e
    case Begin(id, _, _) => id !in w.current && id !in w.older
    case End(id, _, _) => id in w.current || id in w.older
    case _ => true
  }

  predicate Admits(cfg: Config, w: World, e: Event) {
    e.Begin? && w.breaker.BeforeCall(cfg, e.now, e.stamp).1
  }

  function Step(cfg: Config, w: World, e: Event): World {
    match e
    case Begin(id, now, stamp) =>
      var (b, ok) := w.breaker.BeforeCall(cfg, now, stamp);
      if ok then
        var next := Settle(w, b);
        next.(current := next.current + {id}, admitted := next.admitted + 1)
      else Settle(w, b)
    case End(id, err, at) =>
      var finished := w.(current := w.current - {id}, older := w.older - {id},
                         stale := if id in w.older then w.stale + 1 else w.stale,
                         history := w.history + [cfg.isFailure(err)]);
      Settle(finished, w.breaker.AfterCall(cfg, err, at))
    case TripAt(at) => Settle(w, w.breaker.Trip(at))
    case ResetAt(at) => Settle(w, w.breaker.Reset(at))
  }

  function Run(cfg: Config, w: World, es: seq<Event>): World
    decreases |es|
  {
    if es == [] then w else Run(cfg, Step(cfg, w, es[0]), es[1..])
  }

  predicate Legal(cfg: Config, w: World, es: seq<Event>)
    decreases |es|
  {
    es == [] || (Enabled(w, es[0]) && Legal(cfg, Step(cfg, w, es[0]), es[1..]))
  }

  /** The length of the all-failure suffix of a history. */
  function FailureSuffix(h: seq<bool>): nat {
    if h == [] || !h[|h| - 1] then 0 else 1 + FailureSuffix(h[..|h| - 1])
  }

  ghost predicate Inv(cfg: Config, w: World) {
    var b := w.breaker;
    && w.current !! w.older
    && (b.mode == Closed ==>
      b.inFlight == 0 && b.successes == 0 && b.failures == FailureSuffix(w.history) < cfg.failureThreshold)
    && (b.mode == HalfOpen ==>
      && 0 <= b.inFlight <= 1
      && b.failures == 0
      && b.successes == |w.history| < cfg.successThreshold
      && (forall i | 0 <= i < |w.history| :: !w.history[i])
      && w.stale <= |w.history|
      && w.admitted <= b.inFlight + b.successes
      && |w.current| <= b.inFlight + w.stale)
    && (b.mode == Open ==>
      b.inFlight == 0 && b.successes == 0 && b.failures == 0 && w.admitted == 0 && w.current == {})
  }

  lemma BeginKeepsInv(cfg: Config, w: World, e: Event)
    requires cfg.Valid() && Inv(cfg, w) && Enabled(w, e) && e.Begin?
    ensures Inv(cfg, Step(cfg, w, e))
  {
  }

  lemma ClosedEndKeepsInv(cfg: Config, w: World, e: Event)
    requires cfg.Valid() && Inv(cfg, w) && Enabled(w, e) && e.End? && w.breaker.mode != HalfOpen
    ensures Inv(cfg, Step(cfg, w, e))
  {
    var h := w.history + [cfg.isFailure(e.err)];
    assert h[..|h| - 1] == w.history;
  }

  lemma OneFewer<T>(s: set<T>, x: T)
    ensures |s - {x}| == if x in s then |s| - 1 else |s|
  {
    if x in s {
      assert s - {x} + {x} == s;
    } else {
      assert s - {x} == s;
    }
  }

  /** The completion ends the half-open epoch. */
  lemma LastProbeEndKeepsInv(cfg: Config, w: World, e: Event)
    requires cfg.Valid() && Inv(cfg, w) && Enabled(w, e) && e.End? && w.breaker.mode == HalfOpen
    requires Step(cfg, w, e).breaker.mode != HalfOpen
    ensures Inv(cfg, Step(cfg, w, e))
  {
    var next := Step(cfg, w, e);
    assert next.current == {} && next.history == [] && next.admitted == 0;
  }

  lemma ProbeEndKeepsInv(cfg: Config, w: World, e: Event)
    requires cfg.Valid() && Inv(cfg, w) && Enabled(w, e) && e.End? && w.breaker.mode == HalfOpen
    requires Step(cfg, w, e).breaker.mode == HalfOpen
    ensures Inv(cfg, Step(cfg, w, e))
  {
    var next := Step(cfg, w, e);
    OneFewer(w.current, e.id);
    assert !cfg.isFailure(e.err) && next.breaker.successes == w.breaker.successes + 1;
    assert next.current == w.current - {e.id} && next.history == w.history + [false];
  }

  lemma StepKeepsInv(cfg: Config, w: World, e: Event)
    requires cfg.Valid() && Inv(cfg, w) && Enabled(w, e)
    ensures Inv(cfg, Step(cfg, w, e))
  {
    match e
    case Begin(_, _, _) => BeginKeepsInv(cfg, w, e);
    case End(_, _, _) =>
      if w.breaker.mode != HalfOpen {
        ClosedEndKeepsInv(cfg, w, e);
      } else if Step(cfg, w, e).breaker.mode == HalfOpen {
        ProbeEndKeepsInv(cfg, w, e);
      } else {
        LastProbeEndKeepsInv(cfg, w, e);
      }
    case TripAt(_) =>
    case ResetAt(_) =>
  }

  lemma {:induction false} RunKeepsInv(cfg: Config, w: World, es: seq<Event>)
    requires cfg.Valid() && Inv(cfg, w) && Legal(cfg, w, es)
    ensures Inv(cfg, Run(cfg, w, es))
    decreases |es|
  {
    if es != [] {
      StepKeepsInv(cfg, w, es[0]);
      RunKeepsInv(cfg, Step(cfg, w, es[0]), es[1..]);
    }
  }

  /** The counters of every reachable breaker: the probe count is 0 or 1, and no threshold is left standing. */
  lemma ReachableCounters(cfg: Config, start: int, es: seq<Event>)
    requires cfg.Valid() && Legal(cfg, Start(start), es)
    ensures
      var b := Run(cfg, Start(start), es).breaker;
      && 0 <= b.inFlight <= 1
      && (b.mode != HalfOpen ==> b.inFlight == 0)
      && (b.mode == Closed ==> 0 <= b.failures < cfg.failureThreshold && b.successes == 0)
      && (b.mode == HalfOpen ==> 0 <= b.successes < cfg.successThreshold && b.failures == 0)
      && (b.mode == Open ==> b.failures == 0 && b.successes == 0)
  {
    RunKeepsInv(cfg, Start(start), es);
  }

  /**
   * While the breaker is half-open, the unfinished calls it admitted number at most one more than the
   * completions of older calls that landed meanwhile. Every completion that leaves it half-open is a
   * success, so the whole epoch admits at most `successThreshold` calls.
   */
  lemma HalfOpenAdmissionBound(cfg: Config, start: int, es: seq<Event>)
    requires cfg.Valid() && Legal(cfg, Start(start), es)
    requires Run(cfg, Start(start), es).breaker.mode == HalfOpen
    ensures
      var w := Run(cfg, Start(start), es);
      && |w.current| <= 1 + w.stale
      && (w.stale == 0 ==> |w.current| <= 1)
      && w.admitted <= cfg.successThreshold
      && |w.current| <= cfg.successThreshold
  {
    RunKeepsInv(cfg, Start(start), es);
  }

  // ---- The bound is attained ----

  lemma {:induction false} RunSplits(cfg: Config, w: World, xs: seq<Event>, ys: seq<Event>)
    ensures Run(cfg, w, xs + ys) == Run(cfg, Run(cfg, w, xs), ys)
    ensures Legal(cfg, w, xs + ys) <==> Legal(cfg, w, xs) && Legal(cfg, Run(cfg, w, xs), ys)
    decreases |xs|
  {
    if xs == [] {
      assert xs + ys == ys;
    } else {
      assert (xs + ys)[1..] == xs[1..] + ys;
      RunSplits(cfg, Step(cfg, w, xs[0]), xs[1..], ys);
    }
  }

  ghost predicate Reachable(cfg: Config, w: World) {
    exists start, es :: Legal(cfg, Start(start), es) && Run(cfg, Start(start), es) == w
  }

  lemma ReachableStep(cfg: Config, w: World, e: Event)
    requires Reachable(cfg, w) && Enabled(w, e)
    ensures Reachable(cfg, Step(cfg, w, e))
  {
    var start, es :| Legal(cfg, Start(start), es) && Run(cfg, Start(start), es) == w;
    RunSplits(cfg, Start(start), es, [e]);
    assert Legal(cfg, w, [e]) && Run(cfg, w, [e]) == Step(cfg, w, e);
    assert Legal(cfg, Start(start), es + [e]);
  }

  /** The call ids from `lo` up to but excluding `hi`. */
  function Ids(lo: nat, hi: nat): (s: set<nat>)
    requires lo <= hi
    ensures forall i :: i in s <==> lo <= i < hi
    ensures |s| == hi - lo
    decreases hi
  {
    if lo == hi then {} else Ids(lo, hi - 1) + {hi - 1}
  }

  /**
   * A half-open world: calls `n..top` are unfinished probes, calls `done..n` admitted earlier are
   * still out, and the other earlier calls have succeeded since.
   */
  ghost predicate Probing(w: World, n: nat, done: nat, top: nat) {
    && done <= n <= top
    && w.breaker.mode == HalfOpen && w.breaker.inFlight == top - n - done && w.breaker.successes == done
    && w.current == Ids(n, top)
    && w.older == Ids(done, n)
  }

  /** `n` calls admitted while closed are still out when the breaker opens. */
  ghost predicate Tripped(w: World, n: nat) {
    w.breaker == Breaker(Open, 0, 0, 0, 0) && w.current == {} && w.older == Ids(0, n)
  }

  lemma TripWhileClosed(cfg: Config, w: World, n: nat)
    requires w.breaker == NewBreaker(0) && w.older == {} && w.current == Ids(0, n)
    ensures Tripped(Step(cfg, w, TripAt(0)), n)
  {
    assert w.current + w.older == Ids(0, n);
  }

  lemma ProbeAfterTrip(cfg: Config, w: World, n: nat)
    requires cfg.Valid() && Tripped(w, n)
    ensures Enabled(w, Begin(n, cfg.cooldown, cfg.cooldown))
    ensures Probing(Step(cfg, w, Begin(n, cfg.cooldown, cfg.cooldown)), n, 0, n + 1)
  {
    var next := Step(cfg, w, Begin(n, cfg.cooldown, cfg.cooldown));
    assert next.breaker == Breaker(HalfOpen, 0, 0, 1, cfg.cooldown);
    assert next.older == Ids(0, n) && next.current == {n};
    assert {n} == Ids(n, n + 1);
  }

  /** `n` calls are admitted while closed, the breaker is tripped, and the first probe goes out after the cooldown. */
  lemma FirstProbe(cfg: Config, n: nat) returns (w: World)
    requires cfg.Valid() && n > 0
    ensures Reachable(cfg, w) && Probing(w, n, 0, n + 1)
  {
    w := Start(0);
    assert Legal(cfg, Start(0), []) && Run(cfg, Start(0), []) == w;
    var i := 0;
    while i < n
      invariant 0 <= i <= n && Reachable(cfg, w)
      invariant w.breaker == NewBreaker(0) && w.older == {} && w.current == Ids(0, i)
    {
      ReachableStep(cfg, w, Begin(i, 0, 0));
      w := Step(cfg, w, Begin(i, 0, 0));
      i := i + 1;
    }
    TripWhileClosed(cfg, w, n);
    ReachableStep(cfg, w, TripAt(0));
    w := Step(cfg, w, TripAt(0));
    ProbeAfterTrip(cfg, w, n);
    ReachableStep(cfg, w, Begin(n, cfg.cooldown, cfg.cooldown));
    w := Step(cfg, w, Begin(n, cfg.cooldown, cfg.cooldown));
  }

  lemma DropFirstId(lo: nat, hi: nat)
    requires lo < hi
    ensures Ids(lo, hi) - {lo} == Ids(lo + 1, hi)
  {
  }

  /** One older call succeeds, which frees the probe slot. */
  lemma OlderSucceeds(cfg: Config, w: World, n: nat, done: nat, err: CallError) returns (next: World)
    requires cfg.Valid() && !cfg.isFailure(err) && done + 1 < cfg.successThreshold
    requires done < n && Reachable(cfg, w) && Probing(w, n, done, n + done + 1)
    ensures Reachable(cfg, next) && Probing(next, n, done + 1, n + done + 1)
  {
    assert done !in w.current;
    assert w.current - {done} == w.current;
    DropFirstId(done, n);
    ReachableStep(cfg, w, End(done, err, 0));
    next := Step(cfg, w, End(done, err, 0));
  }

  /** The free slot admits another probe beside the earlier ones. */
  lemma AnotherProbe(cfg: Config, w: World, n: nat, done: nat) returns (next: World)
    requires cfg.Valid() && Reachable(cfg, w) && Probing(w, n, done, n + done)
    ensures Reachable(cfg, next) && Probing(next, n, done, n + done + 1)
  {
    ReachableStep(cfg, w, Begin(n + done, 0, 0));
    next := Step(cfg, w, Begin(n + done, 0, 0));
    assert w.current + {n + done} == Ids(n, n + done + 1);
  }

  /** Whenever some result counts as a success, some run has `successThreshold` probes outstanding at once. */
  lemma ProbesCanReachTheThreshold(cfg: Config, err: CallError) returns (w: World)
    requires cfg.Valid() && !cfg.isFailure(err)
    ensures Reachable(cfg, w) && w.breaker.mode == HalfOpen && |w.current| == cfg.successThreshold
  {
    var n := cfg.successThreshold;
    w := FirstProbe(cfg, n);
    var done := 0;
    while done + 1 < n
      invariant 0 <= done < n && Reachable(cfg, w) && Probing(w, n, done, n + done + 1)
    {
      w := OlderSucceeds(cfg, w, n, done, err);
      done := done + 1;
      w := AnotherProbe(cfg, w, n, done);
    }
  }

  ghost predicate AlwaysSingleProbe(cfg: Config) {
    forall w :: Reachable(cfg, w) && w.breaker.mode == HalfOpen ==> |w.current| <= 1
  }

  /**
   * The source promises a single probe at a time while half-open. It keeps that promise in every run
   * exactly when one success closes the breaker, or when no result ever counts as a success.
   */
  lemma SingleProbeExactly(cfg: Config)
    requires cfg.Valid()
    ensures AlwaysSingleProbe(cfg) <==> (cfg.successThreshold == 1 || forall err :: cfg.isFailure(err))
  {
    if cfg.successThreshold == 1 || forall err :: cfg.isFailure(err) {
      forall w | Reachable(cfg, w) && w.breaker.mode == HalfOpen
        ensures |w.current| <= 1
      {
        var start, es :| Legal(cfg, Start(start), es) && Run(cfg, Start(start), es) == w;
        HalfOpenAdmissionBound(cfg, start, es);
        if cfg.successThreshold != 1 {
          HistoryIsClassified(cfg, Start(start), es);
          RunKeepsInv(cfg, Start(start), es);
        }
      }
    } else {
      var err :| !cfg.isFailure(err);
      var w := ProbesCanReachTheThreshold(cfg, err);
    }
  }

  ghost predicate AllFailed(h: seq<bool>) {
    forall i | 0 <= i < |h| :: h[i]
  }

  /** When every result is a failure, every recorded completion is one. */
  lemma {:induction false} HistoryIsClassified(cfg: Config, w: World, es: seq<Event>)
    requires forall err :: cfg.isFailure(err)
    requires AllFailed(w.history)
    ensures var h := Run(cfg, w, es).history; AllFailed(h) && (h != [] ==> h[0])
    decreases |es|
  {
    if es != [] {
      HistoryIsClassified(cfg, Step(cfg, w, es[0]), es[1..]);
    }
  }

  // ---- The trip decision ----

  /** What the suffix length means: at least `n` exactly when the last `n` completions all failed. */
  lemma {:induction false} FailureSuffixMeans(h: seq<bool>, n: nat)
    requires n <= |h|
    ensures FailureSuffix(h) <= |h|
    ensures n <= FailureSuffix(h) <==> forall i | |h| - n <= i < |h| :: h[i]
    decreases |h|
  {
    if h != [] && n > 0 {
      var front := h[..|h| - 1];
      FailureSuffixMeans(front, n - 1);
      if h[|h| - 1] && forall i | |front| - (n - 1) <= i < |front| :: front[i] {
        forall i | |h| - n <= i < |h| ensures h[i] {
          assert i < |front| ==> front[i];
        }
      }
      if forall i | |h| - n <= i < |h| :: h[i] {
        assert h[|h| - 1];
        forall i | |front| - (n - 1) <= i < |front| ensures front[i] { assert h[i]; }
      }
    } else if h != [] {
      FailureSuffixMeans(h[..|h| - 1], 0);
    }
  }

  /**
   * A closed breaker opens on a completion exactly when that completion and the
   * `failureThreshold - 1` before it, all since the breaker closed, failed.
   */
  lemma TripsExactlyOnTheSuffix(cfg: Config, start: int, es: seq<Event>, e: Event)
    requires cfg.Valid() && Legal(cfg, Start(start), es)
    requires
      var w := Run(cfg, Start(start), es);
      w.breaker.mode == Closed && e.End? && Enabled(w, e)
    ensures
      var w := Run(cfg, Start(start), es);
      var h := w.history + [cfg.isFailure(e.err)];
      var n := cfg.failureThreshold;
      && w.breaker.failures == FailureSuffix(w.history)
      && (Step(cfg, w, e).breaker.mode == Open <==> |h| >= n && forall i | |h| - n <= i < |h| :: h[i])
      && (Step(cfg, w, e).breaker.mode != Open ==> Step(cfg, w, e).breaker.mode == Closed)
  {
    RunKeepsInv(cfg, Start(start), es);
    var w := Run(cfg, Start(start), es);
    var h := w.history + [cfg.isFailure(e.err)];
    assert h[..|h| - 1] == w.history;
    FailureSuffixMeans(h, 0);
    if cfg.failureThreshold <= |h| {
      FailureSuffixMeans(h, cfg.failureThreshold);
    }
  }

  /** A half-open breaker closes exactly on the `successThreshold`-th completion, all of which succeeded. */
  lemma ClosesExactlyOnSuccesses(cfg: Config, start: int, es: seq<Event>, e: Event)
    requires cfg.Valid() && Legal(cfg, Start(start), es)
    requires
      var w := Run(cfg, Start(start), es);
      w.breaker.mode == HalfOpen && e.End? && Enabled(w, e)
    ensures
      var w := Run(cfg, Start(start), es);
      var h := w.history + [cfg.isFailure(e.err)];
      && (Step(cfg, w, e).breaker.mode == Closed <==>
          |h| == cfg.successThreshold && forall i | 0 <= i < |h| :: !h[i])
      && (Step(cfg, w, e).breaker.mode == Open <==> h[|h| - 1])
  {
    RunKeepsInv(cfg, Start(start), es);
    var w := Run(cfg, Start(start), es);
    var h := w.history + [cfg.isFailure(e.err)];
    assert h[|h| - 1] == cfg.isFailure(e.err);
    assert forall i | 0 <= i < |w.history| :: h[i] == w.history[i];
  }

  // ---- Outage shielding ----

  function FirstReading(e: Event): int {
    if e.Begin? then e.now else e.at
  }

  function LastReading(e: Event): int {
    if e.Begin? then e.stamp else e.at
  }

  /** The clock readings of a run never decrease, starting from `t`. */
  predicate Clocked(t: int, es: seq<Event>)
    decreases |es|
  {
    es == [] ||
    (t <= FirstReading(es[0]) <= LastReading(es[0]) && Clocked(LastReading(es[0]), es[1..]))
  }

  function FinalReading(t: int, es: seq<Event>): int
    decreases |es|
  {
    if es == [] then t else FinalReading(LastReading(es[0]), es[1..])
  }

  predicate Outage(cfg: Config, es: seq<Event>) {
    forall i | 0 <= i < |es| :: !es[i].ResetAt? && (es[i].End? ==> cfg.isFailure(es[i].err))
  }

  function Admissions(cfg: Config, w: World, es: seq<Event>): nat
    decreases |es|
  {
    if es == [] then 0
    else (if Admits(cfg, w, es[0]) then 1 else 0) + Admissions(cfg, Step(cfg, w, es[0]), es[1..])
  }

  /** `k` calls have been admitted after `since`, and the next must wait for another whole cooldown. */
  ghost predicate Shielded(cfg: Config, w: World, since: int, k: nat) {
    && (w.breaker.mode == Open || (w.breaker.mode == HalfOpen && w.breaker.inFlight >= 1))
    && w.breaker.lastChange - since >= k * cfg.cooldown
  }

  lemma StepKeepsShield(cfg: Config, w: World, e: Event, since: int, k: nat)
    requires cfg.Valid() && Shielded(cfg, w, since, k)
    requires w.breaker.lastChange <= FirstReading(e) <= LastReading(e)
    requires !e.ResetAt? && (e.End? ==> cfg.isFailure(e.err))
    ensures Shielded(cfg, Step(cfg, w, e), since, if Admits(cfg, w, e) then k + 1 else k)
    ensures w.breaker.lastChange <= Step(cfg, w, e).breaker.lastChange <= LastReading(e)
  {
    assert (k + 1) * cfg.cooldown == k * cfg.cooldown + cfg.cooldown;
  }

  lemma {:induction false} ShieldHolds(cfg: Config, w: World, es: seq<Event>, since: int, k: nat, t: int)
    requires cfg.Valid() && Shielded(cfg, w, since, k) && w.breaker.lastChange <= t
    requires Clocked(t, es) && Outage(cfg, es)
    ensures (k + Admissions(cfg, w, es)) * cfg.cooldown <= FinalReading(t, es) - since
    decreases |es|
  {
    if es != [] {
      var e := es[0];
      StepKeepsShield(cfg, w, e, since, k);
      var k' := if Admits(cfg, w, e) then k + 1 else k;
      ShieldHolds(cfg, Step(cfg, w, e), es[1..], since, k', LastReading(e));
      assert k + Admissions(cfg, w, es) == k' + Admissions(cfg, Step(cfg, w, e), es[1..]);
    }
  }

  /**
   * From the moment the breaker opens, as long as every completion (of a fresh or of a stale call) is an
   * upstream failure and nobody resets it, the calls let through take at least one cooldown each.
   */
  lemma OutageShielding(cfg: Config, w: World, es: seq<Event>)
    requires cfg.Valid() && w.breaker.mode == Open
    requires Clocked(w.breaker.lastChange, es) && Outage(cfg, es)
    ensures
      var since := w.breaker.lastChange;
      Admissions(cfg, w, es) * cfg.cooldown <= FinalReading(since, es) - since
  {
    ShieldHolds(cfg, w, es, w.breaker.lastChange, 0, w.breaker.lastChange);
  }

  /**
   * Nothing but a completion, `Trip` or `Reset` ends a half-open epoch. A probe that never reports back
   * (its engine call panics, say) makes the breaker refuse every later call, however long they wait.
   */
  lemma {:induction false} LostProbeBlocks(cfg: Config, w: World, es: seq<Event>)
    requires w.breaker.mode == HalfOpen && w.breaker.inFlight >= 1
    requires Legal(cfg, w, es) && forall i | 0 <= i < |es| :: es[i].Begin?
    ensures Run(cfg, w, es) == w && Admissions(cfg, w, es) == 0
    decreases |es|
  {
    if es != [] {
      assert es[0].Begin? && Step(cfg, w, es[0]) == w;
      LostProbeBlocks(cfg, Step(cfg, w, es[0]), es[1..]);
    }
  }

  // ---- The shield is reached ----

  /** After every cooldown one call is let through, and fails at once. */
  function Attempts(cfg: Config, since: int, err: CallError, k: nat): seq<Event>
    decreases k
  {
    if k == 0 then []
    else
      var now := since + cfg.cooldown;
      [Begin(0, now, now)] + ([End(0, err, now)] + Attempts(cfg, now, err, k - 1))
  }

  lemma OneAttempt(cfg: Config, w: World, now: int, err: CallError, rest: seq<Event>)
    requires cfg.Valid() && cfg.isFailure(err) && w.breaker.mode == Open && now == w.breaker.lastChange + cfg.cooldown
    requires 0 !in w.current && 0 !in w.older
    ensures
      var es := [Begin(0, now, now)] + ([End(0, err, now)] + rest);
      var w' := Step(cfg, Step(cfg, w, Begin(0, now, now)), End(0, err, now));
      && w'.breaker.mode == Open && w'.breaker.lastChange == now && 0 !in w'.current && 0 !in w'.older
      && (Legal(cfg, w, es) <==> Legal(cfg, w', rest))
      && Admissions(cfg, w, es) == 1 + Admissions(cfg, w', rest)
  {
    var begin, end := Begin(0, now, now), End(0, err, now);
    var w1 := Step(cfg, w, begin);
    assert ([begin] + ([end] + rest))[1..] == [end] + rest && ([end] + rest)[1..] == rest;
    assert w1.breaker == Breaker(HalfOpen, 0, 0, 1, now) && w1.current == {0};
    assert Admissions(cfg, w1, [end] + rest) == Admissions(cfg, Step(cfg, w1, end), rest);
  }

  /** For every `k` some outage lets exactly `k` calls through in exactly `k` cooldowns. */
  lemma {:induction false} ShieldIsReached(cfg: Config, w: World, err: CallError, k: nat)
    requires cfg.Valid() && cfg.isFailure(err) && w.breaker.mode == Open && 0 !in w.current && 0 !in w.older
    ensures
      var since := w.breaker.lastChange;
      var es := Attempts(cfg, since, err, k);
      && Legal(cfg, w, es) && Clocked(since, es) && Outage(cfg, es)
      && Admissions(cfg, w, es) == k && FinalReading(since, es) - since == k * cfg.cooldown
    decreases k
  {
    if k > 0 {
      var now := w.breaker.lastChange + cfg.cooldown;
      var begin, end, rest := Begin(0, now, now), End(0, err, now), Attempts(cfg, now, err, k - 1);
      OneAttempt(cfg, w, now, err, rest);
      ShieldIsReached(cfg, Step(cfg, Step(cfg, w, begin), end), err, k - 1);
      var es := Attempts(cfg, w.breaker.lastChange, err, k);
      assert es == [begin] + ([end] + rest) && es[1..] == [end] + rest && ([end] + rest)[1..] == rest;
      assert forall i | 2 <= i < |es| :: es[i] == rest[i - 2];
      assert k * cfg.cooldown == (k - 1) * cfg.cooldown + cfg.cooldown;
    }
  }
}
