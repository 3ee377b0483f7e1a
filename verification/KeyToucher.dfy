// The throttle on last-used updates of API keys.

module KeyTouchers {
  import opened Units

  /** Above this size the map of last touches is pruned. */
  const PRUNE_ABOVE := 2000

  type Times = map<string, int>

  predicate Throttled(m: Times, key: string, interval: int, now: int) {
    key in m && now - m[key] < interval
  }

  function Prune(m: Times, interval: int, now: int): Times {
    map k | k in m && now - m[k] < interval :: m[k]
  }

  /** The state under the mutex, and the number of semaphore slots taken. */
  datatype Toucher = Toucher(last: Times, outstanding: nat)

  datatype Limits = Limits(interval: int, slots: nat)

  /**
   * The result is true when a write is dispatched. The touch is noted even when no slot is free.
   * `pruning` is off in the specification that never prunes.
   */
  function Decide(l: Limits, t: Toucher, key: string, now: int, pruning: bool): (Toucher, bool) {
    if key == "" || Throttled(t.last, key, l.interval, now) then (t, false)
    else
      var noted := t.last[key := now];
      var kept := if pruning && |noted| > PRUNE_ABOVE then Prune(noted, l.interval, now) else noted;
      if t.outstanding < l.slots then (Toucher(kept, t.outstanding + 1), true) else (Toucher(kept, t.outstanding), false)
  }

  class KeyToucher {
    const interval: int
    const slots: nat
    var lastTouched: map<string, int>
    var taken: nat

    ghost function View(): Toucher
      reads this
    {
      Toucher(lastTouched, taken)
    }

    constructor (interval: int, maxConcurrency: int)
      ensures this.interval == (if interval <= 0 then 300_000_000_000 else interval)
      ensures slots == (if maxConcurrency <= 0 then 10 else maxConcurrency)
      ensures View() == Toucher(map[], 0)
    {
      this.interval := if interval <= 0 then 5 * MINUTE else interval;
      slots := if maxConcurrency <= 0 then 10 else maxConcurrency;
      lastTouched, taken := map[], 0;
    }

    method Touch(keyID: string, now: int) returns (dispatched: bool)
      modifies this
      ensures keyID == "" ==> !dispatched && View() == old(View())
      ensures (View(), dispatched) == Decide(Limits(interval, slots), old(View()), keyID, now, true)
    {
      if keyID == "" {
        return false;
      }
      if keyID in lastTouched && now - lastTouched[keyID] < interval {
        return false;
      }
      lastTouched := lastTouched[keyID := now];
      if |lastTouched| > PRUNE_ABOVE {
        PruneExpired(now);
      }
      if taken < slots {
        taken := taken + 1;
        return true;
      }
      return false;
    }

    method PruneExpired(now: int)
      modifies this
      ensures lastTouched == Prune(old(lastTouched), interval, now) && taken == old(taken)
    {
      ghost var before := lastTouched;
      var todo := lastTouched.Keys;
      while todo != {}
        invariant todo <= before.Keys && taken == old(taken)
        invariant forall k | k in lastTouched :: k in before && lastTouched[k] == before[k]
        invariant forall k | k in before :: k in lastTouched <==> k in todo || now - before[k] < interval
        decreases todo
      {
        var k :| k in todo;
        if now - lastTouched[k] >= interval {
          lastTouched := lastTouched - {k};
        }
        todo := todo - {k};
      }
    }

    /** The end of a dispatched write. */
    method ReleaseSlot()
      requires taken > 0
      modifies this
      ensures View() == old(View()).(outstanding := old(taken) - 1)
    {
      taken := taken - 1;
    }
  }

  // ---- Runs ----

  datatype Event = TouchAt(key: string, now: int) | WriteDone(now: int)

  predicate Enabled(t: Toucher, e: Event) {
    e.WriteDone? ==> t.outstanding > 0
  }

  predicate Dispatches(l: Limits, t: Toucher, e: Event, key: string) {
    e.TouchAt? && e.key == key && Decide(l, t, e.key, e.now, true).1
  }

  function Step(l: Limits, t: Toucher, e: Event, pruning: bool): Toucher
    requires Enabled(t, e)
  {
    match e
    case TouchAt(key, now) => Decide(l, t, key, now, pruning).0
    case WriteDone(_) => t.(outstanding := t.outstanding - 1)
  }

  predicate Legal(l: Limits, t: Toucher, es: seq<Event>)
    decreases |es|
  {
    es == [] || (Enabled(t, es[0]) && Legal(l, Step(l, t, es[0], true), es[1..]))
  }

  function Later(x: int, y: int): int {
    if x >= y then x else y
  }

  /**
   * A touch reads its clock before it takes the lock, so readings can be out of lock order: none is more
   * than `skew` behind the latest reading before it, `latest`.
   */
  predicate Ordered(skew: nat, latest: int, es: seq<Event>)
    decreases |es|
  {
    es == [] || (latest - skew <= es[0].now && Ordered(skew, Later(es[0].now, latest), es[1..]))
  }

  /** The times at which a touch of `key` is dispatched. */
  function DispatchTimes(l: Limits, t: Toucher, es: seq<Event>, key: string): seq<int>
    requires Legal(l, t, es)
    decreases |es|
  {
    if es == [] then []
    else
      (if Dispatches(l, t, es[0], key) then [es[0].now] else [])
      + DispatchTimes(l, Step(l, t, es[0], true), es[1..], key)
  }

  function Run(l: Limits, t: Toucher, es: seq<Event>): Toucher
    requires Legal(l, t, es)
    decreases |es|
  {
    if es == [] then t else Run(l, Step(l, t, es[0], true), es[1..])
  }

  predicate Spaced(times: seq<int>, gap: int) {
    forall i, j | 0 <= i < j < |times| :: times[j] - times[i] >= gap
  }

  /** Until some reading reaches `last + interval` the key is still on record, whatever is pruned. */
  ghost predicate Remembers(l: Limits, t: Toucher, key: string, last: int, latest: int) {
    latest - last < l.interval ==> key in t.last && last <= t.last[key]
  }

  /** After a dispatch at `last`, all later dispatches keep the gap to it, and to each other. */
  lemma {:induction false} LaterDispatches(l: Limits, t: Toucher, es: seq<Event>, key: string, last: int, skew: nat, latest: int)
    requires l.interval > 0 && Legal(l, t, es) && Ordered(skew, latest, es)
    requires Remembers(l, t, key, last, latest)
    ensures
      var times := DispatchTimes(l, t, es, key);
      Spaced(times, l.interval - skew) && forall i | 0 <= i < |times| :: times[i] - last >= l.interval - skew
    decreases |es|
  {
    if es != [] {
      var e := es[0];
      var t' := Step(l, t, e, true);
      LaterDispatches(l, t', es[1..], key, last, skew, Later(e.now, latest));
      if Dispatches(l, t, e, key) {
        LaterDispatches(l, t', es[1..], key, e.now, skew, Later(e.now, latest));
      }
    }
  }

  /**
   * Any two dispatched touches of a key are at least `interval` apart, less what clock readings can be out of
   * lock order, however many keys are touched and pruned in between.
   */
  lemma {:induction false} DispatchesAreSpaced(l: Limits, t: Toucher, es: seq<Event>, key: string, skew: nat, latest: int)
    requires l.interval > 0 && Legal(l, t, es) && Ordered(skew, latest, es)
    ensures Spaced(DispatchTimes(l, t, es, key), l.interval - skew)
    decreases |es|
  {
    if es != [] {
      var e := es[0];
      var t' := Step(l, t, e, true);
      DispatchesAreSpaced(l, t', es[1..], key, skew, Later(e.now, latest));
      if Dispatches(l, t, e, key) {
        LaterDispatches(l, t', es[1..], key, e.now, skew, Later(e.now, latest));
      }
    }
  }

  lemma {:induction false} OutstandingIsBounded(l: Limits, t: Toucher, es: seq<Event>)
    requires Legal(l, t, es) && t.outstanding <= l.slots
    ensures Run(l, t, es).outstanding <= l.slots
    decreases |es|
  {
    if es != [] {
      OutstandingIsBounded(l, Step(l, t, es[0], true), es[1..]);
    }
  }

  function Key(i: nat): string {
    seq(i + 1, _ => 'k')
  }

  /** Touches of `n` different keys, from the `i`-th on, at one instant. */
  function Touches(i: nat, n: nat, now: int): seq<Event>
    decreases n
  {
    if n == 0 then [] else [TouchAt(Key(i), now)] + Touches(i + 1, n - 1, now)
  }

  /** Touches of as many different keys as there are free slots take them all. */
  lemma {:induction false} OutstandingIsReached(l: Limits, t: Toucher, i: nat, n: nat, now: int)
    requires t.outstanding + n == l.slots && forall j | j >= i :: Key(j) !in t.last
    ensures Legal(l, t, Touches(i, n, now)) && Run(l, t, Touches(i, n, now)).outstanding == l.slots
    decreases n
  {
    if n > 0 {
      var e := TouchAt(Key(i), now);
      var t' := Step(l, t, e, true);
      assert |Key(i)| == i + 1;
      forall j | j >= i + 1 ensures Key(j) !in t'.last {
        assert |Key(j)| == j + 1;
      }
      OutstandingIsReached(l, t', i + 1, n - 1, now);
      assert Touches(i, n, now)[1..] == Touches(i + 1, n - 1, now);
    }
  }

  // ---- Pruning is invisible ----

  /** The answers to the touches of a run, with or without pruning. */
  function Answers(l: Limits, t: Toucher, es: seq<Event>, pruning: bool): seq<bool>
    decreases |es|
  {
    if es == [] || !Enabled(t, es[0]) then []
    else
      (if es[0].TouchAt? then [Decide(l, t, es[0].key, es[0].now, pruning).1] else [])
      + Answers(l, Step(l, t, es[0], pruning), es[1..], pruning)
  }

  predicate PruningHides(l: Limits, t: Toucher, es: seq<Event>) {
    Answers(l, t, es, true) == Answers(l, t, es, false)
  }

  /** `pruned` lacks only touches that no longer throttle. */
  ghost predicate Hidden(l: Limits, pruned: Toucher, full: Toucher, now: int) {
    && pruned.outstanding == full.outstanding
    && (forall k | k in pruned.last :: k in full.last && pruned.last[k] == full.last[k])
    && (forall k | k in full.last && k !in pruned.last :: now - full.last[k] >= l.interval)
  }

  lemma {:induction false} HiddenRunsAgree(l: Limits, pruned: Toucher, full: Toucher, es: seq<Event>, latest: int)
    requires Hidden(l, pruned, full, latest) && Ordered(0, latest, es)
    ensures Answers(l, pruned, es, true) == Answers(l, full, es, false)
    decreases |es|
  {
    if es != [] && Enabled(pruned, es[0]) {
      HiddenRunsAgree(l, Step(l, pruned, es[0], true), Step(l, full, es[0], false), es[1..], es[0].now);
    }
  }

  /** With clock readings in lock order, pruning the map never changes whether a later touch is dispatched. */
  lemma PruningIsInvisible(l: Limits, t: Toucher, es: seq<Event>, latest: int)
    requires Ordered(0, latest, es)
    ensures PruningHides(l, t, es)
  {
    HiddenRunsAgree(l, t, t, es, latest);
  }

  /** Up to 2000 keys nothing is pruned; above that, every touch older than the interval goes. */
  lemma PrunedAbove2000(l: Limits, t: Toucher, key: string, now: int)
    requires key != "" && !(key in t.last && now - t.last[key] < l.interval)
    ensures
      var noted, kept := t.last[key := now], Decide(l, t, key, now, true).0.last;
      && (|noted| <= 2000 ==> kept == noted)
      && (|noted| > 2000 ==> forall k :: k in kept <==> k in noted && now - noted[k] < l.interval)
      && (forall k | k in kept :: kept[k] == noted[k])
  {
  }

  // ---- With readings out of lock order it is not ----

  /** `n` keys touched at `now`. */
  function Crowd(n: nat, now: int): Times {
    if n == 0 then map[] else Crowd(n - 1, now)[Key(n - 1) := now]
  }

  lemma {:induction false} CrowdIsLarge(n: nat, now: int)
    ensures |Crowd(n, now)| == n
    ensures forall k | k in Crowd(n, now) :: 0 < |k| <= n && k[0] == 'k' && Crowd(n, now)[k] == now
  {
    if n > 0 {
      CrowdIsLarge(n - 1, now);
      assert |Key(n - 1)| == n;
    }
  }

  /** The map is as large as it can be unpruned, all of it touched at 0, and no write is out. */
  ghost predicate Full(t: Toucher) {
    && |t.last| == PRUNE_ABOVE && "a" !in t.last && "b" !in t.last && t.outstanding == 0
    && forall k | k in t.last :: t.last[k] == 0
  }

  lemma FullCrowd() returns (t: Toucher)
    ensures Full(t)
  {
    var n := PRUNE_ABOVE;
    CrowdIsLarge(n, 0);
    t := Toucher(Crowd(n, 0), 0);
  }

  /** "a" is touched, then "b" as "a" expires, and then "a" again with a reading `skew` before that. */
  function LateTouch(l: Limits, skew: nat): seq<Event> {
    [TouchAt("a", 0)] + ([WriteDone(0)] + ([TouchAt("b", l.interval)] + ([WriteDone(l.interval)] + [TouchAt("a", l.interval - skew)])))
  }

  lemma FirstTouch(l: Limits, t: Toucher)
    requires l.interval > 0 && l.slots >= 1 && Full(t)
    ensures var noted := Toucher(t.last["a" := 0], 1);
      && Decide(l, t, "a", 0, true) == (noted, true) && Decide(l, t, "a", 0, false) == (noted, true)
  {
    assert Prune(t.last["a" := 0], l.interval, 0) == t.last["a" := 0];
  }

  /** The touch of "b" drops "a". */
  lemma SecondTouch(l: Limits, t: Toucher)
    requires l.interval > 0 && l.slots >= 1 && Full(t)
    ensures
      var noted := t.last["a" := 0];
      var b := noted["b" := l.interval];
      && Decide(l, Toucher(noted, 0), "b", l.interval, true) == (Toucher(Prune(b, l.interval, l.interval), 1), true)
      && Decide(l, Toucher(noted, 0), "b", l.interval, false) == (Toucher(b, 1), true)
      && "a" !in Prune(b, l.interval, l.interval) && b["a"] == 0
  {
    assert |t.last["a" := 0]| == PRUNE_ABOVE + 1 && |t.last["a" := 0]["b" := l.interval]| == PRUNE_ABOVE + 2;
  }

  lemma OneDispatch(l: Limits, t: Toucher, e: Event, t': Toucher, rest: seq<Event>, key: string, times: seq<int>)
    requires Enabled(t, e) && Step(l, t, e, true) == t' && Legal(l, t', rest) && DispatchTimes(l, t', rest, key) == times
    ensures Legal(l, t, [e] + rest)
    ensures DispatchTimes(l, t, [e] + rest, key) == (if Dispatches(l, t, e, key) then [e.now] else []) + times
  {
    assert ([e] + rest)[1..] == rest;
  }

  lemma OneAnswer(l: Limits, t: Toucher, e: Event, t': Toucher, rest: seq<Event>, pruning: bool, answers: seq<bool>)
    requires Enabled(t, e) && Step(l, t, e, pruning) == t' && Answers(l, t', rest, pruning) == answers
    ensures Answers(l, t, [e] + rest, pruning)
         == (if e.TouchAt? then [Decide(l, t, e.key, e.now, pruning).1] else []) + answers
  {
    assert ([e] + rest)[1..] == rest;
  }

  lemma OneOrdered(e: Event, rest: seq<Event>, skew: nat, latest: int)
    requires latest - skew <= e.now && Ordered(skew, Later(e.now, latest), rest)
    ensures Ordered(skew, latest, [e] + rest)
  {
    assert ([e] + rest)[1..] == rest;
  }

  lemma LateTouchIsOrdered(l: Limits, skew: nat)
    requires l.interval > 0
    ensures Ordered(skew, 0, LateTouch(l, skew))
  {
    var late := [TouchAt("a", l.interval - skew)];
    assert late[1..] == [];
    var fourth := [WriteDone(l.interval)] + late;
    OneOrdered(WriteDone(l.interval), late, skew, l.interval);
    OneOrdered(TouchAt("b", l.interval), fourth, skew, 0);
    OneOrdered(WriteDone(0), [TouchAt("b", l.interval)] + fourth, skew, 0);
    OneOrdered(TouchAt("a", 0), [WriteDone(0)] + ([TouchAt("b", l.interval)] + fourth), skew, 0);
  }

  /** When the touches of "a" and "b" leave these maps behind, the last touch is decided by the second. */
  lemma LateTouchAnswers(l: Limits, t: Toucher, noted: Times, left: Times, skew: nat, pruning: bool, answer: bool)
    requires Decide(l, t, "a", 0, pruning) == (Toucher(noted, 1), true)
    requires Decide(l, Toucher(noted, 0), "b", l.interval, pruning) == (Toucher(left, 1), true)
    requires answer == Decide(l, Toucher(left, 0), "a", l.interval - skew, pruning).1
    ensures Answers(l, t, LateTouch(l, skew), pruning) == [true] + ([true] + [answer])
  {
    var late := [TouchAt("a", l.interval - skew)];
    assert late[1..] == [];
    assert Answers(l, Toucher(left, 0), late, pruning) == [answer];
    OneAnswer(l, Toucher(left, 1), WriteDone(l.interval), Toucher(left, 0), late, pruning, [answer]);
    var fourth := [WriteDone(l.interval)] + late;
    OneAnswer(l, Toucher(noted, 0), TouchAt("b", l.interval), Toucher(left, 1), fourth, pruning, [answer]);
    var third := [TouchAt("b", l.interval)] + fourth;
    OneAnswer(l, Toucher(noted, 1), WriteDone(0), Toucher(noted, 0), third, pruning, [true] + [answer]);
    OneAnswer(l, t, TouchAt("a", 0), Toucher(noted, 1), [WriteDone(0)] + third, pruning, [true] + [answer]);
  }

  lemma LastTouchTimes(l: Limits, left: Times, skew: nat)
    requires Decide(l, Toucher(left, 0), "a", l.interval - skew, true).1
    ensures
      var es := [WriteDone(l.interval)] + [TouchAt("a", l.interval - skew)];
      Legal(l, Toucher(left, 1), es) && DispatchTimes(l, Toucher(left, 1), es, "a") == [l.interval - skew]
  {
    var late, times := [TouchAt("a", l.interval - skew)], [l.interval - skew];
    assert late[1..] == [];
    assert DispatchTimes(l, Toucher(left, 0), late, "a") == times;
    OneDispatch(l, Toucher(left, 1), WriteDone(l.interval), Toucher(left, 0), late, "a", times);
  }

  lemma LateTouchTimes(l: Limits, t: Toucher, noted: Times, left: Times, skew: nat)
    requires Decide(l, t, "a", 0, true) == (Toucher(noted, 1), true)
    requires Decide(l, Toucher(noted, 0), "b", l.interval, true) == (Toucher(left, 1), true)
    requires Decide(l, Toucher(left, 0), "a", l.interval - skew, true).1
    ensures Legal(l, t, LateTouch(l, skew)) && DispatchTimes(l, t, LateTouch(l, skew), "a") == [0, l.interval - skew]
  {
    var fourth, times := [WriteDone(l.interval)] + [TouchAt("a", l.interval - skew)], [l.interval - skew];
    LastTouchTimes(l, left, skew);
    OneDispatch(l, Toucher(noted, 0), TouchAt("b", l.interval), Toucher(left, 1), fourth, "a", times);
    var third := [TouchAt("b", l.interval)] + fourth;
    OneDispatch(l, Toucher(noted, 1), WriteDone(0), Toucher(noted, 0), third, "a", times);
    OneDispatch(l, t, TouchAt("a", 0), Toucher(noted, 1), [WriteDone(0)] + third, "a", times);
  }

  /** The spacing is reached, for every interval, number of slots and skew. */
  lemma SpacingIsReached(l: Limits, t: Toucher, skew: nat)
    requires l.interval > 0 && l.slots >= 1 && Full(t)
    ensures Legal(l, t, LateTouch(l, skew)) && Ordered(skew, 0, LateTouch(l, skew))
    ensures DispatchTimes(l, t, LateTouch(l, skew), "a") == [0, l.interval - skew]
  {
    var noted := t.last["a" := 0];
    var b := noted["b" := l.interval];
    FirstTouch(l, t);
    SecondTouch(l, t);
    LateTouchIsOrdered(l, skew);
    LateTouchTimes(l, t, noted, Prune(b, l.interval, l.interval), skew);
  }

  lemma LateTouchShows(l: Limits, t: Toucher, skew: nat)
    requires l.interval > 0 && l.slots >= 1 && skew > 0 && Full(t)
    ensures !PruningHides(l, t, LateTouch(l, skew))
  {
    var noted := t.last["a" := 0];
    var b := noted["b" := l.interval];
    FirstTouch(l, t);
    SecondTouch(l, t);
    LateTouchAnswers(l, t, noted, Prune(b, l.interval, l.interval), skew, true, true);
    LateTouchAnswers(l, t, noted, b, skew, false, false);
    assert ([true] + ([true] + [true]))[2] != ([true] + ([true] + [false]))[2];
  }

  ghost predicate PruningAlwaysHides(l: Limits, skew: nat) {
    forall t, es, latest | Ordered(skew, latest, es) :: PruningHides(l, t, es)
  }

  /** Pruning is invisible exactly when clock readings are in lock order. */
  lemma PruningThreshold(l: Limits, skew: nat)
    requires l.interval > 0 && l.slots >= 1
    ensures PruningAlwaysHides(l, skew) <==> skew == 0
  {
    if skew == 0 {
      forall t, es, latest | Ordered(skew, latest, es) ensures PruningHides(l, t, es) {
        PruningIsInvisible(l, t, es, latest);
      }
    } else {
      var t := FullCrowd();
      LateTouchIsOrdered(l, skew);
      LateTouchShows(l, t, skew);
    }
  }
}
