// The breaker as it comes without a classifier of its own, in terms of what calls return.

module BreakerDefaults {
  import opened Options
  import opened Breakers
  import opened BreakerRuns

  /** Success, or one of the three errors that are the client's. */
  predicate Harmless(err: CallError) {
    err in {NoError, InvalidDocument, UnsupportedDocument, LowConfidence}
  }

  /** What the completions since the last change of state returned, when those before the run returned `errs`. */
  function Returned(cfg: Config, w: World, errs: seq<CallError>, es: seq<Event>): seq<CallError>
    decreases |es|
  {
    if es == [] then errs
    else
      var next := Step(cfg, w, es[0]);
      Returned(cfg, next,
               if next.breaker.mode != w.breaker.mode then []
               else if es[0].End? then errs + [es[0].err] else errs,
               es[1..])
  }

  /** The history classifies what was returned. */
  ghost predicate Classifies(cfg: Config, history: seq<bool>, errs: seq<CallError>) {
    |history| == |errs| && forall i | 0 <= i < |errs| :: history[i] == cfg.isFailure(errs[i])
  }

  lemma {:induction false} HistoryClassifies(cfg: Config, w: World, errs: seq<CallError>, es: seq<Event>)
    requires Classifies(cfg, w.history, errs)
    ensures Classifies(cfg, Run(cfg, w, es).history, Returned(cfg, w, errs, es))
    decreases |es|
  {
    if es != [] {
      var next := Step(cfg, w, es[0]);
      HistoryClassifies(cfg, next,
                        if next.breaker.mode != w.breaker.mode then []
                        else if es[0].End? then errs + [es[0].err] else errs,
                        es[1..]);
    }
  }

  /**
   * A closed breaker without a classifier of its own opens on a completion exactly when that completion and
   * those before it since it closed, as many as the threshold, all returned something that is not harmless.
   */
  lemma DefaultTripsExactly(user: UserConfig, start: int, es: seq<Event>, e: Event)
    requires user.isFailure.None? && Legal(MakeConfig(user), Start(start), es)
    requires
      var w := Run(MakeConfig(user), Start(start), es);
      w.breaker.mode == Closed && e.End? && Enabled(w, e)
    ensures
      var cfg := MakeConfig(user);
      var errs := Returned(cfg, Start(start), [], es) + [e.err];
      var n := if user.failureThreshold > 0 then user.failureThreshold else 5;
      var next := Step(cfg, Run(cfg, Start(start), es), e);
      && (next.breaker.mode == Open <==> |errs| >= n && forall i | |errs| - n <= i < |errs| :: !Harmless(errs[i]))
      && (next.breaker.mode == Open || next.breaker.mode == Closed)
  {
    var cfg := MakeConfig(user);
    TripsExactlyOnTheSuffix(cfg, start, es, e);
    HistoryClassifies(cfg, Start(start), [], es);
    DefaultMeansHarmless(user);
    ClassifiesOneMore(cfg, Run(cfg, Start(start), es).history, Returned(cfg, Start(start), [], es), e.err);
  }

  lemma DefaultMeansHarmless(user: UserConfig)
    requires user.isFailure.None?
    ensures forall err :: MakeConfig(user).isFailure(err) <==> !Harmless(err)
  {
  }

  lemma ClassifiesOneMore(cfg: Config, history: seq<bool>, errs: seq<CallError>, err: CallError)
    requires Classifies(cfg, history, errs)
    ensures Classifies(cfg, history + [cfg.isFailure(err)], errs + [err])
  {
  }

  /** A half-open one closes on its last probe when all were harmless, and opens again on any that is not. */
  lemma DefaultProbesDecide(user: UserConfig, start: int, es: seq<Event>, e: Event)
    requires user.isFailure.None? && Legal(MakeConfig(user), Start(start), es)
    requires
      var w := Run(MakeConfig(user), Start(start), es);
      w.breaker.mode == HalfOpen && e.End? && Enabled(w, e)
    ensures
      var cfg := MakeConfig(user);
      var errs := Returned(cfg, Start(start), [], es) + [e.err];
      var m := if user.successThreshold > 0 then user.successThreshold else 2;
      var next := Step(cfg, Run(cfg, Start(start), es), e);
      && (next.breaker.mode == Open <==> !Harmless(e.err))
      && (next.breaker.mode == Closed <==> |errs| == m && forall i | 0 <= i < |errs| :: Harmless(errs[i]))
  {
    var cfg := MakeConfig(user);
    ClosesExactlyOnSuccesses(cfg, start, es, e);
    HistoryClassifies(cfg, Start(start), [], es);
    DefaultMeansHarmless(user);
    ClassifiesOneMore(cfg, Run(cfg, Start(start), es).history, Returned(cfg, Start(start), [], es), e.err);
  }

  /** Harmless results alone never take the breaker out of Closed. */
  lemma {:induction false} ClientErrorsNeverOpen(user: UserConfig, w: World, es: seq<Event>)
    requires user.isFailure.None? && w.breaker.mode == Closed && Legal(MakeConfig(user), w, es)
    requires forall i | 0 <= i < |es| :: !es[i].TripAt? && (es[i].End? ==> Harmless(es[i].err))
    ensures Run(MakeConfig(user), w, es).breaker.mode == Closed
    decreases |es|
  {
    if es != [] {
      assert es[0].End? ==> Harmless(es[0].err);
      ClientErrorsNeverOpen(user, Step(MakeConfig(user), w, es[0]), es[1..]);
    }
  }

  /** One call at a time, each with the same result, from the `k`-th to the `n`-th. */
  function Calls(k: nat, n: nat, err: CallError, at: int): seq<Event>
    decreases n - k
  {
    if k >= n then [] else [Begin(k, at, at)] + ([End(k, err, at)] + Calls(k + 1, n, err, at))
  }

  /** After `k` failed calls in a row from the start. */
  ghost predicate Failing(w: World, k: nat) {
    w.breaker.mode == Closed && w.breaker.failures == k && w.current == {} && w.older == {}
  }

  lemma OneFails(cfg: Config, w: World, k: nat, err: CallError, at: int)
    requires cfg.Valid() && cfg.isFailure(err) && Failing(w, k) && k < cfg.failureThreshold
    ensures
      var begun := Step(cfg, w, Begin(k, at, at));
      var next := Step(cfg, begun, End(k, err, at));
      && Enabled(w, Begin(k, at, at)) && Enabled(begun, End(k, err, at))
      && (if k + 1 < cfg.failureThreshold then Failing(next, k + 1) else next.breaker.mode == Open)
  {
  }

  lemma {:induction false} FailuresOpen(cfg: Config, w: World, k: nat, err: CallError, at: int)
    requires cfg.Valid() && cfg.isFailure(err) && Failing(w, k) && k < cfg.failureThreshold
    ensures Legal(cfg, w, Calls(k, cfg.failureThreshold, err, at))
    ensures Run(cfg, w, Calls(k, cfg.failureThreshold, err, at)).breaker.mode == Open
    decreases cfg.failureThreshold - k
  {
    var n := cfg.failureThreshold;
    var begun := Step(cfg, w, Begin(k, at, at));
    var next := Step(cfg, begun, End(k, err, at));
    OneFails(cfg, w, k, err, at);
    var rest := Calls(k + 1, n, err, at);
    if k + 1 < n {
      FailuresOpen(cfg, next, k + 1, err, at);
    } else {
      assert rest == [];
    }
    assert ([End(k, err, at)] + rest)[1..] == rest;
    assert ([Begin(k, at, at)] + ([End(k, err, at)] + rest))[1..] == [End(k, err, at)] + rest;
    assert Legal(cfg, begun, [End(k, err, at)] + rest);
    assert Run(cfg, begun, [End(k, err, at)] + rest) == Run(cfg, next, rest);
  }

  /** Every threshold is reached: as many calls in a row that return the same upstream error open the breaker. */
  lemma DefaultOpens(user: UserConfig, code: int, start: int)
    requires user.isFailure.None?
    ensures
      var es := Calls(0, if user.failureThreshold > 0 then user.failureThreshold else 5, Upstream(code), start);
      Legal(MakeConfig(user), Start(start), es) && Run(MakeConfig(user), Start(start), es).breaker.mode == Open
  {
    FailuresOpen(MakeConfig(user), Start(start), 0, Upstream(code), start);
  }

  /**
   * An operator overrides the count: a trip refuses every call until a cooldown after it, or after the breaker
   * opened when it was open already, and a reset admits every call and lets as many failures in a row open the
   * breaker as at the start.
   */
  lemma OperatorDecides(cfg: Config, b: Breaker, at: int, now: int, stamp: int)
    requires cfg.Valid()
    ensures
      var since := if b.mode == Open then b.lastChange else at;
      b.Trip(at).BeforeCall(cfg, now, stamp).1 <==> now - since >= cfg.cooldown
    ensures b.Reset(at).BeforeCall(cfg, now, stamp) == (b.Reset(at), true)
    ensures b.mode != Closed ==> b.Reset(at) == NewBreaker(at)
    ensures b.mode == Closed ==> b.Reset(at) == b
  {
  }
}
