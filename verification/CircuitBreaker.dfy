// The circuit breaker that guards the OCR engine.
//
// The datatype `Breaker` holds the fields the source keeps under its mutex, and the functions below
// are the effect of one locked region each. The class `CircuitBreaker` is the object of the source;
// each of its methods is proved to have exactly the effect of the function of the same name.

module Breakers {
  import opened Arithmetic
  import opened Options
  import opened Units

  datatype Mode = Closed | HalfOpen | Open

  /** What a guarded call can return; `Upstream` stands for every error that is none of the three client errors. */
  datatype CallError = NoError | InvalidDocument | UnsupportedDocument | LowConfidence | Upstream(code: int)

  /** Durations are in nanoseconds, as in the source. */
  datatype Config = Config(
    failureThreshold: int,
    successThreshold: int,
    cooldown: int,
    timeout: int,
    adaptiveTimeout: bool,
    minTimeout: int,
    isFailure: CallError -> bool)
  {
    predicate Valid() {
      failureThreshold >= 1 && successThreshold >= 1 && cooldown > 0 && timeout > 0 && minTimeout > 0
    }
  }

  /** The configuration a caller passes in; the classifier may be missing. */
  datatype UserConfig = UserConfig(
    failureThreshold: int,
    successThreshold: int,
    cooldown: int,
    timeout: int,
    adaptiveTimeout: bool,
    minTimeout: int,
    isFailure: Option<CallError -> bool>)

  predicate DefaultIsFailure(err: CallError) {
    match err
    case NoError => false
    case InvalidDocument | UnsupportedDocument | LowConfidence => false
    case Upstream(_) => true
  }

  function Positive(x: int, default: int): int {
    if x > 0 then x else default
  }

  /** Fills every unset or non-positive field with its default, so a zero `timeout` never disables the deadline. */
  function MakeConfig(user: UserConfig): (cfg: Config)
    ensures cfg.Valid()
    ensures cfg.failureThreshold == (if user.failureThreshold > 0 then user.failureThreshold else 5)
    ensures cfg.successThreshold == (if user.successThreshold > 0 then user.successThreshold else 2)
    ensures cfg.cooldown == (if user.cooldown > 0 then user.cooldown else 10_000_000_000)
    ensures cfg.timeout == (if user.timeout > 0 then user.timeout else 5_000_000_000)
    ensures cfg.minTimeout == (if user.minTimeout > 0 then user.minTimeout else 500_000_000)
    ensures cfg.adaptiveTimeout == user.adaptiveTimeout
    ensures cfg.isFailure == (if user.isFailure.Some? then user.isFailure.value else DefaultIsFailure)
  {
    Config(
      Positive(user.failureThreshold, 5),
      Positive(user.successThreshold, 2),
      Positive(user.cooldown, 10 * SECOND),
      Positive(user.timeout, 5 * SECOND),
      user.adaptiveTimeout,
      Positive(user.minTimeout, SECOND / 2),
      if user.isFailure.Some? then user.isFailure.value else DefaultIsFailure)
  }

  datatype Breaker = Breaker(mode: Mode, failures: int, successes: int, inFlight: int, lastChange: int) {

    function TransitionTo(next: Mode, stamp: int): Breaker {
      if mode == next then this else Breaker(next, 0, 0, 0, stamp)
    }

    /** Asks for admission. The clock is read once for the cooldown test (`now`) and again by the transition (`stamp`). */
    function BeforeCall(cfg: Config, now: int, stamp: int): (Breaker, bool) {
      match mode
      case Closed => (this, true)
      case Open =>
        if now - lastChange >= cfg.cooldown
        then (TransitionTo(HalfOpen, stamp).(inFlight := 1), true)
        else (this, false)
      case HalfOpen =>
        if inFlight >= 1 then (this, false) else (this.(inFlight := inFlight + 1), true)
    }

    function AfterCall(cfg: Config, err: CallError, stamp: int): Breaker {
      match mode
      case Closed =>
        if cfg.isFailure(err) then
          var counted := this.(failures := failures + 1);
          if counted.failures >= cfg.failureThreshold then counted.TransitionTo(Open, stamp) else counted
        else this.(failures := 0)
      case HalfOpen =>
        var left := this.(inFlight := if inFlight - 1 < 0 then 0 else inFlight - 1);
        if cfg.isFailure(err) then left.TransitionTo(Open, stamp)
        else
          var counted := left.(successes := left.successes + 1);
          if counted.successes >= cfg.successThreshold then counted.TransitionTo(Closed, stamp) else counted
      case Open => this
    }

    function Trip(stamp: int): Breaker {
      TransitionTo(Open, stamp)
    }

    function Reset(stamp: int): Breaker {
      TransitionTo(Closed, stamp)
    }
  }

  function NewBreaker(now: int): Breaker {
    Breaker(Closed, 0, 0, 0, now)
  }

  /** The floor of the adaptive timeout: `minTimeout`, or half the timeout when that is not below it. */
  function TimeoutFloor(cfg: Config): int
    requires cfg.Valid()
  {
    if cfg.minTimeout >= cfg.timeout then cfg.timeout / 2 else cfg.minTimeout
  }

  /** All operands are non-negative, so Dafny's division is Go's. */
  function AllowedTime(cfg: Config, failures: int): int
    requires cfg.Valid()
  {
    if !cfg.adaptiveTimeout || cfg.failureThreshold <= 1 || failures <= 0 then cfg.timeout
    else
      var counted := if failures >= cfg.failureThreshold then cfg.failureThreshold - 1 else failures;
      var floor := TimeoutFloor(cfg);
      var delta := (cfg.timeout - floor) * counted / cfg.failureThreshold;
      var effective := cfg.timeout - delta;
      if effective < floor then floor else effective
  }

  /** A share of `room` grows with its numerator and never exceeds `room`. */
  lemma PortionsAreMonotone(room: int, a: int, b: int, f: int)
    requires room >= 0 && 0 <= a <= b < f
    ensures 0 <= room * a / f <= room * b / f <= room
  {
    ProductsAreMonotone(0, a, room);
    ProductsAreMonotone(a, b, room);
    ProductsAreMonotone(b, f, room);
    QuotientsAreMonotone(0, room * a, f);
    QuotientsAreMonotone(room * a, room * b, f);
    QuotientsAreMonotone(room * b, room * f, f);
    assert room * f / f == room;
  }

  /**
   * More consecutive failures never lengthen the deadline, and whatever the counter says the
   * deadline stays between the floor and the configured timeout.
   */
  lemma AdaptiveTimeoutTightens(cfg: Config, fewer: int, more: int)
    requires cfg.Valid() && fewer <= more
    ensures AllowedTime(cfg, more) <= AllowedTime(cfg, fewer)
    ensures TimeoutFloor(cfg) <= AllowedTime(cfg, more) <= cfg.timeout
  {
    if cfg.adaptiveTimeout && cfg.failureThreshold > 1 && more > 0 {
      var room := cfg.timeout - TimeoutFloor(cfg);
      var a := if fewer >= cfg.failureThreshold then cfg.failureThreshold - 1 else if fewer <= 0 then 0 else fewer;
      var b := if more >= cfg.failureThreshold then cfg.failureThreshold - 1 else more;
      PortionsAreMonotone(room, a, b, cfg.failureThreshold);
    }
  }

  /**
   * `f` consecutive failures below the threshold take `f` equal parts of the room above the floor off the
   * deadline, as many parts as the threshold, rounded down; more failures take off no more, and without
   * adaptation, or with a threshold of 1, nothing is ever taken off.
   */
  lemma DeadlineIsProportional(cfg: Config, f: int)
    requires cfg.Valid()
    ensures
      var room := cfg.timeout - (if cfg.minTimeout < cfg.timeout then cfg.minTimeout else cfg.timeout / 2);
      var cut := cfg.timeout - AllowedTime(cfg, f);
      && (!cfg.adaptiveTimeout || cfg.failureThreshold == 1 || f <= 0 ==> cut == 0)
      && (cfg.adaptiveTimeout && cfg.failureThreshold > 1 && 0 < f < cfg.failureThreshold ==>
            cut * cfg.failureThreshold <= room * f < (cut + 1) * cfg.failureThreshold)
      && (cfg.adaptiveTimeout && cfg.failureThreshold > 1 && f >= cfg.failureThreshold ==>
            AllowedTime(cfg, f) == AllowedTime(cfg, cfg.failureThreshold - 1))
  {
    if cfg.adaptiveTimeout && 0 < f < cfg.failureThreshold {
      var room := cfg.timeout - TimeoutFloor(cfg);
      PortionsAreMonotone(room, f, f, cfg.failureThreshold);
    }
  }

  /** Five seconds, less nine tenths of a second for each of the first four failures in a row. */
  lemma DefaultDeadlines(user: UserConfig, f: int)
    requires user.adaptiveTimeout && user.failureThreshold <= 0 && user.timeout <= 0 && user.minTimeout <= 0
    ensures AllowedTime(MakeConfig(user), f)
         == if f <= 0 then 5_000_000_000 else if f >= 4 then 1_400_000_000 else 5_000_000_000 - f * 900_000_000
  {
  }

  class CircuitBreaker {
    const cfg: Config
    var state: Mode
    var consecutiveFailures: int
    var consecutiveSuccesses: int
    var halfOpenInFlight: int
    var lastStateChange: int

    ghost function View(): Breaker
      reads this
    {
      Breaker(state, consecutiveFailures, consecutiveSuccesses, halfOpenInFlight, lastStateChange)
    }

    constructor (user: UserConfig, now: int)
      ensures cfg == MakeConfig(user) && View() == NewBreaker(now)
    {
      cfg := MakeConfig(user);
      state := Closed;
      consecutiveFailures, consecutiveSuccesses, halfOpenInFlight := 0, 0, 0;
      lastStateChange := now;
    }

    method TransitionTo(next: Mode, stamp: int)
      modifies this
      ensures View() == old(View()).TransitionTo(next, stamp)
    {
      var prev := state;
      if prev == next {
        return;
      }
      state := next;
      lastStateChange := stamp;
      consecutiveFailures := 0;
      consecutiveSuccesses := 0;
      halfOpenInFlight := 0;
    }

    /** `ok` is false exactly when the source returns ErrCircuitOpen. */
    method BeforeCall(now: int, stamp: int) returns (ok: bool)
      modifies this
      ensures (View(), ok) == old(View()).BeforeCall(cfg, now, stamp)
    {
      match state {
        case Closed =>
          ok := true;
        case Open =>
          if now - lastStateChange >= cfg.cooldown {
            TransitionTo(HalfOpen, stamp);
            halfOpenInFlight := 1;
            ok := true;
          } else {
            ok := false;
          }
        case HalfOpen =>
          if halfOpenInFlight >= 1 {
            ok := false;
          } else {
            halfOpenInFlight := halfOpenInFlight + 1;
            ok := true;
          }
      }
    }

    method AfterCall(err: CallError, stamp: int)
      modifies this
      ensures View() == old(View()).AfterCall(cfg, err, stamp)
    {
      var isFailure := cfg.isFailure(err);
      match state {
        case Closed =>
          if isFailure {
            consecutiveFailures := consecutiveFailures + 1;
            if consecutiveFailures >= cfg.failureThreshold {
              TransitionTo(Open, stamp);
            }
          } else {
            consecutiveFailures := 0;
          }
        case HalfOpen =>
          halfOpenInFlight := halfOpenInFlight - 1;
          if halfOpenInFlight < 0 {
            halfOpenInFlight := 0;
          }
          if isFailure {
            TransitionTo(Open, stamp);
          } else {
            consecutiveSuccesses := consecutiveSuccesses + 1;
            if consecutiveSuccesses >= cfg.successThreshold {
              TransitionTo(Closed, stamp);
            }
          }
        case Open =>
      }
    }

    method CurrentTimeout() returns (timeout: int)
      requires cfg.Valid()
      ensures timeout == AllowedTime(cfg, View().failures)
    {
      if !cfg.adaptiveTimeout || cfg.failureThreshold <= 1 {
        return cfg.timeout;
      }
      var failures := consecutiveFailures;
      if failures <= 0 {
        return cfg.timeout;
      }
      if failures >= cfg.failureThreshold {
        failures := cfg.failureThreshold - 1;
      }
      var minT := cfg.minTimeout;
      if minT >= cfg.timeout {
        minT := cfg.timeout / 2;
      }
      var delta := (cfg.timeout - minT) * failures / cfg.failureThreshold;
      var effective := cfg.timeout - delta;
      timeout := if effective < minT then minT else effective;
    }

    method Trip(stamp: int)
      modifies this
      ensures View() == old(View()).Trip(stamp)
    {
      TransitionTo(Open, stamp);
    }

    method Reset(stamp: int)
      modifies this
      ensures View() == old(View()).Reset(stamp)
    {
      TransitionTo(Closed, stamp);
    }
  }
}
