# Lensio backend: a verified model

This project models the concurrent state around the Lensio OCR API and proves what it guarantees. It
covers the circuit breaker that guards the OCR engine, the two rate limiters and the plan cache in front
of them, idempotent replay, usage metering and the monthly quota, the session-revocation cache and the
key-touch throttle, and the arithmetic of three validators: machine-readable zones of passports, Indonesian
tax numbers, and invoices.

`dafny verify dfyconfig.toml` checks everything.

## How it is built

- A component whose methods update fields under a lock is a `class` with those fields. Each method is
  proved to have exactly the effect of a specification function of the same name, on the result and on the
  whole new state. A single SQL statement is one method of a table class.
- The theorems are about runs: sequences of steps of those specification functions, one step per locked
  region or SQL statement. A request or call begins in one step and ends in another, so anything can happen
  in between.
- The bounds on admissions, outstanding writes, overshoot, staleness and invoice totals come with a lemma, most
  named `…IsReached`, that gives a run or an input reaching them; staleness is reached up to a clock tick or two.
- What each operation answers is also told without naming the function behind it: in plain numbers, or by what
  later calls meet.
- Where the code does not do what a comment or a natural reading promises, the exact condition is proved.

| file | models |
|---|---|
| CircuitBreaker, BreakerRuns, BreakerDefaults | the three-state breaker; runs with stale completions, probes, trips and outages; the breaker without a classifier of its own |
| RateLimit, TokenBucket | what the two limiters share; the in-memory limiter |
| TokenBucketBounds, TokenBucketTightness, ClusterTightness | its rate bounds for one process and for replicas, and the runs that reach them |
| TokenBucketExactness, TokenBucketPlans | cleanup, Retry-After and Remaining; plan changes and the reset time |
| TokenBucketRaces, TokenBucketRaceTightness | calls interleaved at the granularity of locks; the exact price of delays and of the idle time |
| TokenBucketStrays, TokenBucketStrayTightness | admissions out of swept buckets: the whole bound, and the runs that reach it |
| FixedWindow, FixedWindowFigures | the limiter on a shared counter table; the figures it reports |
| Replicas, PlanCache | dividing a limit among replicas; the nested one-minute cache of plan limits |
| IdempotencyStore, PostgresStore, Sealer | the memory store and its key encoding; the PostgreSQL store; sealing |
| IdempotencyProtocol, IdempotencyRetries | the protocol over one- and two-statement stores; what a retry meets |
| HttpHeaders, IdempotencyMiddleware | headers; the response writer and one whole request |
| Recorder, Quota, QuotaIsolation | the bounded usage queue; metering, the quota check and its overshoot; the check record by record and among tenants |
| RevocationCache, KeyToucher | session revocation; the throttle on last-used updates |
| Texts, Mrz, MrzLaws, Npwp, NpwpLaws | ASCII helpers; check digits and passport lines (ICAO Doc 9303 Part 3 section 4.9 and Part 4 section 4.2.2); tax numbers |
| Invoice, InvoiceAcceptance, InvoiceLaws | invoice validation; which invoices are accepted and what is said of the others; how far totals can be off, and repeated validation |
| Options, Units, Arithmetic | an optional value; bytes and durations; facts of arithmetic that several proofs share |

## Conventions

- Money, token counts and the token bucket's times are exact reals; other times are integers in nanoseconds.
- A clock is a parameter of the step that reads it. Theorems that need readings in order say so with
  `Clocked`; where the source reads its clock before it takes the lock, `Ordered` says by how much readings
  can be out of lock order. The fixed window and the idempotency protocol take readings in any order unless
  a lemma says otherwise.
- Hashes, the AEAD cipher, date parsing and the identity-number check are parameters. Of the cipher only
  open-after-seal is assumed.

## Where the code and its comments differ

The model follows the code.

- A comment allows a single half-open probe at a time (services/ocr/circuit_breaker.go:312). A stale
  completion frees the slot of a probe that is still out, so this holds only under the condition of
  `SingleProbeExactly`; the bound that always holds is `HalfOpenAdmissionBound`.
- A zero `Timeout` is documented to disable the deadline (services/ocr/circuit_breaker.go:72). The
  constructor replaces it by the default, so the branch that would honour it is never reached.
- `afterCall` is not deferred (services/ocr/circuit_breaker.go:377-378), so a panicking probe never reports
  back: `LostProbeBlocks`.
- The token bucket's bound of L(1 + T/60), and sweeps after a minute of idleness, are right for calls that
  take no time. The code looks a bucket up, resizes it and takes from it under separate locks. For calls of at
  most D seconds the bound becomes L(1 + (T + D)/60), sweeps must allow for 60 + D seconds of idleness, and
  every bucket that is swept while a call holds it gives up to L(1 + D/60) more: `SweptRateBound`. All three are
  exact: `UndelayedBoundExactly`, `RacingSweepThreshold`, `StrayFreeBoundNeverHolds`, `SweptBoundIsReached`.
- The idempotency store and the key-touch throttle read the clock before they take their lock. With readings
  out of lock order a sweep or a pruning can be seen: `RefinementIsExact`, `PruningThreshold`.
- The reset time of the token bucket is described as when it is full again (apps/api/internal/ratelimit/ratelimit.go:69).
  It is computed before the token is taken, so after an admission it can be one token early: `ResetTimeExactly`.
- The shared limiter rounds Retry-After down (apps/api/internal/ratelimit/postgres.go:89), so a client that waits
  for it can be refused once more: `RetryAfterFallsShortExactly`.
- The quota's overshoot is described as roughly the in-flight concurrency (apps/api/internal/quota/quota.go:45-49).
  The exact bound adds the recorder's buffer, and the records that were lost.
- `GetMonthlyOCRCount` is described as counting OCR requests; it counts every successful request under the
  OCR path, look-ups included. `CountIsCallsExactly` says when the two agree.
- Without a sealer, a body that begins with the seal's mark cannot be replayed.
- The two-statement acquire can end in an internal error although a live record was found:
  `SplitAcquireFailsExactly`.
- The response writer passes a flush on without noting that it commits status 200
  (apps/api/internal/http/middleware/idempotency.go:49-53), so a status set after a first flush is stored
  although the client got 200: `CopyMirrorsExactly`.
- Token issue times are whole seconds, so a token issued after a logout but in the same second is rejected.
- A taxable base that an invoice brings along is not compared with its subtotal, and a subtotal worked back
  from the grand total is not compared with the line items until the invoice is validated again:
  `BoundHoldsExactly`, `RepeatableExactly`.

## Model

| member | source | states |
|---|---|---|
| `Breakers.MakeConfig` | services/ocr/circuit_breaker.go:110-171 | Every configuration a caller can pass becomes a valid one: each positive number, the adaptive flag and a classifier are kept, and anything else gets its default, so a zero timeout does not disable the deadline |
| `Breakers.AdaptiveTimeoutTightens` | services/ocr/circuit_breaker.go:258-289 | The adaptive deadline never grows with more consecutive failures and stays between its floor and the configured timeout |
| `Breakers.DeadlineIsProportional` | services/ocr/circuit_breaker.go:258-289 | f consecutive failures below the threshold cut the deadline by f/threshold of the room above its floor, rounded down; more failures cut no more, and without adaptation or with a threshold of 1 nothing is cut |
| `Breakers.DefaultDeadlines` | services/ocr/circuit_breaker.go:258-289 | With the defaults and adaptation the deadline is 5 s less 0.9 s for each of the first four failures in a row |
| `Breakers.CircuitBreaker.constructor` | services/ocr/circuit_breaker.go:173-178 | A new breaker is closed with zero counters |
| `Breakers.CircuitBreaker.TransitionTo` | services/ocr/circuit_breaker.go:236-245 | A change of state clears the three counters and stamps the time; staying in a state changes nothing |
| `Breakers.CircuitBreaker.BeforeCall` | services/ocr/circuit_breaker.go:292-322 | Admission in each state, and the whole new state: an elapsed cooldown opens the half-open epoch with one probe |
| `Breakers.CircuitBreaker.AfterCall` | services/ocr/circuit_breaker.go:325-361 | The effect of a completion in the state it lands in, which need not be the one that admitted the call |
| `Breakers.CircuitBreaker.CurrentTimeout` | services/ocr/circuit_breaker.go:259-289 | The deadline as a function of the consecutive-failure counter |
| `Breakers.CircuitBreaker.Trip` | services/ocr/circuit_breaker.go:230-234 | Opens the breaker; a no-op when it is open |
| `Breakers.CircuitBreaker.Reset` | services/ocr/circuit_breaker.go:223-227 | Closes the breaker; a no-op when it is closed |
| `BreakerRuns.StepKeepsInv` | services/ocr/circuit_breaker.go:292-361 | Every admission, completion, trip and reset keeps the invariant that relates the counters to the epoch's history, its admissions and its unfinished calls |
| `BreakerRuns.ReachableCounters` | services/ocr/circuit_breaker.go:236-256 | In every reachable state: in-flight 0 or 1, and 0 outside half-open; failures below the threshold while closed; successes below theirs while half-open; all counters 0 while open |
| `BreakerRuns.HalfOpenAdmissionBound` | services/ocr/circuit_breaker.go:292-361 | The unfinished calls of the current half-open epoch number at most one more than the completions of older calls that landed in it, so one when none did; the epoch admits at most `SuccessThreshold` calls in all |
| `BreakerRuns.ProbesCanReachTheThreshold` | services/ocr/circuit_breaker.go:311-317 | Whenever some result is no failure, some run really has `SuccessThreshold` probes outstanding at once |
| `BreakerRuns.SingleProbeExactly` | services/ocr/circuit_breaker.go:311-317 | The commented single probe at a time holds in every run if and only if `SuccessThreshold` is 1 or every result counts as a failure |
| `BreakerRuns.FailureSuffixMeans` | services/ocr/circuit_breaker.go:332-340 | The failure counter's meaning: at least n exactly when the last n completions all failed |
| `BreakerRuns.TripsExactlyOnTheSuffix` | services/ocr/circuit_breaker.go:329-341 | A closed breaker opens on a completion exactly when it and the `FailureThreshold - 1` before it, all since Closed was entered, failed |
| `BreakerRuns.ClosesExactlyOnSuccesses` | services/ocr/circuit_breaker.go:342-356 | A half-open breaker closes exactly on the `SuccessThreshold`-th completion with no failure among them, and re-opens exactly on a failure |
| `BreakerDefaults.DefaultTripsExactly` | services/ocr/circuit_breaker.go:98-108 | Without a classifier of its own a closed breaker opens on a completion if and only if that one and those before it since it closed, as many as the threshold (5 by default), all returned something other than success and the three client errors |
| `BreakerDefaults.DefaultProbesDecide` | services/ocr/circuit_breaker.go:342-356 | A half-open one opens again if and only if a completion returned anything else, and closes if and only if as many as the success threshold (2 by default) returned nothing else |
| `BreakerDefaults.DefaultOpens` | services/ocr/circuit_breaker.go:329-341 | For every threshold, that many upstream errors in a row open it |
| `BreakerDefaults.ClientErrorsNeverOpen` | services/ocr/circuit_breaker.go:98-108 | Successes and the three client errors alone never take it out of Closed without `Trip` |
| `BreakerDefaults.OperatorDecides` | services/ocr/circuit_breaker.go:223-234 | A tripped breaker refuses until a cooldown after it opened and admits from then on; a reset one admits every call and counts as at the start |
| `BreakerRuns.ShieldHolds` | services/ocr/circuit_breaker.go:296-317 | The inductive form of the shield: from an open breaker, or a half-open one with its probe out, each admission is paid for by one cooldown |
| `BreakerRuns.OutageShielding` | services/ocr/circuit_breaker.go:296-361 | From any moment the breaker is open, if every completion, fresh or stale, is a failure and nobody resets it, k admissions take at least k cooldowns, whatever the interleaving and trips |
| `BreakerRuns.LostProbeBlocks` | services/ocr/circuit_breaker.go:311-317 | A probe that never completes leaves the breaker refusing every call, however long they wait: only a completion, `Trip` or `Reset` ends a half-open epoch |
| `BreakerRuns.ShieldIsReached` | services/ocr/circuit_breaker.go:296-361 | For every k some outage admits exactly k calls in exactly k cooldowns |
| `TokenBuckets.AnswersAreCoherent` | apps/api/internal/ratelimit/ratelimit.go:50-102 | Every call leaves all buckets well-formed and no other key touched; exactly the refusals carry a wait, of 1 to 60 seconds; an admission leaves fewer than the limit; the reset time is in the future |
| `TokenBuckets.BucketCell.Resize` | apps/api/internal/ratelimit/ratelimit.go:137-150 | A changed plan changes capacity and rate and cuts surplus tokens |
| `TokenBuckets.BucketCell.Take` | apps/api/internal/ratelimit/ratelimit.go:59-101 | Refill to the reading, then take a token or refuse, with the exact Remaining, ResetTime and RetryAfter figures |
| `TokenBuckets.Limiter.GetOrCreateBucket` | apps/api/internal/ratelimit/ratelimit.go:132-169 | Finds and resizes the bucket in place or creates a full one; no other bucket changes |
| `TokenBuckets.Limiter.Allow` | apps/api/internal/ratelimit/ratelimit.go:50-102 | The result and the whole new table equal the specification's |
| `TokenBuckets.Limiter.Reset` | apps/api/internal/ratelimit/ratelimit.go:105-109 | Removes exactly the key's bucket |
| `TokenBuckets.Limiter.CleanupStale` | apps/api/internal/ratelimit/ratelimit.go:112-130 | Removes exactly the buckets idle for longer than `maxIdle` and counts them |
| `TokenBucketBounds.StepSpendsPotential` | apps/api/internal/ratelimit/ratelimit.go:62-86 | An admission costs one unit of potential, and no call, resize or late sweep creates any |
| `TokenBucketBounds.RateBound` | apps/api/internal/ratelimit/ratelimit.go:50-130 | From any table, in any stretch of T seconds, at most L(1 + T/60) calls on a key are admitted, across plan changes up to L, other keys and sweeps with `maxIdle` of at least a minute |
| `TokenBucketTightness.RateBoundIsReached` | apps/api/internal/ratelimit/ratelimit.go:62-86 | For every limit and number of ticks, and so for every number of whole minutes, some run reaches that bound |
| `Replicas.SharesAddUp` | apps/api/internal/http/middleware/ratelimit.go:64-76 | N shares of a limit add up to at most max(limit, N) |
| `Replicas.SharesAreFair` | apps/api/internal/http/middleware/ratelimit.go:64-76 | One replica gets the whole limit; N get together more than the limit less N and at most the limit, or one request each when the limit is below N |
| `Replicas.SharesAreMonotone` | apps/api/internal/http/middleware/ratelimit.go:64-76 | A share is at least 1 and grows with the plan limit |
| `TokenBucketBounds.ClusterRateBound` | apps/api/internal/http/middleware/ratelimit.go:64-76 | N replicas that each enforce their share admit together at most max(limit, N)(1 + T/60) calls on a key in T seconds, however calls are routed |
| `ClusterTightness.ClusterBoundIsReached` | apps/api/internal/http/middleware/ratelimit.go:64-76 | Some run of the N replicas admits at every tick more than (limit - N)(1 + T/60) calls, and reaches that bound whenever the N shares add up to max(limit, N) |
| `TokenBucketExactness.CleanupIsInvisible` | apps/api/internal/ratelimit/ratelimit.go:112-130 | Sweeping buckets idle for a minute or more, at any points, changes no field of any later result, also after plan changes |
| `TokenBucketExactness.CleanupThreshold` | apps/api/internal/ratelimit/ratelimit.go:112-130 | A minute is the exact threshold: sweeping is invisible in all runs if and only if `maxIdle` is at least 60 seconds |
| `TokenBucketExactness.EarlySweepShows` | apps/api/internal/ratelimit/ratelimit.go:112-130 | For every smaller `maxIdle`, a run whose answers a sweep changes |
| `TokenBucketExactness.RetryAfterIsExact` | apps/api/internal/ratelimit/ratelimit.go:88-101 | After a refusal with RetryAfter r and no admission since, whatever refusals, other keys and sweeps with `maxIdle` of at least a minute come between, a call r or more seconds later is admitted, and one after any smaller whole number of seconds is refused |
| `TokenBucketExactness.RemainingIsExact` | apps/api/internal/ratelimit/ratelimit.go:77-86 | After an admission with Remaining r, a burst of n calls at the same instant admits exactly min(n, r) |
| `TokenBucketPlans.CallAcrossPlanChange` | apps/api/internal/ratelimit/ratelimit.go:50-150 | Under this plan or any other a call is admitted if and only if the tokens held at the last refill, cut to the limit, plus limit/60 a second since, up to the limit, come to at least 1; what it leaves, and that its whole part is reported |
| `TokenBucketPlans.BurstAcrossPlanChange` | apps/api/internal/ratelimit/ratelimit.go:137-147 | After an admission with Remaining r, a burst of n calls at the same instant under any other limit L admits exactly min(n, r, L) |
| `TokenBucketPlans.FreshKeyAdmits` | apps/api/internal/ratelimit/ratelimit.go:50-58 | A key without a bucket admits at once as many calls as its limit, and 10 when it has none |
| `TokenBucketPlans.SweepKeeps` | apps/api/internal/ratelimit/ratelimit.go:112-130 | A sweep keeps exactly the buckets refilled within `maxIdle`, unchanged |
| `TokenBucketPlans.ResetTimeIs` | apps/api/internal/ratelimit/ratelimit.go:69-75 | The reset time is the least whole number of seconds that regains what the bucket lacked before the call, and a minute when it lacked nothing |
| `TokenBucketPlans.ResetTimeExactly` | apps/api/internal/ratelimit/ratelimit.go:69-75 | After a refusal the bucket is full that many seconds later and not a second sooner; after an admission it lacks at most one token then, and up to 60 calls a minute it is full if and only if it was before the call |
| `TokenBucketRaces.StepSpends` | apps/api/internal/ratelimit/ratelimit.go:132-169 | With the look-up, the adoption and the take of a call as separate steps, each at most D after its clock reading, and sweeps of the key with `maxIdle` of at least 60 s + D, an admission out of the key's own bucket still costs one unit of potential |
| `TokenBucketRaces.RacingRateBound` | apps/api/internal/ratelimit/ratelimit.go:50-169 | When no call is under way for longer than a delay D and the key is swept with `maxIdle` of at least 60 s + D, at most L(1 + (T + D)/60) calls on it take a token in T seconds, plus the admissions out of buckets swept between look-up and take, which `SweptRateBound` bounds |
| `TokenBucketRaces.RunKeepsInv` | apps/api/internal/ratelimit/ratelimit.go:50-169 | Every run with limits up to L, whatever its sweeps, keeps the invariant that the racing bound starts from |
| `TokenBucketRaces.CallInOneGo` | apps/api/internal/ratelimit/ratelimit.go:50-169 | The look-up, adoption and take of a call that nothing comes between have the answer and the effect of the call in one step |
| `TokenBucketRaces.SweepInOneGo` | apps/api/internal/ratelimit/ratelimit.go:112-130 | A sweep of one key does for that key what the whole sweep does, and touches no other |
| `TokenBucketRaceTightness.RacingBoundIsReached` | apps/api/internal/ratelimit/ratelimit.go:55-66 | For every limit and delay, and every number of ticks past the delay, some run without sweeps reaches that bound |
| `TokenBucketRaceTightness.UndelayedBoundExactly` | apps/api/internal/ratelimit/ratelimit.go:50-169 | For every limit: all runs that admit nothing out of swept buckets, with such sweeps, keep L(1 + T/60) if and only if calls take no time |
| `TokenBucketRaceTightness.RacingSweepThreshold` | apps/api/internal/ratelimit/ratelimit.go:112-130 | For every delay D: all runs keep the racing bound if and only if sweeps use a `maxIdle` of at least 60 s + D |
| `TokenBucketStrays.StepStrays` | apps/api/internal/ratelimit/ratelimit.go:112-169 | An admission out of a swept bucket costs one unit of that bucket's potential; only dropping a bucket that a call holds adds potential, at most L(1 + D/60) |
| `TokenBucketStrays.StraysAreBounded` | apps/api/internal/ratelimit/ratelimit.go:118-169 | Whatever the sweeps, at most L(1 + D/60) calls take a token out of each bucket of the key that is dropped while a call holds it, in the run or before it |
| `TokenBucketStrays.DropsAreSpaced` | apps/api/internal/ratelimit/ratelimit.go:118-127 | With calls of at most a delay D and sweeps of the key with `maxIdle` of at least 60 s + D, at most 1 + T/60 of its buckets are dropped in T seconds while a call holds them |
| `TokenBucketStrays.SweptRateBound` | apps/api/internal/ratelimit/ratelimit.go:50-169 | The whole bound under interleaving: when no call is under way for longer than D and the key is swept with `maxIdle` of at least 60 s + D, at most L(1 + (T + D)/60) calls on it take a token in T seconds, and L(1 + D/60) more for each of its buckets that is dropped while a call holds it, or was so before; in the run there are at most 1 + T/60 of those |
| `TokenBucketStrayTightness.SweepsDouble` | apps/api/internal/ratelimit/ratelimit.go:112-169 | Calls that hold an idle bucket while it is swept take all that it gives, and its successor gives as much again at that instant, and so on for any number of sweeps |
| `TokenBucketStrayTightness.SweptBoundIsReached` | apps/api/internal/ratelimit/ratelimit.go:50-169 | For every limit, delay, `maxIdle` and number n of drops, a period apart, a run from the empty limiter has a stretch that admits that whole bound but for less than two calls a drop and what the period exceeds 60 s + D by; when a whole number of tokens is regained in the delay only the latter is missing |
| `TokenBucketStrayTightness.StrayFreeBoundNeverHolds` | apps/api/internal/ratelimit/ratelimit.go:50-169 | For no limit, delay and `maxIdle` do all runs keep L(1 + (T + D)/60) without the term for swept buckets |
| `FixedWindows.CounterTable.Hit` | apps/api/internal/ratelimit/postgres.go:68-76 | The upsert: exactly one row changes, and its new count is returned |
| `FixedWindows.PostgresLimiter.Allow` | apps/api/internal/ratelimit/postgres.go:53-108 | The result and the whole new table equal the specification's |
| `FixedWindows.PostgresLimiter.CleanupStale` | apps/api/internal/ratelimit/postgres.go:118-129 | Deletes exactly the rows of windows that began more than two window lengths ago, and returns how many |
| `FixedWindows.WindowAdmitsExactly` | apps/api/internal/ratelimit/postgres.go:61-107 | Over every interleaving of replicas, with clock readings in any order, or with sweeps while no clock is more than a window and a tick behind, each window of a key admits exactly min(arrivals, limit) |
| `FixedWindows.IntervalBound` | apps/api/internal/ratelimit/postgres.go:23-27 | An interval of n window lengths admits at most (n + 1) limits, from any table, under the same conditions |
| `FixedWindows.IntervalBoundIsReached` | apps/api/internal/ratelimit/postgres.go:23-27 | For every limit and n that bound is reached |
| `FixedWindows.TwiceTheLimit` | apps/api/internal/ratelimit/postgres.go:23-27 | The documented ceiling: no interval of one window length admits more than twice the limit |
| `FixedWindows.TwiceTheLimitIsReached` | apps/api/internal/ratelimit/postgres.go:23-27 | For every limit the ceiling is reached, within one clock tick of a window boundary |
| `FixedWindowFigures.FirstCallAnswer` | apps/api/internal/ratelimit/postgres.go:54-107 | The first call of a minute is admitted and reports one less than its limit, which is 10 when it has none |
| `FixedWindowFigures.RemainingIsExact` | apps/api/internal/ratelimit/postgres.go:81-107 | After an answer with Remaining r a burst of n calls in the same minute admits exactly min(n, r) |
| `FixedWindowFigures.ResetTimeIsExact` | apps/api/internal/ratelimit/postgres.go:62-107 | The reset time is the next full minute: a refusal stands until then, and from then on a fresh window admits |
| `FixedWindowFigures.RetryAfterFallsShortExactly` | apps/api/internal/ratelimit/postgres.go:86-99 | Waiting for Retry-After ends before the reset, by less than a second, and is refused again, if and only if the reset is more than a second and no whole number of seconds away |
| `FixedWindows.CleanupIsInvisible` | apps/api/internal/ratelimit/postgres.go:118-129 | While no replica clock is more than a window and a tick behind the latest, deleting old windows changes no answer |
| `FixedWindows.CleanupThreshold` | apps/api/internal/ratelimit/postgres.go:118-129 | That is the exact threshold: sweeping is invisible in all runs if and only if clocks are at most a window and a tick apart |
| `IdempotencyStores.MemoryStore.LockOrGet` | apps/api/internal/idempotency/memory.go:36-74 | Returns a record that is live at `now <= ExpiresAt`, and otherwise stores and returns a fresh lock; missing identifiers are refused with nothing changed |
| `IdempotencyStores.MemoryStore.Complete` | apps/api/internal/idempotency/memory.go:77-109 | Fills in the response of an existing record, and ignores a missing one |
| `IdempotencyStores.MemoryStore.Release` | apps/api/internal/idempotency/memory.go:112-130 | Removes the record exactly when it is still in progress |
| `IdempotencyStores.MemoryStore.CleanupStale` | apps/api/internal/idempotency/memory.go:133-146 | Removes exactly the expired records and counts them |
| `IdempotencyRefinement.KeysCollideExactly` | apps/api/internal/idempotency/memory.go:31-33 | Two organisations can claim the same storage key if and only if one name extends the other after a colon |
| `IdempotencyRefinement.EncodingIsInjective` | apps/api/internal/idempotency/memory.go:31-33 | Among names none of which extends another after a colon, storage keys determine organisation and key |
| `IdempotencyRefinement.FlatStoreRefinesPairMap` | apps/api/internal/idempotency/memory.go:36-146 | For organisation names without a colon and any default TTL, the flat store answers every call as a map on pairs that is never swept: with clock readings in any order while it is not swept either, and with sweeps when readings are in lock order |
| `IdempotencyRefinement.RefinementIsExact` | apps/api/internal/idempotency/memory.go:31-146 | For two given names the refinement holds in all unswept runs if and only if neither extends the other after a colon, and in all runs with readings up to S out of lock order if and only if moreover S is 0 |
| `PostgresStores.PostgresStore.Upsert` | apps/api/internal/idempotency/postgres.go:49-81 | One statement: takes the lock when there is no row or the row has expired at `now >= expires_at`, and otherwise changes and returns nothing |
| `PostgresStores.PostgresStore.Complete` | apps/api/internal/idempotency/postgres.go:133-168 | One statement: fills in the response of an existing row |
| `PostgresStores.PostgresStore.Release` | apps/api/internal/idempotency/postgres.go:171-193 | One statement: deletes the row exactly when it is in progress |
| `PostgresStores.PostgresStore.CleanupStale` | apps/api/internal/idempotency/postgres.go:196-210 | Deletes exactly the expired rows and counts them |
| `PostgresStores.PostgresStore.LockOrGet` | apps/api/internal/idempotency/postgres.go:32-130 | The two statements in a row act as one atomic lookup |
| `Sealing.OpenAfterSeal` | apps/api/internal/idempotency/seal.go:56-93 | With a sealer, opening gives back every body that was sealed, the empty one and those that begin with the mark included |
| `Sealing.OpenAfterSealWithoutSealer` | apps/api/internal/idempotency/seal.go:56-80 | Without a sealer the round trip holds if and only if the body does not begin with the mark |
| `IdempotencyProtocol.BodiesAreSealedAtRest` | apps/api/internal/idempotency/seal.go:22-28 | With a sealer, in every run whatever, a stored body is empty or sealed: a response that cannot be sealed is never stored as it is |
| `IdempotencyProtocol.StepKeepsInv` | apps/api/internal/http/middleware/idempotency.go:106-215 | Every upsert, select, completion and sweep keeps: each running handler owns the one live lock of its pair, and each completed row is backed by a response given for the same pair and payload |
| `IdempotencyProtocol.SingleHandler` | apps/api/internal/http/middleware/idempotency.go:106-187 | In every run in which handlers finish before their records expire, at most one handler runs for a pair; its record is in progress, has its payload hash, and is live at the last event |
| `IdempotencyProtocol.FaithfulReplay` | apps/api/internal/http/middleware/idempotency.go:142-165 | Every replay carries the status, first header values and body that a handler for the same pair and payload hash completed with, and unsealing never fails |
| `IdempotencyProtocol.SettledUntilExpiry` | apps/api/internal/http/middleware/idempotency.go:118-210 | From a completion until its record expires no handler runs for the pair, the same payload hash is replayed that very response, and any other hash is told there is a mismatch |
| `IdempotencyProtocol.AtomicAcquire` | apps/api/internal/idempotency/memory.go:50-73 | A select that follows its upsert at once makes the two one atomic lookup that never fails |
| `IdempotencyProtocol.SplitAcquireFailsExactly` | apps/api/internal/idempotency/postgres.go:99-119 | Whatever comes between the two statements, the second finds no row, and the request is told of a store failure, if and only if a handler ended without a response to keep or a sweep found the row expired, and nobody took the lock again |
| `IdempotencyProtocol.SplitAcquireCanFail` | apps/api/internal/idempotency/postgres.go:99-119 | For example, when the handler that holds the lock panics between the statements |
| `IdempotencyProtocol.OverrunRunsTwoHandlers` | apps/api/internal/idempotency/memory.go:53-60 | The assumption that handlers finish in time is needed: a handler that outlives its record does not stop a second one |
| `IdempotencyRetries.RetryRunsExactly` | apps/api/internal/http/middleware/idempotency.go:168-214 | Over every run, with or without a sealer: a retry before expiry runs the handler again if and only if the store could be written and the first handler panicked, answered 429 or 500 and above, or left a body that could not be sealed |
| `IdempotencyRetries.RetryIsTold` | apps/api/internal/http/middleware/idempotency.go:118-167 | Any other retry, whatever comes between its two statements, is told of a mismatch when its payload differs, of a request in progress when the store could not be written, and else gets the status, the first value of every header, and the body |
| `IdempotencyRetries.LockLastsExactly` | apps/api/internal/http/middleware/idempotency.go:104-134 | A lock turns other requests away for its time to live, and is free just after that in the memory store, and at it in PostgreSQL |
| `IdempotencyMiddleware.CopyMirrorsExactly` | apps/api/internal/http/middleware/idempotency.go:33-53 | After any handler the kept copy has the client's body; it has the client's status as well if and only if the connection cannot be flushed or the response was not flushed before its first status, other than 200 |
| `IdempotencyMiddleware.ResponseWriter.WriteHeader` | apps/api/internal/http/middleware/idempotency.go:33-39 | The first status is kept and passed on, later ones are neither |
| `IdempotencyMiddleware.ResponseWriter.Write` | apps/api/internal/http/middleware/idempotency.go:41-47 | The bytes are kept and passed on; a first write implies status 200 |
| `IdempotencyMiddleware.ResponseWriter.Flush` | apps/api/internal/http/middleware/idempotency.go:49-53 | The flush is passed on and leaves no trace in the copy |
| `IdempotencyMiddleware.HeadersSettle` | apps/api/internal/http/middleware/idempotency.go:29-31 | A header that the handler does not change after its first write or flush is sent as the handler leaves it |
| `IdempotencyMiddleware.ResponseWriter.Serve` | apps/api/internal/http/middleware/idempotency.go:187 | A whole handler over the writer: what is kept and what the client receives |
| `IdempotencyMiddleware.RunHandler` | apps/api/internal/http/middleware/idempotency.go:168-214 | A request that has taken the lock: the status, headers and body that its client receives, also after a panic, and the exact store left behind |
| `IdempotencyMiddleware.ServeHTTP` | apps/api/internal/http/middleware/idempotency.go:65-216 | One request end to end: which are passed through, refused, answered from the record or run, the status, headers and body that the client receives, the replay mark among them, and the exact store left behind |
| `IdempotencyMiddleware.ReplayRepeatsTheResponse` | apps/api/internal/http/middleware/idempotency.go:142-210 | A replay is marked, has the body that the first client received, and its status if and only if the copy had it; each header that the handler left with a value has its first value, which is what the first client received unless the handler changed it late |
| `IdempotencyMiddleware.SecondRequest` | apps/api/internal/http/middleware/idempotency.go:104-214 | Two requests with one key within the hour: the second runs the handler if and only if the first panicked, ended with 429 or 500 and above, or could not be sealed; else it gets the first one's status and body, or 422 for another payload |
| `IdempotencyMiddleware.ErrorsAreTold` | apps/api/internal/http/middleware/idempotency.go:118-157 | 409 while the first request is at work, 500 when the stored body does not open, both as JSON |
| `IdempotencyMiddleware.PanicsAreTold` | apps/api/internal/http/middleware/idempotency.go:169-187 | After a panic the client gets 500, or the error behind what the handler had sent under its status |
| `IdempotencyMiddleware.LastPutStays` | apps/api/internal/http/middleware/idempotency.go:29-31 | The header map that is stored holds what the handler put last under each name, and what was there before under any other |
| `Recorders.UsageRecorder.Record` | apps/api/internal/usage/recorder.go:40-63 | Queues the record when the channel is open and has room, and drops it otherwise |
| `Recorders.UsageRecorder.Drain` | apps/api/internal/usage/recorder.go:69-83 | After the close the worker handles all that is left, in order, and exits |
| `Recorders.RunConserves` | apps/api/internal/usage/recorder.go:40-107 | Every run keeps the recorder well-formed and accounts for every offered record |
| `Recorders.Conservation` | apps/api/internal/usage/recorder.go:40-84 | In every run each offered record is dropped, handled, in hand or buffered; accepted records are handled once each in FIFO order; the buffer never exceeds its capacity |
| `Recorders.NoSendAfterClose` | apps/api/internal/usage/recorder.go:48-53 | Once closed, nothing more is sent: every later offer is dropped |
| `Recorders.CloseDrains` | apps/api/internal/usage/recorder.go:87-107 | When `Close` returns nil every accepted record has been handled |
| `Quotas.OcrRequestsAreMetered` | apps/api/internal/http/middleware/metering.go:58-101 | An organisation's OCR request becomes a usage record, whatever its status, exactly when its response is not marked as a replay |
| `Quotas.OnlyReplaysAreUnmetered` | apps/api/internal/http/middleware/metering.go:54-101 | Across the idempotency middleware: an OCR request that runs its handler is recorded, also after a panic, and of those answered from a record exactly the replays are not |
| `Quotas.NeverMetered` | apps/api/internal/http/middleware/metering.go:58-80 | Exactly probes, documentation, the sign-in, usage and account paths, marked replays and unknown callers are not recorded |
| `Quotas.DispatchUsage` | apps/api/internal/http/middleware/metering.go:54-101 | Which finished requests are offered to the recorder, and that nothing else happens |
| `Quotas.StepKeepsInv` | apps/api/internal/quota/quota.go:53-80 | Every check, finish, offer, drop and write keeps account of where each successful call is on its way to the table |
| `Quotas.OvershootIsBounded` | apps/api/internal/quota/quota.go:45-80 | Over every interleaving, an organisation's successful OCR calls in a cycle never exceed quota + concurrency + buffer size + lost records |
| `Quotas.OvershootIsReached` | apps/api/internal/quota/quota.go:45-80 | For every positive quota and concurrency and every buffer size some run reaches that bound with nothing lost, so the commented bound of the in-flight concurrency alone does not hold |
| `Quotas.CountIsCallsExactly` | apps/api/internal/store/usage.go:249-262 | The counting query counts the successful OCR calls, as it is described, if and only if every record of the organisation since the start of the cycle, under the OCR path and with a status below 400, came from a POST to one of the six OCR routes |
| `Quotas.RefusedExactly` | apps/api/internal/quota/quota.go:66-79 | An organisation is refused if and only if its written calls and look-ups together reach the quota; so one without look-ups exactly when its calls do |
| `Quotas.LookUpsExhaustTheQuota` | apps/api/internal/store/usage.go:249-262 | Every quota can be used up by look-ups without a single OCR call |
| `QuotaIsolation.EmptyTableAnswer` | apps/api/internal/quota/quota.go:46-79 | With nothing recorded the whole quota is left, and a quota of nothing refuses |
| `QuotaIsolation.OneRecordAnswer` | apps/api/internal/store/usage.go:249-262 | A record of another organisation, of an earlier time, with status 400 or above or off the OCR path leaves the whole answer as it is; any other takes one from what remains, and the last one turns it into a refusal |
| `QuotaIsolation.AnsweredAlone` | apps/api/internal/store/usage.go:249-262 | In every run an organisation's checks are answered as if nobody else used the table |
| `QuotaIsolation.TenantsAreIsolated` | apps/api/internal/store/usage.go:249-262 | Two runs that write the same records of an organisation in the same order, between the same checks, give it the same answers, whatever is written for others |
| `RevocationCaches.SessionTokenValidator.InvalidateRevocationCache` | apps/api/internal/http/middleware/oidc.go:122-126 | Removes exactly the user's entry |
| `RevocationCaches.SessionTokenValidator.SessionsValidFrom` | apps/api/internal/http/middleware/oidc.go:128-153 | An uninterrupted consultation: a live entry answers, else the database does and its answer is stored for 30 seconds from the storing |
| `RevocationCaches.SessionTokenValidator.ValidateToken` | apps/api/internal/http/middleware/oidc.go:156-179 | A token is rejected exactly when the consulted instant is after its issue second |
| `RevocationCaches.RevocationTakesEffect` | apps/api/internal/http/middleware/oidc.go:128-153 | Whatever lookups overwrite each other or race an invalidation, a consultation begun at or after revocation + 30 s + the longest lookup rejects every token issued before the revocation's second |
| `RevocationCaches.InvalidationIsImmediate` | apps/api/internal/http/middleware/oidc.go:122-153 | When no lookup of the user holds an answer yet, an invalidation takes effect at once: every later consultation rejects every token issued in a second before it |
| `RevocationCaches.FreshTokensPass` | apps/api/internal/http/middleware/oidc.go:162-166 | A token without an issue time, or issued in a second at or after the user's current valid-from, is never rejected as revoked |
| `RevocationCaches.StalenessIsReached` | apps/api/internal/http/middleware/oidc.go:128-153 | Two clock ticks before that bound an interleaving still sees the old instant |
| `RevocationCaches.SameSecondTokensAreRejected` | apps/api/internal/http/middleware/oidc.go:163 | A token issued after a revocation is rejected as well if and only if it was issued in the same second and the revocation was not on the second's first instant |
| `KeyTouchers.KeyToucher.Touch` | apps/api/internal/http/middleware/toucher.go:39-76 | Whether a write is dispatched, and the whole new state: the touch is noted even when no slot is free |
| `KeyTouchers.KeyToucher.PruneExpired` | apps/api/internal/http/middleware/toucher.go:54-60 | Removes exactly the touches that no longer throttle |
| `KeyTouchers.PrunedAbove2000` | apps/api/internal/http/middleware/toucher.go:53-60 | Up to 2000 keys nothing is pruned; above that exactly the touches older than the interval go |
| `KeyTouchers.DispatchesAreSpaced` | apps/api/internal/http/middleware/toucher.go:44-60 | With clock readings up to S out of lock order, any two dispatched touches of a key are at least the interval less S apart, however many keys are touched and pruned in between; so the whole interval when readings are in order |
| `KeyTouchers.SpacingIsReached` | apps/api/internal/http/middleware/toucher.go:44-60 | For every interval, number of slots and S, from every full map two dispatches of a key come exactly that far apart |
| `KeyTouchers.OutstandingIsBounded` | apps/api/internal/http/middleware/toucher.go:63-75 | Outstanding writes never exceed the size of the semaphore |
| `KeyTouchers.OutstandingIsReached` | apps/api/internal/http/middleware/toucher.go:63-75 | Touches of enough different keys take every slot |
| `KeyTouchers.PruningIsInvisible` | apps/api/internal/http/middleware/toucher.go:44-60 | With clock readings in lock order pruning the map changes no later decision |
| `KeyTouchers.PruningThreshold` | apps/api/internal/http/middleware/toucher.go:44-60 | Pruning is invisible in all runs with readings up to S out of lock order if and only if S is 0 |
| `PlanCaches.Granted` | apps/api/internal/http/middleware/ratelimit.go:184-196 | What a plan row grants: its limit and code where they are set, those of the free tier otherwise, and the free tier without a row |
| `PlanCaches.AnsweredAtOnceExactly` | apps/api/internal/http/middleware/ratelimit.go:139-160 | Without an entry a lookup is answered at once, with 10 requests of the free tier, if and only if the key is missing, the default organisation, an address or anonymous; any other asks the database |
| `PlanCaches.ClearedCacheAsks` | apps/api/internal/http/middleware/ratelimit.go:53-61 | After a change of the number of replicas no lookup is answered from the cache |
| `PlanCaches.RateLimitMiddleware.SetReplicaCount` | apps/api/internal/http/middleware/ratelimit.go:53-61 | Sets a divisor of at least 1 and drops every cached limit |
| `PlanCaches.RateLimitMiddleware.PerReplicaLimit` | apps/api/internal/http/middleware/ratelimit.go:64-76 | The share of a limit for the current number of replicas |
| `PlanCaches.RateLimitMiddleware.GetOrgTier` | apps/api/internal/http/middleware/ratelimit.go:139-207 | An uninterrupted lookup of an organisation: its answer and the whole new cache |
| `PlanCaches.RateLimitMiddleware.GetUserTier` | apps/api/internal/http/middleware/ratelimit.go:157-182 | An uninterrupted lookup of a dashboard user, with the nested lookup of the organisation: its answer and the whole new cache |
| `PlanCaches.StepKeepsInv` | apps/api/internal/http/middleware/ratelimit.go:139-207 | Every step of every concurrent lookup keeps the staleness invariant of entries, lookups in flight and answers |
| `PlanCaches.OrgAnswersAreFresh` | apps/api/internal/http/middleware/ratelimit.go:139-207 | The tier given for an organisation was its tier at some time from less than a minute before the lookup began until it was given |
| `PlanCaches.OrgStalenessIsReached` | apps/api/internal/http/middleware/ratelimit.go:139-207 | The minute is needed: an answer a minute less a tick after its tier was last true |
| `PlanCaches.UserAnswersAreFresh` | apps/api/internal/http/middleware/ratelimit.go:157-182 | The tier given for a user was, from less than two minutes before the lookup began, the tier of an organisation the user belonged to from less than a minute before; or the user had none and got the free tier |
| `PlanCaches.UserStalenessExceedsAMinute` | apps/api/internal/http/middleware/ratelimit.go:157-182 | One minute is not enough for a user: an entry built from an almost expired entry still answers almost two minutes after its tier was last true |
| `Mrz.CalculateMRZCheckDigit` | services/ocr/passport_validator.go:46-63 | The loop computes the weighted sum modulo 10 over the whole field |
| `Mrz.ReplacementDetected` | services/ocr/passport_validator.go:46-63 | For fields of any length, replacing one character leaves the check digit as it is if and only if the values agree modulo 10 |
| `Mrz.SwapDetected` | services/ocr/passport_validator.go:46-63 | Swapping two neighbours leaves the check digit as it is if and only if their values agree modulo 5 |
| `MrzLaws.EachCharacterAdds` | services/ocr/passport_validator.go:46-63 | Each character adds its value (digits themselves, letters 10 to 35, others 0) to the check digit of the rest, 7, 3 or 1 times by its position, modulo 10 |
| `MrzLaws.FillersAddNothing` | services/ocr/passport_validator.go:46-63 | A field of fillers has the check digit 0, so the two determine every check digit |
| `MrzLaws.DatesAre` | services/ocr/passport_validator.go:96-142 | Which six characters are a date, and its year: a birth year is the latest that is not in the future, an expiry year in this century unless that is more than 30 years ago |
| `Mrz.ReplacementRejected` | services/ocr/passport_validator.go:176-239 | In an accepted second line, replacing a covered character by one whose value differs modulo 10, or the last digit by anything, is rejected |
| `Mrz.MisreadDigitRejected` | services/ocr/passport_validator.go:145-239 | In an accepted TD3 document, whatever blanks and lower-case letters its lines have, replacing any digit at positions 0-9, 13-19 or 21-43 of the second line by another digit is rejected |
| `Mrz.DocumentNumberReplaced` | services/ocr/passport_validator.go:176-182 | A replaced document-number character goes unnoticed if and only if the values agree modulo 10 |
| `Mrz.DocumentNumberSwapped` | services/ocr/passport_validator.go:176-182 | Two swapped neighbours of the document number go unnoticed if and only if their values agree modulo 5 |
| `Mrz.ValidateMRZTD3` | services/ocr/passport_validator.go:144-239 | The verdict, flag by flag, and that it is valid exactly for the accepted documents |
| `MrzLaws.FlagsAreLocal` | services/ocr/passport_validator.go:170-239 | Each flag of the verdict depends on its own field alone, and all together accept the line |
| `MrzLaws.SexMarkerReplaced` | services/ocr/passport_validator.go:192-207 | In an accepted line the sex marker can become M, F or a filler and nothing else |
| `MrzLaws.UnusedPersonalNumber` | services/ocr/passport_validator.go:217-229 | With an unused personal number a filler or a zero, and nothing else, is accepted for its check digit |
| `MrzLaws.NationalityReplaced` | services/ocr/passport_validator.go:184-185 | No check covers the nationality |
| `MrzLaws.FirstLineMatters` | services/ocr/passport_validator.go:148-164 | Of the first line only its length and a leading P matter |
| `Npwp.CleanNPWP` | services/ocr/npwp_validator.go:29-39 | The loop collects exactly the digits, in order |
| `Npwp.CleanAfterFormat` | services/ocr/npwp_validator.go:164-176 | Cleaning undoes the standard formatting of every 15-digit number |
| `Npwp.CalculateNPWPCheckDigit` | services/ocr/npwp_validator.go:50-73 | The check digit of eight digits, and the two errors |
| `Npwp.ReplacementDetected` | services/ocr/npwp_validator.go:50-73 | Replacing one of the eight digits always changes the check digit |
| `Npwp.SwapDetected` | services/ocr/npwp_validator.go:50-73 | Swapping two neighbours goes unnoticed if and only if they are equal or a 0 and a 9 |
| `NpwpLaws.EachDigitAdds` | services/ocr/npwp_validator.go:50-73 | Each digit adds itself, or on odd positions the digit sum of its double, to what the check digit makes up to a multiple of ten; with eight zeros giving 0 this determines it |
| `Npwp.CleanedFaresAlike` | services/ocr/npwp_validator.go:142-161 | A number and its cleaned form are judged alike, and cleaning is idempotent |
| `Npwp.MisreadDigitRejected` | services/ocr/npwp_validator.go:77-109 | In a valid 15-digit number a misread digit among the first nine is always rejected |
| `NpwpLaws.ExactlyOneCheckDigit` | services/ocr/npwp_validator.go:77-109 | Eight digits, an office and a branch make a valid number with exactly one check digit, and with none when they begin with 00 or the office is 000 |
| `NpwpLaws.FirstComplaint` | services/ocr/npwp_validator.go:87-107 | What is reported: the taxpayer type before the check digit, and that before the office |
| `NpwpLaws.DigitsDecide` | services/ocr/npwp_validator.go:111-161 | The digits of any text decide: 15, 16 with a leading zero in front of 15, 16 of an individual, or none |
| `NpwpLaws.FormatIs` | services/ocr/npwp_validator.go:164-176 | Where the points and the hyphen of the standard form stand |
| `Invoices.MatchPPNRate` | services/ocr/invoice_validator.go:263-278 | The loop finds the first statutory rate the tax fits |
| `Invoices.InvoiceData.CheckDocument` | services/ocr/invoice_validator.go:111-132 | Number and dates: the error, and the header as trimmed so far |
| `Invoices.InvoiceData.CheckParties` | services/ocr/invoice_validator.go:134-162 | Names and tax numbers: the error, and the header as normalised so far |
| `Invoices.InvoiceData.CheckCurrency` | services/ocr/invoice_validator.go:164-175 | The normalised currency, and whether it is a three-letter code |
| `Invoices.InvoiceData.ValidateLineItems` | services/ocr/invoice_validator.go:177-195 | The items as changed up to the first failure, the error with its index, and the sum of the totals |
| `Invoices.InvoiceData.CheckBase` | services/ocr/invoice_validator.go:197-220 | Subtotal, discount and taxable base: the error, and the amounts as filled in so far |
| `Invoices.InvoiceData.CheckTotal` | services/ocr/invoice_validator.go:221-245 | Tax and grand total: the error, and the amounts as filled in so far |
| `Invoices.InvoiceData.ValidateInvoice` | services/ocr/invoice_validator.go:106-248 | The error and the whole invoice left behind, also when validation fails half-way |
| `InvoiceAcceptance.InvoiceJudged` | services/ocr/invoice_validator.go:106-248 | The answer is the first in a fixed list of things wrong with the invoice as it came in, although it is changed on the way; a refused one has been put in order exactly up to the check that failed, and an accepted one throughout |
| `InvoiceAcceptance.AcceptedExactly` | services/ocr/invoice_validator.go:106-248 | It is accepted if and only if nothing in that list is wrong, the order of the dates included |
| `InvoiceAcceptance.HeaderJudged` | services/ocr/invoice_validator.go:111-175 | The ten checks of the header and the fields after each |
| `InvoiceAcceptance.ItemsJudged` | services/ocr/invoice_validator.go:177-195 | The first unsound item stops the loop, with the missing totals filled in before it |
| `InvoiceAcceptance.AmountsJudged` | services/ocr/invoice_validator.go:190-245 | The seven checks of the amounts and the amounts after each |
| `InvoiceLaws.TotalsFollowPrices` | services/ocr/invoice_validator.go:177-195 | The sum of n accepted totals is within n tolerances of the sum of the prices |
| `InvoiceLaws.GrandTotalFollowsPrices` | services/ocr/invoice_validator.go:177-245 | An accepted invoice with n line items, a positive subtotal and no taxable base of its own has a grand total within 2(n + 2) of the prices less the discount plus the tax |
| `InvoiceLaws.GrandTotalBoundIsReached` | services/ocr/invoice_validator.go:177-245 | For every n that bound is reached |
| `InvoiceLaws.SuppliedBaseIsNotCompared` | services/ocr/invoice_validator.go:210-217 | A taxable base the invoice brings along is never compared with its subtotal, so the grand total can exceed the prices by any amount |
| `InvoiceLaws.GiftsAreNotCompared` | services/ocr/invoice_validator.go:210-217 | With prices that come to nothing any excess is accepted as well, with a base brought along or worked back from the grand total |
| `InvoiceLaws.BoundHoldsExactly` | services/ocr/invoice_validator.go:197-245 | Of the four shapes (base brought along or not, subtotal positive or not), under every acceptable header and for every number of items, all accepted invoices keep the 2(n + 2) bound if and only if the base is omitted and the subtotal positive |
| `InvoiceLaws.HeaderIsStable` | services/ocr/invoice_validator.go:111-175 | A header that passed passes again unchanged |
| `InvoiceLaws.ItemsAreStable` | services/ocr/invoice_validator.go:177-195 | Line items that passed pass again unchanged |
| `InvoiceLaws.AmountsAreStable` | services/ocr/invoice_validator.go:197-245 | Amounts that passed pass again unchanged if and only if the subtotal was not worked back from the grand total, or the result agrees with the line items and the discount |
| `InvoiceLaws.RepeatableExactly` | services/ocr/invoice_validator.go:106-248 | Validating an accepted invoice again accepts it and changes nothing under exactly that condition |
| `InvoiceLaws.PlainInvoicesAreRepeatable` | services/ocr/invoice_validator.go:210-217 | An accepted invoice with neither line items nor a discount can always be validated again |
| `InvoiceLaws.RateIsStatutory` | services/ocr/invoice_validator.go:263-278 | A tax is accepted if and only if it is within the tolerance of a statutory rate on a positive base, and the recorded rate is the highest that it fits |
| `InvoiceLaws.AmbiguousExactly` | services/ocr/invoice_validator.go:271-276 | Some tax amount fits two rates if and only if the base is at most 400 |

## Left out

- TokenBucketBounds.RateBound: takes a whole `Allow` as one step; the interleaving of its locked regions is the subject of `RacingRateBound`. `Reset` is in neither.
- TokenBucketExactness.CleanupIsInvisible: takes a whole `Allow` as one step, since a sweep between look-up and take can be seen (`SweepsDouble`).
- RevocationCaches.RevocationTakesEffect: assumes that lookups succeed; on a failed lookup the code lets the token through.
- PlanCaches.OrgAnswersAreFresh: assumes that lookups succeed, and that no organisation is named like a dashboard user's key, which is also what ends the recursion in `getOrgRateLimit`.
- PlanCaches.UserAnswersAreFresh: as for organisations.
- IdempotencyProtocol.SingleHandler: assumes that handlers finish before their records expire; `OverrunRunsTwoHandlers` shows what happens otherwise.
- PlanCaches.RateLimitMiddleware.GetOrgTier: together with `GetUserTier` this is one recursive function in the source, split by the kind of key.
- KeyTouchers.KeyToucher.Touch: takes the locked region and the attempt on the semaphore as one step; neither reads what the other writes. `KeyToucher.Reset` is not in the runs.
- Floating-point rounding of tokens and money, and overflow of 64-bit durations.
- The in-process fallback of the shared limiter when the database fails, and limiters without a database.
- The calendar arithmetic of `CurrentBillingCycle`: the start of the cycle is a parameter. A quota plan that changes within a cycle.
- Memory-store records are values in a map here, where the source holds pointers and hands out copies.
- Informational (1xx) statuses, trailers, and the headers that the HTTP server adds of its own accord.
- The idempotency middleware trims the key header before it is used; keys are taken as trimmed. Canonical spelling of header names is not modelled.
- The nil store of the idempotency middleware, and the nil recorder and nil stores elsewhere.
- Text is ASCII: trimming and upper-casing of other characters is not modelled.
- The name, nationality, gender and formatted-date fields of an MRZ result, the passport-number syntax check, and the other document validators.
- The decision whether an identity number (NIK) is valid, and the parsing of dates in invoices, are parameters.
- HTTP handling, JSON, routing, tracing, metrics, logging and the real SQL schema.
- The cryptography behind hashes, session-token signatures and sealing.
- The OCR engine, the mail and authorisation services, and the dashboard.
