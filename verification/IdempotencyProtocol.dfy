// The idempotency middleware over a store, with any number of requests in flight.
//
// Acquiring a key takes two atomic steps, as in the PostgreSQL store: an upsert that either takes the
// lock or finds a live record, and in the second case a later select. Other steps can come between.
// The memory store does both under one lock, which is the special case of a select that follows its
// upsert at once.

module IdempotencyProtocol {
  import opened Options
  import opened Units
  import opened HttpHeaders
  import opened Records
  import opened Sealing

  /** A handler that runs under a lock, until `expiresAt`. */
  datatype Lock = Lock(pair: Pair, hash: string, expiresAt: int)

  /** A request whose upsert found a live record and whose select is still to come. */
  datatype Loser = Loser(pair: Pair, hash: string)

  /** What a handler does: it panics, or it writes a response. Headers can have several values. */
  datatype Outcome = Panicked | Responded(code: int, headers: Headers, body: Bytes)

  /** What a request that does not run the handler is told. */
  datatype Reply =
    | Mismatch
    | InProgressElsewhere
    | Replayed(code: int, headers: map<string, string>, body: Bytes)
    | ReplayFailed
    | StoreFailed

  datatype Response = Response(pair: Pair, hash: string, reply: Reply)

  /** What was kept when a handler completed, before it was sealed. */
  datatype Completion = Completion(pair: Pair, hash: string, code: int, headers: map<string, string>, body: Bytes, expiresAt: int)

  datatype World = World(
    rows: map<Pair, Record>,
    running: map<nat, Lock>,
    losers: map<nat, Loser>,
    replies: seq<Response>,
    completions: seq<Completion>)

  datatype Event =
    | Upsert(id: nat, pair: Pair, hash: string, ttl: int, now: int)
    | Select(id: nat, now: int)
    | Finish(id: nat, outcome: Outcome, nonce: Option<Bytes>, stored: bool, now: int)
    | Sweep(now: int)

  const START := World(map[], map[], map[], [], [])

  /** Server errors and rate or quota signals are for the client to retry; everything else is kept for replay. */
  predicate Replayable(code: int) {
    code < 500 && code != 429
  }

  function Answer(sealer: Option<Aead>, row: Record, hash: string): Reply {
    if row.requestHash != hash then Mismatch
    else
      match row.status
      case InProgress => InProgressElsewhere
      case Completed =>
        match Open(sealer, row.body)
        case Err => ReplayFailed
        case Ok(plain) => Replayed(row.statusCode, row.headers, plain)
  }

  predicate Enabled(w: World, e: Event) {
    match e
    case Upsert(id, _, _, ttl, _) => id !in w.running && id !in w.losers && ttl > 0
    case Select(id, _) => id in w.losers
    case Finish(id, _, _, _, _) => id in w.running
    case Sweep(_) => true
  }

  /** How the rows change when a handler ends; `stored` is false when the write to the store fails. */
  function Conclude<K>(
      sealer: Option<Aead>, rows: map<K, Record>, pair: K, outcome: Outcome, nonce: Option<Bytes>, stored: bool): map<K, Record>
  {
    if !stored then rows
    else if Completes(sealer, outcome, nonce) then
      Complete(rows, pair, outcome.code, FirstValues(outcome.headers), Seal(sealer, nonce, outcome.body).value)
    else Release(rows, pair)
  }

  predicate Completes(sealer: Option<Aead>, outcome: Outcome, nonce: Option<Bytes>) {
    outcome.Responded? && Replayable(outcome.code) && Seal(sealer, nonce, outcome.body).Ok?
  }

  function Step(be: Backend, sealer: Option<Aead>, w: World, e: Event): World
    requires Enabled(w, e)
  {
    match e
    case Upsert(id, pair, hash, ttl, now) =>
      var (rows, rec, isNew) := LockOrGet(be, w.rows, pair, NewRecord(pair.0, pair.1, hash, now, ttl), now);
      if isNew then w.(rows := rows, running := w.running[id := Lock(pair, hash, now + ttl)])
      else w.(losers := w.losers[id := Loser(pair, hash)])
    case Select(id, now) =>
      var Loser(pair, hash) := w.losers[id];
      var reply := if pair in w.rows then Answer(sealer, w.rows[pair], hash) else StoreFailed;
      w.(losers := w.losers - {id}, replies := w.replies + [Response(pair, hash, reply)])
    case Finish(id, outcome, nonce, stored, now) =>
      var lock := w.running[id];
      var done := w.(running := w.running - {id},
                     rows := Conclude(sealer, w.rows, lock.pair, outcome, nonce, stored));
      if stored && Completes(sealer, outcome, nonce) then
        done.(completions := w.completions +
          [Completion(lock.pair, lock.hash, outcome.code, FirstValues(outcome.headers), outcome.body, lock.expiresAt)])
      else done
    case Sweep(now) => w.(rows := Cleanup(be, w.rows, now))
  }

  function Run(be: Backend, sealer: Option<Aead>, w: World, es: seq<Event>): World
    requires Legal(be, sealer, w, es)
    decreases |es|
  {
    if es == [] then w else Run(be, sealer, Step(be, sealer, w, es[0]), es[1..])
  }

  predicate Legal(be: Backend, sealer: Option<Aead>, w: World, es: seq<Event>)
    decreases |es|
  {
    es == [] || (Enabled(w, es[0]) && Legal(be, sealer, Step(be, sealer, w, es[0]), es[1..]))
  }

  predicate NonceFits(sealer: Aead, e: Event) {
    e.Finish? && e.nonce.Some? ==> |e.nonce.value| == sealer.nonceSize
  }

  /** No handler is still running when its record has expired. */
  ghost predicate OnTime(be: Backend, sealer: Option<Aead>, w: World, es: seq<Event>)
    requires Legal(be, sealer, w, es)
    decreases |es|
  {
    es == [] ||
    ((forall id | id in w.running :: be.Before(w.running[id].expiresAt, es[0].now))
     && OnTime(be, sealer, Step(be, sealer, w, es[0]), es[1..]))
  }

  /** A completed row holds, sealed, a response that some handler gave for the same pair and payload. */
  ghost predicate Backed(sealer: Option<Aead>, row: Record, pair: Pair, c: Completion) {
    && c.pair == pair && c.hash == row.requestHash && c.expiresAt == row.expiresAt
    && c.code == row.statusCode && c.headers == row.headers && Open(sealer, row.body) == Ok(c.body)
  }

  /** A replay is the response that some handler gave for the same pair and payload. */
  ghost predicate Faithful(r: Response, c: Completion) {
    c.pair == r.pair && c.hash == r.hash && r.reply == Replayed(c.code, c.headers, c.body)
  }

  /** Every running handler has its own row, and that row is its lock. */
  ghost predicate Held(w: World) {
    && (forall id | id in w.running ::
      var lock := w.running[id];
      && lock.pair in w.rows
      && w.rows[lock.pair].status == InProgress
      && w.rows[lock.pair].requestHash == lock.hash
      && w.rows[lock.pair].expiresAt == lock.expiresAt)
    && (forall i, j | i in w.running && j in w.running && w.running[i].pair == w.running[j].pair :: i == j)
  }

  ghost predicate Inv(sealer: Option<Aead>, w: World) {
    && Held(w)
    && (forall pair | pair in w.rows && w.rows[pair].status == Completed ::
      exists c | c in w.completions :: Backed(sealer, w.rows[pair], pair, c))
    && (forall r | r in w.replies && r.reply.Replayed? :: exists c | c in w.completions :: Faithful(r, c))
    && (forall r | r in w.replies :: r.reply != ReplayFailed)
  }

  lemma StepKeepsInv(be: Backend, sealer: Aead, w: World, e: Event)
    requires sealer.OpensWhatItSeals() && NonceFits(sealer, e)
    requires Inv(Some(sealer), w) && Enabled(w, e)
    requires forall id | id in w.running :: be.Before(w.running[id].expiresAt, e.now)
    ensures Inv(Some(sealer), Step(be, Some(sealer), w, e))
  {
    match e
    case Upsert(_, _, _, _, _) => UpsertKeepsInv(be, sealer, w, e);
    case Select(id, now) => SelectKeepsInv(be, sealer, w, e);
    case Finish(_, _, _, _, _) => FinishKeepsInv(be, sealer, w, e);
    case Sweep(_) => SweepKeepsInv(be, sealer, w, e);
  }

  /** A request that takes the lock finds no handler on its pair. */
  lemma LockIsFree(be: Backend, sealer: Aead, w: World, e: Event)
    requires Inv(Some(sealer), w) && e.Upsert? && !(e.pair in w.rows && be.Live(w.rows[e.pair], e.now))
    requires forall id | id in w.running :: be.Before(w.running[id].expiresAt, e.now)
    ensures forall id | id in w.running :: w.running[id].pair != e.pair
  {
  }

  lemma TakingKeepsInv(be: Backend, sealer: Aead, w: World, e: Event)
    requires Inv(Some(sealer), w) && Enabled(w, e) && e.Upsert? && !(e.pair in w.rows && be.Live(w.rows[e.pair], e.now))
    requires forall id | id in w.running :: w.running[id].pair != e.pair
    ensures Inv(Some(sealer), Step(be, Some(sealer), w, e))
  {
    var next := Step(be, Some(sealer), w, e);
    forall pair | pair in next.rows && next.rows[pair].status == Completed
      ensures exists c | c in next.completions :: Backed(Some(sealer), next.rows[pair], pair, c)
    {
      assert pair in w.rows && next.rows[pair] == w.rows[pair];
    }
  }

  lemma LosingKeepsInv(be: Backend, sealer: Aead, w: World, e: Event)
    requires Inv(Some(sealer), w) && Enabled(w, e) && e.Upsert? && e.pair in w.rows && be.Live(w.rows[e.pair], e.now)
    ensures Inv(Some(sealer), Step(be, Some(sealer), w, e))
  {
    var next := Step(be, Some(sealer), w, e);
    assert next.rows == w.rows && next.running == w.running && next.replies == w.replies && next.completions == w.completions;
  }

  lemma UpsertKeepsInv(be: Backend, sealer: Aead, w: World, e: Event)
    requires Inv(Some(sealer), w) && Enabled(w, e) && e.Upsert?
    requires forall id | id in w.running :: be.Before(w.running[id].expiresAt, e.now)
    ensures Inv(Some(sealer), Step(be, Some(sealer), w, e))
  {
    if e.pair in w.rows && be.Live(w.rows[e.pair], e.now) {
      LosingKeepsInv(be, sealer, w, e);
    } else {
      LockIsFree(be, sealer, w, e);
      TakingKeepsInv(be, sealer, w, e);
    }
  }

  lemma SweepKeepsInv(be: Backend, sealer: Aead, w: World, e: Event)
    requires Inv(Some(sealer), w) && e.Sweep?
    requires forall id | id in w.running :: be.Before(w.running[id].expiresAt, e.now)
    ensures Inv(Some(sealer), Step(be, Some(sealer), w, e))
  {
  }

  lemma SelectKeepsInv(be: Backend, sealer: Aead, w: World, e: Event)
    requires Inv(Some(sealer), w) && Enabled(w, e) && e.Select?
    ensures Inv(Some(sealer), Step(be, Some(sealer), w, e))
  {
    var Loser(pair, hash) := w.losers[e.id];
    if pair in w.rows && w.rows[pair].status == Completed {
      var c :| c in w.completions && Backed(Some(sealer), w.rows[pair], pair, c);
      assert w.rows[pair].requestHash == hash ==>
        Faithful(Response(pair, hash, Answer(Some(sealer), w.rows[pair], hash)), c);
    }
  }

  lemma FinishKeepsInv(be: Backend, sealer: Aead, w: World, e: Event)
    requires sealer.OpensWhatItSeals() && NonceFits(sealer, e)
    requires Inv(Some(sealer), w) && Enabled(w, e) && e.Finish?
    ensures Inv(Some(sealer), Step(be, Some(sealer), w, e))
  {
    var w' := Step(be, Some(sealer), w, e);
    var lock := w.running[e.id];
    assert w.completions <= w'.completions;
    assert forall c | c in w.completions :: c in w'.completions;
    if e.stored && Completes(Some(sealer), e.outcome, e.nonce) {
      OpenAfterSeal(sealer, e.nonce, e.outcome.body);
      var c := w'.completions[|w.completions|];
      assert c in w'.completions && Backed(Some(sealer), w'.rows[lock.pair], lock.pair, c);
    }
  }

  lemma {:induction false} RunKeepsInv(be: Backend, sealer: Aead, w: World, es: seq<Event>)
    requires sealer.OpensWhatItSeals() && (forall i | 0 <= i < |es| :: NonceFits(sealer, es[i]))
    requires Inv(Some(sealer), w) && Legal(be, Some(sealer), w, es) && OnTime(be, Some(sealer), w, es)
    ensures Inv(Some(sealer), Run(be, Some(sealer), w, es))
    decreases |es|
  {
    if es != [] {
      assert NonceFits(sealer, es[0]);
      StepKeepsInv(be, sealer, w, es[0]);
      RunKeepsInv(be, sealer, Step(be, Some(sealer), w, es[0]), es[1..]);
    }
  }

  /** After the last event of a punctual run every lock is live: it was so before, or has just been taken. */
  lemma {:induction false} LocksStayLive(be: Backend, sealer: Option<Aead>, w: World, es: seq<Event>)
    requires Legal(be, sealer, w, es) && OnTime(be, sealer, w, es) && es != []
    ensures
      var w' := Run(be, sealer, w, es);
      forall id | id in w'.running :: be.Before(w'.running[id].expiresAt, es[|es| - 1].now)
    decreases |es|
  {
    if |es| > 1 {
      var rest := es[1..];
      LocksStayLive(be, sealer, Step(be, sealer, w, es[0]), rest);
      assert rest[|rest| - 1] == es[|es| - 1];
      assert Run(be, sealer, w, es) == Run(be, sealer, Step(be, sealer, w, es[0]), rest);
    } else {
      assert Run(be, sealer, w, es) == Step(be, sealer, w, es[0]);
    }
  }

  /**
   * In every run from an empty store in which handlers finish before their records expire, at most one
   * handler runs for a pair at any time, and its record is a live lock with its own payload hash.
   */
  lemma SingleHandler(be: Backend, sealer: Aead, es: seq<Event>, i: nat, j: nat)
    requires sealer.OpensWhatItSeals() && (forall k | 0 <= k < |es| :: NonceFits(sealer, es[k]))
    requires Legal(be, Some(sealer), START, es) && OnTime(be, Some(sealer), START, es)
    requires
      var w := Run(be, Some(sealer), START, es);
      i in w.running && j in w.running && w.running[i].pair == w.running[j].pair
    ensures i == j
    ensures
      var w := Run(be, Some(sealer), START, es);
      var lock := w.running[i];
      && lock.pair in w.rows
      && w.rows[lock.pair].status == InProgress && w.rows[lock.pair].requestHash == lock.hash
      && es != [] && be.Live(w.rows[lock.pair], es[|es| - 1].now)
  {
    RunKeepsInv(be, sealer, START, es);
    if es != [] {
      LocksStayLive(be, Some(sealer), START, es);
    }
  }

  /**
   * Every replay in such a run carries the status, first header values and body that a handler for the
   * same pair and the same payload hash completed with, unsealed without error.
   */
  lemma FaithfulReplay(be: Backend, sealer: Aead, es: seq<Event>, r: Response)
    requires sealer.OpensWhatItSeals() && (forall k | 0 <= k < |es| :: NonceFits(sealer, es[k]))
    requires Legal(be, Some(sealer), START, es) && OnTime(be, Some(sealer), START, es)
    requires r in Run(be, Some(sealer), START, es).replies
    ensures r.reply != ReplayFailed
    ensures r.reply.Replayed? ==> exists c | c in Run(be, Some(sealer), START, es).completions :: Faithful(r, c)
  {
    RunKeepsInv(be, sealer, START, es);
  }

  // ---- Nothing unsealed is stored ----

  ghost predicate AllSealed(sealer: Aead, rows: map<Pair, Record>) {
    forall pair | pair in rows :: IsSealed(sealer, rows[pair].body)
  }

  lemma StepKeepsSealed(be: Backend, sealer: Aead, w: World, e: Event)
    requires AllSealed(sealer, w.rows) && Enabled(w, e)
    ensures AllSealed(sealer, Step(be, Some(sealer), w, e).rows)
  {
    if e.Finish? {
      SealNeverLeaksThePlaintext(sealer, e.nonce, if e.outcome.Responded? then e.outcome.body else []);
    }
  }

  lemma {:induction false} RunKeepsSealed(be: Backend, sealer: Aead, w: World, es: seq<Event>)
    requires AllSealed(sealer, w.rows) && Legal(be, Some(sealer), w, es)
    ensures AllSealed(sealer, Run(be, Some(sealer), w, es).rows)
    decreases |es|
  {
    if es != [] {
      StepKeepsSealed(be, sealer, w, es[0]);
      RunKeepsSealed(be, sealer, Step(be, Some(sealer), w, es[0]), es[1..]);
    }
  }

  /**
   * With a sealer, in every run whatever, a stored body is empty or sealed: a response that cannot be
   * sealed is never stored as it is.
   */
  lemma BodiesAreSealedAtRest(be: Backend, sealer: Aead, es: seq<Event>, pair: Pair)
    requires Legal(be, Some(sealer), START, es) && pair in Run(be, Some(sealer), START, es).rows
    ensures IsSealed(sealer, Run(be, Some(sealer), START, es).rows[pair].body)
  {
    RunKeepsSealed(be, sealer, START, es);
  }

  // ---- From a completion until its expiry ----

  predicate AllLive(be: Backend, row: Record, es: seq<Event>) {
    forall i | 0 <= i < |es| :: be.Live(row, es[i].now)
  }

  ghost predicate Settled(w: World, pair: Pair, row: Record) {
    && pair in w.rows && w.rows[pair] == row
    && (forall id | id in w.running :: w.running[id].pair != pair)
  }

  /** Every reply to `pair` from the `n`-th on is decided by `row` alone. */
  ghost predicate RepliesFrom(sealer: Option<Aead>, w: World, pair: Pair, row: Record, n: nat) {
    forall i | n <= i < |w.replies| && w.replies[i].pair == pair ::
      w.replies[i].reply == Answer(sealer, row, w.replies[i].hash)
  }

  lemma StepStaysSettled(be: Backend, sealer: Option<Aead>, w: World, e: Event, pair: Pair, row: Record, n: nat)
    requires Settled(w, pair, row) && be.Live(row, e.now) && Enabled(w, e)
    requires RepliesFrom(sealer, w, pair, row, n)
    ensures Settled(Step(be, sealer, w, e), pair, row)
    ensures RepliesFrom(sealer, Step(be, sealer, w, e), pair, row, n)
  {
  }

  lemma {:induction false} RunStaysSettled(be: Backend, sealer: Option<Aead>, w: World, es: seq<Event>, pair: Pair, row: Record, n: nat)
    requires Settled(w, pair, row) && AllLive(be, row, es) && Legal(be, sealer, w, es)
    requires RepliesFrom(sealer, w, pair, row, n)
    ensures Settled(Run(be, sealer, w, es), pair, row)
    ensures RepliesFrom(sealer, Run(be, sealer, w, es), pair, row, n)
    decreases |es|
  {
    if es != [] {
      assert be.Live(row, es[0].now);
      StepStaysSettled(be, sealer, w, es[0], pair, row, n);
      RunStaysSettled(be, sealer, Step(be, sealer, w, es[0]), es[1..], pair, row, n);
    }
  }

  /**
   * Once a handler has completed, and until its record expires, no handler runs for the pair, its record
   * does not change, and every answer given for the pair is settled: the same payload hash is replayed
   * the completed response, any other hash is told there is a mismatch.
   */
  lemma SettledUntilExpiry(be: Backend, sealer: Aead, es: seq<Event>, more: seq<Event>, pair: Pair)
    requires sealer.OpensWhatItSeals() && (forall k | 0 <= k < |es| :: NonceFits(sealer, es[k]))
    requires Legal(be, Some(sealer), START, es) && OnTime(be, Some(sealer), START, es)
    requires
      var w := Run(be, Some(sealer), START, es);
      && pair in w.rows && w.rows[pair].status == Completed
      && Legal(be, Some(sealer), w, more) && AllLive(be, w.rows[pair], more)
    ensures
      var w := Run(be, Some(sealer), START, es);
      var w' := Run(be, Some(sealer), w, more);
      && (forall id | id in w'.running :: w'.running[id].pair != pair)
      && pair in w'.rows && w'.rows[pair] == w.rows[pair]
      && exists c | c in w.completions ::
           && Backed(Some(sealer), w.rows[pair], pair, c)
           && forall i | |w.replies| <= i < |w'.replies| && w'.replies[i].pair == pair ::
                w'.replies[i].reply == if w'.replies[i].hash == c.hash then Replayed(c.code, c.headers, c.body) else Mismatch
  {
    RunKeepsInv(be, sealer, START, es);
    var w := Run(be, Some(sealer), START, es);
    RunStaysSettled(be, Some(sealer), w, more, pair, w.rows[pair], |w.replies|);
    var c :| c in w.completions && Backed(Some(sealer), w.rows[pair], pair, c);
  }

  // ---- The two ways to acquire ----

  /** When the select follows its upsert at once, the two act as one atomic lookup and never fail. */
  lemma AtomicAcquire(be: Backend, sealer: Option<Aead>, w: World, id: nat, pair: Pair, hash: string, ttl: int, now: int)
    requires Enabled(w, Upsert(id, pair, hash, ttl, now))
    ensures
      var (rows, rec, isNew) := LockOrGet(be, w.rows, pair, NewRecord(pair.0, pair.1, hash, now, ttl), now);
      var w1 := Step(be, sealer, w, Upsert(id, pair, hash, ttl, now));
      && w1.rows == rows
      && (isNew <==> id in w1.running)
      && (!isNew ==> Enabled(w1, Select(id, now)))
      && (!isNew ==>
          Step(be, sealer, w1, Select(id, now))
          == w.(losers := w.losers - {id}, replies := w.replies + [Response(pair, hash, Answer(sealer, rec, hash))]))
  {
    var w1 := Step(be, sealer, w, Upsert(id, pair, hash, ttl, now));
    assert id in w1.losers ==> w1.losers - {id} == w.losers - {id};
    if id in w1.losers {
      SplitAcquireFailsExactly(be, sealer, w1, [], id, now);
    }
  }

  predicate NoUpsert(es: seq<Event>, pair: Pair) {
    forall i | 0 <= i < |es| && es[i].Upsert? :: es[i].pair != pair
  }

  /**
   * The event removes the pair's row: a handler ends without a response to keep while the row is in
   * progress, or a sweep finds the row expired.
   */
  predicate Removes(be: Backend, sealer: Option<Aead>, w: World, e: Event, pair: Pair)
    requires Enabled(w, e)
  {
    pair in w.rows &&
    match e
    case Finish(id, outcome, nonce, stored, _) =>
      w.running[id].pair == pair && stored && !Completes(sealer, outcome, nonce) && w.rows[pair].status == InProgress
    case Sweep(now) => !be.Live(w.rows[pair], now)
    case _ => false
  }

  /** Some event of the run removes the row, and no later one takes the lock again. */
  predicate RemovedFor(be: Backend, sealer: Option<Aead>, w: World, es: seq<Event>, pair: Pair)
    requires Legal(be, sealer, w, es)
    decreases |es|
  {
    es != [] &&
    ((Removes(be, sealer, w, es[0], pair) && NoUpsert(es[1..], pair))
     || RemovedFor(be, sealer, Step(be, sealer, w, es[0]), es[1..], pair))
  }

  lemma PresenceAfterStep(be: Backend, sealer: Option<Aead>, w: World, e: Event, pair: Pair)
    requires Enabled(w, e)
    ensures pair in Step(be, sealer, w, e).rows
      <==> (e.Upsert? && e.pair == pair) || (pair in w.rows && !Removes(be, sealer, w, e, pair))
  {
  }

  lemma {:induction false} PresenceAfterRun(be: Backend, sealer: Option<Aead>, w: World, es: seq<Event>, pair: Pair)
    requires Legal(be, sealer, w, es)
    ensures pair !in Run(be, sealer, w, es).rows
      <==> (pair !in w.rows && NoUpsert(es, pair)) || RemovedFor(be, sealer, w, es, pair)
    decreases |es|
  {
    if es != [] {
      PresenceAfterStep(be, sealer, w, es[0], pair);
      PresenceAfterRun(be, sealer, Step(be, sealer, w, es[0]), es[1..], pair);
      assert NoUpsert(es, pair) <==> (es[0].Upsert? ==> es[0].pair != pair) && NoUpsert(es[1..], pair) by {
        assert forall i | 0 <= i < |es[1..]| :: es[1..][i] == es[i + 1];
        assert forall i | 0 < i < |es| :: es[i] == es[1..][i - 1];
      }
    }
  }

  lemma {:induction false} LoserWaits(be: Backend, sealer: Option<Aead>, w: World, es: seq<Event>, id: nat)
    requires Legal(be, sealer, w, es) && id in w.losers
    requires forall i | 0 <= i < |es| && es[i].Select? :: es[i].id != id
    ensures id in Run(be, sealer, w, es).losers && Run(be, sealer, w, es).losers[id] == w.losers[id]
    decreases |es|
  {
    if es != [] {
      LoserWaits(be, sealer, Step(be, sealer, w, es[0]), es[1..], id);
    }
  }

  /**
   * A request that lost the upsert to a stored row is told of a store failure by its select, whatever
   * came in between, exactly when something removed the row and nobody took the lock again.
   */
  lemma SplitAcquireFailsExactly(be: Backend, sealer: Option<Aead>, w: World, mid: seq<Event>, id: nat, now: int)
    requires id in w.losers && w.losers[id].pair in w.rows && Legal(be, sealer, w, mid)
    requires forall i | 0 <= i < |mid| && mid[i].Select? :: mid[i].id != id
    ensures
      var Loser(pair, hash) := w.losers[id];
      var w' := Run(be, sealer, w, mid);
      && Enabled(w', Select(id, now))
      && var told := Step(be, sealer, w', Select(id, now)).replies;
         && |told| == |w'.replies| + 1 && told[..|w'.replies|] == w'.replies
         && told[|w'.replies|].pair == pair && told[|w'.replies|].hash == hash
         && (told[|w'.replies|].reply == StoreFailed <==> RemovedFor(be, sealer, w, mid, pair))
  {
    LoserWaits(be, sealer, w, mid, id);
    PresenceAfterRun(be, sealer, w, mid, w.losers[id].pair);
  }

  lemma RunCons(be: Backend, sealer: Option<Aead>, w: World, e: Event, es: seq<Event>)
    requires Enabled(w, e) && Legal(be, sealer, Step(be, sealer, w, e), es) && OnTime(be, sealer, Step(be, sealer, w, e), es)
    requires forall id | id in w.running :: be.Before(w.running[id].expiresAt, e.now)
    ensures Legal(be, sealer, w, [e] + es) && OnTime(be, sealer, w, [e] + es)
    ensures Run(be, sealer, w, [e] + es) == Run(be, sealer, Step(be, sealer, w, e), es)
  {
    assert ([e] + es)[1..] == es;
  }

  /** For example, the handler that holds the lock panics in between. */
  lemma SplitAcquireCanFail(be: Backend, sealer: Option<Aead>, pair: Pair, hash: string)
    ensures
      var es := [Upsert(0, pair, hash, 10, 0), Upsert(1, pair, hash, 10, 0), Finish(0, Panicked, None, true, 1), Select(1, 2)];
      && Legal(be, sealer, START, es) && OnTime(be, sealer, START, es)
      && Run(be, sealer, START, es).replies == [Response(pair, hash, StoreFailed)]
  {
    var e0, e1, e2, e3 := Upsert(0, pair, hash, 10, 0), Upsert(1, pair, hash, 10, 0), Finish(0, Panicked, None, true, 1), Select(1, 2);
    var w1 := Step(be, sealer, START, e0);
    var w2 := Step(be, sealer, w1, e1);
    var w3 := Step(be, sealer, w2, e2);
    assert w1.running == map[0 := Lock(pair, hash, 10)] && w2 == w1.(losers := map[1 := Loser(pair, hash)]);
    assert Run(be, sealer, w2, [e2]) == w3 && Removes(be, sealer, w2, e2, pair) && NoUpsert([], pair);
    SplitAcquireFailsExactly(be, sealer, w2, [e2], 1, 2);
    assert w3.running == map[];
    RunCons(be, sealer, w3, e3, []);
    RunCons(be, sealer, w2, e2, [e3] + []);
    RunCons(be, sealer, w1, e1, [e2] + ([e3] + []));
    RunCons(be, sealer, START, e0, [e1] + ([e2] + ([e3] + [])));
    assert [e0] + ([e1] + ([e2] + ([e3] + []))) == [e0, e1, e2, e3];
  }

  /** A handler that outlives its record does not stop a second one, with any payload, from starting. */
  lemma OverrunRunsTwoHandlers(be: Backend, sealer: Option<Aead>, pair: Pair, hash: string, other: string, ttl: int)
    requires ttl > 0
    ensures
      var es := [Upsert(0, pair, hash, ttl, 0), Upsert(1, pair, other, ttl, ttl + 1)];
      && Legal(be, sealer, START, es) && !OnTime(be, sealer, START, es)
      && var w := Run(be, sealer, START, es);
         0 in w.running && 1 in w.running && w.running[0].pair == w.running[1].pair == pair
  {
    var e0, e1 := Upsert(0, pair, hash, ttl, 0), Upsert(1, pair, other, ttl, ttl + 1);
    assert [e0, e1][1..] == [e1] && [e1][1..] == [];
    var w1 := Step(be, sealer, START, e0);
    assert w1.running[0] == Lock(pair, hash, ttl);
    assert Legal(be, sealer, w1, [e1]);
    assert Run(be, sealer, w1, [e1]) == Step(be, sealer, w1, e1);
  }
}
