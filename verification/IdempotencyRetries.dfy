// What a retry meets: which responses are kept for it, and what it is told. Stated in status numbers and for
// every run, with or without a sealer.

module IdempotencyRetries {
  import opened Options
  import opened Units
  import opened HttpHeaders
  import opened Records
  import opened Sealing
  import opened IdempotencyProtocol

  lemma UpsertKeepsHeld(be: Backend, sealer: Option<Aead>, w: World, e: Event)
    requires Held(w) && Enabled(w, e) && e.Upsert?
    requires forall id | id in w.running :: be.Before(w.running[id].expiresAt, e.now)
    ensures Held(Step(be, sealer, w, e))
  {
    if !(e.pair in w.rows && be.Live(w.rows[e.pair], e.now)) {
      assert forall id | id in w.running :: w.running[id].pair != e.pair;
    }
  }

  lemma FinishKeepsHeld(be: Backend, sealer: Option<Aead>, w: World, e: Event)
    requires Held(w) && Enabled(w, e) && e.Finish?
    ensures Held(Step(be, sealer, w, e))
  {
    assert forall id | id in w.running && id != e.id :: w.running[id].pair != w.running[e.id].pair;
  }

  lemma StepKeepsHeld(be: Backend, sealer: Option<Aead>, w: World, e: Event)
    requires Held(w) && Enabled(w, e) && forall id | id in w.running :: be.Before(w.running[id].expiresAt, e.now)
    ensures Held(Step(be, sealer, w, e))
  {
    match e
    case Upsert(_, _, _, _, _) => UpsertKeepsHeld(be, sealer, w, e);
    case Select(_, _) =>
    case Finish(_, _, _, _, _) => FinishKeepsHeld(be, sealer, w, e);
    case Sweep(_) =>
  }

  lemma {:induction false} RunKeepsHeld(be: Backend, sealer: Option<Aead>, w: World, es: seq<Event>)
    requires Held(w) && Legal(be, sealer, w, es) && OnTime(be, sealer, w, es)
    ensures Held(Run(be, sealer, w, es))
    decreases |es|
  {
    if es != [] {
      StepKeepsHeld(be, sealer, w, es[0]);
      RunKeepsHeld(be, sealer, Step(be, sealer, w, es[0]), es[1..]);
    }
  }

  /**
   * A handler that holds the lock of `pair` until `expiresAt` ends with `outcome`, and after `mid` the
   * request `retry` asks for the same pair, all of it before that record expires.
   */
  ghost predicate Retried(be: Backend, sealer: Option<Aead>, w: World, finish: Event, mid: seq<Event>, retry: Event) {
    && Held(w) && finish.Finish? && Enabled(w, finish)
    && var lock, after := w.running[finish.id], Step(be, sealer, w, finish);
       && Legal(be, sealer, after, mid) && NoUpsert(mid, lock.pair)
       && (forall i | 0 <= i < |mid| :: be.Before(lock.expiresAt, mid[i].now))
       && retry.Upsert? && retry.pair == lock.pair && be.Before(lock.expiresAt, retry.now)
       && Enabled(Run(be, sealer, after, mid), retry)
  }

  /** Without a random nonce a sealer cannot seal a body. */
  predicate CannotSeal(sealer: Option<Aead>, nonce: Option<Bytes>, body: Bytes) {
    sealer.Some? && body != [] && nonce.None?
  }

  /** What the handler leaves behind is still there when the retry comes. */
  lemma RowAtRetry(be: Backend, sealer: Option<Aead>, w: World, finish: Event, mid: seq<Event>, retry: Event)
    requires Retried(be, sealer, w, finish, mid, retry)
    ensures
      var pair, after := w.running[finish.id].pair, Step(be, sealer, w, finish);
      var later := Run(be, sealer, after, mid);
      && (pair in later.rows <==> pair in after.rows)
      && (pair in after.rows ==> Settled(later, pair, after.rows[pair]) && be.Live(after.rows[pair], retry.now))
  {
    var pair, after := w.running[finish.id].pair, Step(be, sealer, w, finish);
    if pair in after.rows {
      RunStaysSettled(be, sealer, after, mid, pair, after.rows[pair], |after.replies|);
    } else {
      PresenceAfterRun(be, sealer, after, mid, pair);
      NothingToRemove(be, sealer, after, mid, pair);
    }
  }

  /** A row that is not there and that nobody inserts is not there afterwards. */
  lemma {:induction false} NothingToRemove(be: Backend, sealer: Option<Aead>, w: World, es: seq<Event>, pair: Pair)
    requires Legal(be, sealer, w, es) && pair !in w.rows && NoUpsert(es, pair)
    ensures pair !in Run(be, sealer, w, es).rows
    decreases |es|
  {
    if es != [] {
      PresenceAfterStep(be, sealer, w, es[0], pair);
      assert forall i | 0 <= i < |es[1..]| :: es[1..][i] == es[i + 1];
      NothingToRemove(be, sealer, Step(be, sealer, w, es[0]), es[1..], pair);
    }
  }

  /**
   * A retry before expiry runs the handler again exactly when the store could be written and the handler
   * panicked, answered 429 or 500 and above, or left a body that could not be sealed.
   */
  lemma RetryRunsExactly(be: Backend, sealer: Option<Aead>, es: seq<Event>, finish: Event, mid: seq<Event>, retry: Event)
    requires Legal(be, sealer, START, es) && OnTime(be, sealer, START, es)
    requires Retried(be, sealer, Run(be, sealer, START, es), finish, mid, retry)
    ensures
      var w := Run(be, sealer, START, es);
      var later := Run(be, sealer, Step(be, sealer, w, finish), mid);
      retry.id in Step(be, sealer, later, retry).running <==>
        && finish.stored
        && (|| finish.outcome.Panicked?
            || finish.outcome.code == 429 || finish.outcome.code >= 500
            || CannotSeal(sealer, finish.nonce, finish.outcome.body))
  {
    RowAtRetry(be, sealer, Run(be, sealer, START, es), finish, mid, retry);
  }

  /** The reply is a replay with the outcome's status, the first value of each of its headers, and its body. */
  ghost predicate IsReplayOf(reply: Reply, outcome: Outcome) {
    && reply.Replayed? && outcome.Responded?
    && reply.code == outcome.code && reply.body == outcome.body
    && (forall name :: name in reply.headers <==> name in outcome.headers && |outcome.headers[name]| > 0)
    && (forall name | name in reply.headers :: reply.headers[name] == outcome.headers[name][0])
  }

  lemma OpensAgain(sealer: Option<Aead>, nonce: Option<Bytes>, body: Bytes)
    requires sealer.Some? ==> sealer.value.OpensWhatItSeals() && (nonce.Some? ==> |nonce.value| == sealer.value.nonceSize)
    requires sealer.None? ==> !HasMagic(body)
    requires !CannotSeal(sealer, nonce, body)
    ensures Seal(sealer, nonce, body).Ok? && Open(sealer, Seal(sealer, nonce, body).value) == Ok(body)
  {
    if sealer.Some? {
      OpenAfterSeal(sealer.value, nonce, body);
    } else {
      OpenAfterSealWithoutSealer(nonce, body);
    }
  }

  /** What the row that a handler leaves behind answers. */
  lemma RowAnswers(be: Backend, sealer: Option<Aead>, w: World, finish: Event, hash: string)
    requires Held(w) && finish.Finish? && Enabled(w, finish)
    requires w.running[finish.id].pair in Step(be, sealer, w, finish).rows
    requires sealer.Some? ==>
      sealer.value.OpensWhatItSeals() && (finish.nonce.Some? ==> |finish.nonce.value| == sealer.value.nonceSize)
    requires sealer.None? && finish.outcome.Responded? ==> !HasMagic(finish.outcome.body)
    ensures
      var lock := w.running[finish.id];
      var reply := Answer(sealer, Step(be, sealer, w, finish).rows[lock.pair], hash);
      && (hash != lock.hash ==> reply == Mismatch)
      && (hash == lock.hash && !finish.stored ==> reply == InProgressElsewhere)
      && (hash == lock.hash && finish.stored ==> IsReplayOf(reply, finish.outcome))
  {
    if finish.stored {
      OpensAgain(sealer, finish.nonce, finish.outcome.body);
    }
  }

  /**
   * Any other retry is told: of a mismatch when its payload differs; else of a request in progress when the
   * store could not be written; else it gets the status, the first value of every header, and the body.
   */
  lemma RetryIsTold(be: Backend, sealer: Option<Aead>, es: seq<Event>, finish: Event, mid: seq<Event>, retry: Event,
                    rest: seq<Event>, now: int)
    requires Legal(be, sealer, START, es) && OnTime(be, sealer, START, es)
    requires Retried(be, sealer, Run(be, sealer, START, es), finish, mid, retry)
    requires
      var w := Run(be, sealer, START, es);
      var later := Step(be, sealer, Run(be, sealer, Step(be, sealer, w, finish), mid), retry);
      && retry.id !in later.running
      && Legal(be, sealer, later, rest) && (forall i | 0 <= i < |rest| && rest[i].Select? :: rest[i].id != retry.id)
      && (forall i | 0 <= i < |rest| :: be.Before(w.running[finish.id].expiresAt, rest[i].now))
    requires sealer.Some? ==>
      sealer.value.OpensWhatItSeals() && (finish.nonce.Some? ==> |finish.nonce.value| == sealer.value.nonceSize)
    requires sealer.None? && finish.outcome.Responded? ==> !HasMagic(finish.outcome.body)
    ensures
      var w := Run(be, sealer, START, es);
      var asked := Run(be, sealer, Step(be, sealer, Run(be, sealer, Step(be, sealer, w, finish), mid), retry), rest);
      && Enabled(asked, Select(retry.id, now))
      && var replies := Step(be, sealer, asked, Select(retry.id, now)).replies;
         && |replies| == |asked.replies| + 1 && replies[..|asked.replies|] == asked.replies
         && var r := replies[|asked.replies|];
            && r.pair == retry.pair && r.hash == retry.hash
            && (retry.hash != w.running[finish.id].hash ==> r.reply == Mismatch)
            && (retry.hash == w.running[finish.id].hash && !finish.stored ==> r.reply == InProgressElsewhere)
            && (retry.hash == w.running[finish.id].hash && finish.stored ==> IsReplayOf(r.reply, finish.outcome))
  {
    var w := Run(be, sealer, START, es);
    var pair, after := w.running[finish.id].pair, Step(be, sealer, w, finish);
    var before := Run(be, sealer, after, mid);
    var later := Step(be, sealer, before, retry);
    RunKeepsHeld(be, sealer, START, es);
    RowAtRetry(be, sealer, w, finish, mid, retry);
    RunStaysSettled(be, sealer, later, rest, pair, after.rows[pair], |later.replies|);
    LoserWaits(be, sealer, later, rest, retry.id);
    RowAnswers(be, sealer, w, finish, retry.hash);
  }

  /**
   * A lock lasts for its time to live, during which every other request is told of it, and is free to take
   * from then on: in the memory store just after that instant, in PostgreSQL at it.
   */
  lemma LockLastsExactly(be: Backend, sealer: Option<Aead>, pair: Pair, hash: string, other: string, ttl: int, now: int, later: int)
    requires ttl > 0
    ensures
      var locked := Step(be, sealer, START, Upsert(0, pair, hash, ttl, now));
      var asked := Step(be, sealer, locked, Upsert(1, pair, other, ttl, later));
      && 0 in locked.running
      && (1 in asked.running <==> (match be case Memory => later > now + ttl case Postgres => later >= now + ttl))
      && (1 !in asked.running ==>
          Step(be, sealer, asked, Select(1, later)).replies
          == [Response(pair, other, if other == hash then InProgressElsewhere else Mismatch)])
  {
    var locked := Step(be, sealer, START, Upsert(0, pair, hash, ttl, now));
    assert locked.rows == map[pair := NewRecord(pair.0, pair.1, hash, now, ttl)];
  }
}
