// The per-replica cache of session revocations.
//
// The database is a function of user and time: `db(user, t)` is the instant from which the user's
// tokens are accepted, as a lookup at `t` sees it. A lookup reads the cache, asks the database and
// writes the cache in three separate steps, so lookups and invalidations can interleave at will.
// Times are integers in nanoseconds; token issue times are whole seconds.

module RevocationCaches {
  import opened Options
  import opened Units

  const CACHE_TTL := 30 * SECOND

  datatype Entry = Entry(validFrom: int, expiresAt: int)

  type Cache = map<string, Entry>

  type Database = (string, int) -> int

  /** What the cache answers at `now`; an entry no longer counts at the instant it expires. */
  function Lookup(c: Cache, user: string, now: int): Option<int> {
    if user in c && c[user].expiresAt > now then Some(c[user].validFrom) else None
  }

  function Store(c: Cache, user: string, validFrom: int, now: int): Cache {
    c[user := Entry(validFrom, now + CACHE_TTL)]
  }

  /** A token without an issue time is never rejected. */
  predicate Revoked(issuedAt: int, validFrom: int) {
    issuedAt > 0 && issuedAt * SECOND < validFrom
  }

  class SessionTokenValidator {
    var cache: map<string, Entry>
    var hasRevoker: bool

    constructor ()
      ensures cache == map[] && !hasRevoker
    {
      cache, hasRevoker := map[], false;
    }

    method SetRevocationChecker()
      modifies this
      ensures cache == map[] && hasRevoker
    {
      hasRevoker := true;
      cache := map[];
    }

    method InvalidateRevocationCache(user: string)
      modifies this
      ensures cache == old(cache) - {user} && hasRevoker == old(hasRevoker)
    {
      cache := cache - {user};
    }

    /** The region under the read lock, and the test that follows it. */
    method Peek(user: string, now: int) returns (validFrom: Option<int>)
      ensures validFrom == Lookup(cache, user, now)
    {
      if user in cache && cache[user].expiresAt > now {
        return Some(cache[user].validFrom);
      }
      return None;
    }

    /** The region under the write lock. */
    method Install(user: string, validFrom: int, now: int)
      modifies this
      ensures cache == Store(old(cache), user, validFrom, now) && hasRevoker == old(hasRevoker)
    {
      cache := cache[user := Entry(validFrom, now + CACHE_TTL)];
    }

    /**
     * A whole consultation that nothing interrupts. `lookup` is what the database answers if it is asked,
     * None on failure; the verdict is then left open. The clock is read for the test and again on storing.
     */
    method SessionsValidFrom(user: string, now: int, lookup: Option<int>, later: int) returns (validFrom: Option<int>)
      modifies this
      ensures !hasRevoker || user == "" ==> validFrom == None && cache == old(cache)
      ensures hasRevoker && user != "" ==>
        match Lookup(old(cache), user, now)
        case Some(v) => validFrom == Some(v) && cache == old(cache)
        case None =>
          validFrom == lookup
          && cache == if lookup.Some? then Store(old(cache), user, lookup.value, later) else old(cache)
      ensures hasRevoker == old(hasRevoker)
    {
      if !hasRevoker || user == "" {
        return None;
      }
      validFrom := Peek(user, now);
      if validFrom.Some? {
        return;
      }
      if lookup.None? {
        return None;
      }
      Install(user, lookup.value, later);
      return lookup;
    }

    /** Accepts a token whose signature has been checked, unless it was issued before the user's sessions were revoked. */
    method ValidateToken(user: string, issuedAt: int, now: int, lookup: Option<int>, later: int) returns (accepted: bool)
      modifies this
      ensures !accepted ==>
        hasRevoker && user != "" && exists v :: Revoked(issuedAt, v) && (Lookup(old(cache), user, now) == Some(v) || lookup == Some(v))
      ensures hasRevoker && user != "" && Lookup(old(cache), user, now).Some? ==>
        accepted == !Revoked(issuedAt, Lookup(old(cache), user, now).value)
      ensures hasRevoker && user != "" && Lookup(old(cache), user, now).None? && lookup.Some? ==>
        accepted == !Revoked(issuedAt, lookup.value)
    {
      var validFrom := SessionsValidFrom(user, now, lookup, later);
      if validFrom.Some? {
        if issuedAt > 0 && issuedAt * SECOND < validFrom.value {
          assert Revoked(issuedAt, validFrom.value);
          return false;
        }
      }
      return true;
    }
  }

  // ---- Concurrent lookups ----

  /** A lookup that missed the cache at `begun`; once it has asked the database it holds the answer. */
  datatype Pending = Asking(user: string, begun: int) | Holding(user: string, begun: int, validFrom: int, readAt: int)

  /** A consultation of the cache begun at `begun` that answered `validFrom` at `at`. */
  datatype Answer = Answer(user: string, begun: int, validFrom: int, at: int)

  datatype World = World(cache: Cache, pending: map<nat, Pending>, answers: seq<Answer>)

  datatype Event =
    | Begin(id: nat, user: string, now: int)
    | Ask(id: nat, now: int)
    | Install(id: nat, now: int)
    | Invalidate(user: string, now: int)

  const START := World(map[], map[], [])

  /** `slowest` is the longest time from asking the database to storing its answer. */
  predicate Enabled(slowest: int, w: World, e: Event) {
    match e
    case Begin(id, _, _) => id !in w.pending
    case Ask(id, _) => id in w.pending && w.pending[id].Asking?
    case Install(id, now) => id in w.pending && w.pending[id].Holding? && now <= w.pending[id].readAt + slowest
    case Invalidate(_, _) => true
  }

  function Step(db: Database, w: World, e: Event): World
    requires e.Ask? ==> e.id in w.pending && w.pending[e.id].Asking?
    requires e.Install? ==> e.id in w.pending && w.pending[e.id].Holding?
  {
    match e
    case Begin(id, user, now) =>
      (match Lookup(w.cache, user, now)
       case Some(v) => w.(answers := w.answers + [Answer(user, now, v, now)])
       case None => w.(pending := w.pending[id := Asking(user, now)]))
    case Ask(id, now) =>
      var p := w.pending[id];
      w.(pending := w.pending[id := Holding(p.user, p.begun, db(p.user, now), now)])
    case Install(id, now) =>
      var p := w.pending[id];
      World(Store(w.cache, p.user, p.validFrom, now), w.pending - {id},
            w.answers + [Answer(p.user, p.begun, p.validFrom, now)])
    case Invalidate(user, _) => w.(cache := w.cache - {user})
  }

  predicate Legal(db: Database, slowest: int, w: World, es: seq<Event>)
    decreases |es|
  {
    es == [] || (Enabled(slowest, w, es[0]) && Legal(db, slowest, Step(db, w, es[0]), es[1..]))
  }

  function Run(db: Database, slowest: int, w: World, es: seq<Event>): World
    requires Legal(db, slowest, w, es)
    decreases |es|
  {
    if es == [] then w else Run(db, slowest, Step(db, w, es[0]), es[1..])
  }

  predicate Clocked(t: int, es: seq<Event>)
    decreases |es|
  {
    es == [] || (t <= es[0].now && Clocked(es[0].now, es[1..]))
  }

  lemma ClockedCons(t: int, e: Event, es: seq<Event>)
    requires t <= e.now && Clocked(e.now, es)
    ensures Clocked(t, [e] + es)
  {
    assert ([e] + es)[1..] == es;
  }

  function FinalReading(t: int, es: seq<Event>): int
    decreases |es|
  {
    if es == [] then t else FinalReading(es[0].now, es[1..])
  }

  /** Revocations only ever move the accepted instant forward. */
  ghost predicate Monotone(db: Database) {
    forall user, s, t | s <= t :: db(user, s) <= db(user, t)
  }

  /** `v` is what the database said about `user` at some time from `from` to `to`. */
  ghost predicate TrueBetween(db: Database, user: string, v: int, from: int, to: int) {
    exists t | from <= t <= to :: db(user, t) == v
  }

  ghost predicate PendingInv(db: Database, p: Pending, now: int) {
    p.begun <= now && (p.Holding? ==> p.begun <= p.readAt <= now && p.validFrom == db(p.user, p.readAt))
  }

  /** How stale an answer may be. */
  ghost predicate AnswerInv(db: Database, slowest: int, a: Answer, now: int) {
    a.begun <= a.at <= now && TrueBetween(db, a.user, a.validFrom, a.begun - CACHE_TTL - slowest + 1, a.at)
  }

  ghost predicate Inv(db: Database, slowest: int, w: World, now: int) {
    && (forall user | user in w.cache ::
      TrueBetween(db, user, w.cache[user].validFrom, w.cache[user].expiresAt - CACHE_TTL - slowest, now))
    && (forall id | id in w.pending :: PendingInv(db, w.pending[id], now))
    && (forall a | a in w.answers :: AnswerInv(db, slowest, a, now))
  }

  lemma Widen(db: Database, user: string, v: int, from: int, to: int, from': int, to': int)
    requires TrueBetween(db, user, v, from, to) && from' <= from && to <= to'
    ensures TrueBetween(db, user, v, from', to')
  {
  }

  lemma InvAges(db: Database, slowest: int, w: World, now: int, later: int)
    requires Inv(db, slowest, w, now) && now <= later
    ensures Inv(db, slowest, w, later)
  {
    forall user | user in w.cache
      ensures TrueBetween(db, user, w.cache[user].validFrom, w.cache[user].expiresAt - CACHE_TTL - slowest, later)
    {
      var from := w.cache[user].expiresAt - CACHE_TTL - slowest;
      Widen(db, user, w.cache[user].validFrom, from, now, from, later);
    }
  }

  lemma StepKeepsInv(db: Database, slowest: int, w: World, e: Event)
    requires slowest >= 0 && Inv(db, slowest, w, e.now) && Enabled(slowest, w, e)
    ensures Inv(db, slowest, Step(db, w, e), e.now)
  {
    match e
    case Begin(id, user, now) =>
      if Lookup(w.cache, user, now).Some? {
        Widen(db, user, w.cache[user].validFrom, w.cache[user].expiresAt - CACHE_TTL - slowest, now,
              now - CACHE_TTL - slowest + 1, now);
      }
    case Ask(id, now) =>
    case Install(id, now) =>
      var p := w.pending[id];
      assert TrueBetween(db, p.user, p.validFrom, p.readAt, now);
      Widen(db, p.user, p.validFrom, p.readAt, now, now - slowest, now);
      Widen(db, p.user, p.validFrom, p.readAt, now, p.begun - CACHE_TTL - slowest + 1, now);
    case Invalidate(_, _) =>
  }

  lemma {:induction false} RunKeepsInv(db: Database, slowest: int, w: World, es: seq<Event>, from: int)
    requires slowest >= 0 && Inv(db, slowest, w, from)
    requires Legal(db, slowest, w, es) && Clocked(from, es)
    ensures Inv(db, slowest, Run(db, slowest, w, es), FinalReading(from, es))
    decreases |es|
  {
    if es != [] {
      InvAges(db, slowest, w, from, es[0].now);
      StepKeepsInv(db, slowest, w, es[0]);
      RunKeepsInv(db, slowest, Step(db, w, es[0]), es[1..], es[0].now);
    }
  }

  /**
   * Whatever lookups overwrite each other or race an invalidation, a consultation begun at or after
   * `revokedAt + 30 s + slowest`, or one clock tick before, rejects every token issued in a second before the revocation.
   */
  lemma RevocationTakesEffect(db: Database, slowest: int, es: seq<Event>, from: int, a: Answer, revokedAt: int, issuedAt: int)
    requires slowest >= 0 && Monotone(db) && Legal(db, slowest, START, es) && Clocked(from, es)
    requires a in Run(db, slowest, START, es).answers
    requires db(a.user, revokedAt) >= revokedAt
    requires a.begun >= revokedAt + 30_000_000_000 + slowest - 1
    requires 0 < issuedAt && issuedAt * 1_000_000_000 < revokedAt
    ensures Revoked(issuedAt, a.validFrom)
  {
    RunKeepsInv(db, slowest, START, es, from);
  }

  /** A token without an issue time, or issued in a second at or after the user's current valid-from, is never rejected as revoked. */
  lemma FreshTokensPass(db: Database, slowest: int, es: seq<Event>, from: int, a: Answer, issuedAt: int)
    requires slowest >= 0 && Monotone(db) && Legal(db, slowest, START, es) && Clocked(from, es)
    requires a in Run(db, slowest, START, es).answers
    requires issuedAt <= 0 || issuedAt * 1_000_000_000 >= db(a.user, a.at)
    ensures !Revoked(issuedAt, a.validFrom)
  {
    RunKeepsInv(db, slowest, START, es, from);
  }

  // ---- An invalidation ----

  /** All that is known of `user` the database has said since `since`. */
  ghost predicate KnownSince(db: Database, w: World, user: string, since: int, now: int) {
    && (user in w.cache ==> TrueBetween(db, user, w.cache[user].validFrom, since, now))
    && (forall id | id in w.pending && w.pending[id].Holding? && w.pending[id].user == user ::
          since <= w.pending[id].readAt <= now && w.pending[id].validFrom == db(user, w.pending[id].readAt))
  }

  lemma StepKnowsSince(db: Database, w: World, e: Event, user: string, since: int, from: int)
    requires KnownSince(db, w, user, since, from) && since <= from <= e.now
    requires e.Ask? ==> e.id in w.pending && w.pending[e.id].Asking?
    requires e.Install? ==> e.id in w.pending && w.pending[e.id].Holding?
    ensures
      var w' := Step(db, w, e);
      && KnownSince(db, w', user, since, e.now)
      && w.answers <= w'.answers
      && forall i | |w.answers| <= i < |w'.answers| && w'.answers[i].user == user ::
           TrueBetween(db, user, w'.answers[i].validFrom, since, w'.answers[i].at)
  {
    if user in w.cache {
      Widen(db, user, w.cache[user].validFrom, since, from, since, e.now);
    }
    if e.Install? && w.pending[e.id].user == user {
      assert TrueBetween(db, user, w.pending[e.id].validFrom, since, e.now);
    }
  }

  lemma {:induction false} RunKnowsSince(db: Database, slowest: int, w: World, es: seq<Event>, user: string, since: int, from: int)
    requires KnownSince(db, w, user, since, from) && since <= from && Legal(db, slowest, w, es) && Clocked(from, es)
    ensures
      var w' := Run(db, slowest, w, es);
      && w.answers <= w'.answers
      && forall i | |w.answers| <= i < |w'.answers| && w'.answers[i].user == user ::
           TrueBetween(db, user, w'.answers[i].validFrom, since, w'.answers[i].at)
    decreases |es|
  {
    if es != [] {
      StepKnowsSince(db, w, es[0], user, since, from);
      RunKnowsSince(db, slowest, Step(db, w, es[0]), es[1..], user, since, es[0].now);
    }
  }

  /**
   * When no lookup of a user holds an answer yet, an invalidation takes effect at once: every later consultation
   * gives what the database has said since, so a token issued in a second before the revocation is rejected.
   */
  lemma InvalidationIsImmediate(db: Database, slowest: int, w: World, user: string, at: int, es: seq<Event>, i: nat, issuedAt: int)
    requires Monotone(db) && db(user, at) >= at
    requires forall id | id in w.pending && w.pending[id].Holding? :: w.pending[id].user != user
    requires Legal(db, slowest, Step(db, w, Invalidate(user, at)), es) && Clocked(at, es)
    requires
      var answers := Run(db, slowest, Step(db, w, Invalidate(user, at)), es).answers;
      |w.answers| <= i < |answers| && answers[i].user == user
    requires 0 < issuedAt && issuedAt * 1_000_000_000 < at
    ensures Revoked(issuedAt, Run(db, slowest, Step(db, w, Invalidate(user, at)), es).answers[i].validFrom)
  {
    RunKnowsSince(db, slowest, Step(db, w, Invalidate(user, at)), es, user, at, at);
  }

  /**
   * No earlier bound holds: a lookup that reads just before a revocation and stores `slowest` later lets
   * a consultation one more tick before still see the old instant, 0.
   */
  lemma StalenessIsReached(user: string, revokedAt: int, slowest: int) returns (db: Database, es: seq<Event>)
    requires slowest >= 0 && revokedAt > 0
    ensures Monotone(db) && db(user, revokedAt) == revokedAt
    ensures Legal(db, slowest, START, es) && Clocked(revokedAt - 1, es)
    ensures Answer(user, revokedAt + 30_000_000_000 + slowest - 2, 0, revokedAt + 30_000_000_000 + slowest - 2)
         in Run(db, slowest, START, es).answers
  {
    db := (u: string, t: int) => if t < revokedAt then 0 else revokedAt;
    var t0, t1, t2 := revokedAt - 1, revokedAt - 1 + slowest, revokedAt + CACHE_TTL + slowest - 2;
    var e0, e1, e2, e3 := Begin(0, user, t0), Ask(0, t0), Install(0, t1), Begin(1, user, t2);
    es := [e0, e1, e2, e3];
    assert es[1..] == [e1, e2, e3] && [e1, e2, e3][1..] == [e2, e3] && [e2, e3][1..] == [e3] && [e3][1..] == [];
    var w1 := Step(db, START, e0);
    var w2 := Step(db, w1, e1);
    var w3 := Step(db, w2, e2);
    ClockedCons(t1, e3, []);
    ClockedCons(t0, e2, [e3]);
    ClockedCons(t0, e1, [e2] + [e3]);
    ClockedCons(t0, e0, [e1] + ([e2] + [e3]));
    assert [e3] + [] == [e3] && es == [e0] + ([e1] + ([e2] + [e3]));
    assert w1.pending == map[0 := Asking(user, t0)] && w2.pending == map[0 := Holding(user, t0, 0, t0)];
    assert w3.pending == map[] && w3.cache == map[user := Entry(0, t1 + CACHE_TTL)];
    assert Legal(db, slowest, w3, [e3]);
    assert Legal(db, slowest, w2, [e2, e3]);
    assert Legal(db, slowest, w1, [e1, e2, e3]);
    assert Run(db, slowest, w3, [e3]) == Step(db, w3, e3);
    assert Run(db, slowest, w2, [e2, e3]) == Run(db, slowest, w3, [e3]);
    assert Run(db, slowest, w1, [e1, e2, e3]) == Run(db, slowest, w2, [e2, e3]);
    var a := Answer(user, t2, 0, t2);
    assert Step(db, w3, e3).answers == w3.answers + [a];
    assert (w3.answers + [a])[|w3.answers|] == a;
  }

  /**
   * Issue times are whole seconds, so a token issued after a revocation is rejected as well exactly when
   * it was issued in the same second and the revocation did not fall on the second's first instant.
   */
  lemma SameSecondTokensAreRejected(revokedAt: int, issued: int)
    requires SECOND <= revokedAt <= issued
    ensures Revoked(issued / SECOND, revokedAt) <==> issued / SECOND == revokedAt / SECOND && revokedAt % SECOND != 0
  {
    var i, r := issued / SECOND, revokedAt / SECOND;
    assert issued == i * SECOND + issued % SECOND && revokedAt == r * SECOND + revokedAt % SECOND;
    assert r <= i;
  }
}
