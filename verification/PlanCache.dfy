// The one-minute cache of plan limits in the rate-limit middleware.
//
// The account database is a pair of functions of time: which tier an organisation's plan grants, and
// which organisation a dashboard user belongs to. An "oidc:" key is resolved to an organisation whose
// tier is itself looked up through the cache, so an entry can be built from another cached entry. Each
// lookup reads and writes the cache in separate steps, and other lookups can come in between.
// Times are integers in nanoseconds.

module PlanCaches {
  import opened Options
  import opened Units
  import Replicas

  datatype Tier = Tier(limit: int, planCode: string)

  const FREE := Tier(10, "free")

  datatype Entry = Entry(tier: Tier, expiresAt: int)

  type Cache = map<string, Entry>

  const DEFAULT_ORG := "00000000-0000-0000-0000-000000000001"
  const OIDC := "oidc:"

  /** Keys that are always on the free tier, without any lookup. */
  predicate AlwaysFree(key: string) {
    key == "" || key == DEFAULT_ORG || "ip:" <= key || key == "anonymous"
  }

  function Lookup(c: Cache, key: string, now: int): Option<Tier> {
    if key in c && c[key].expiresAt > now then Some(c[key].tier) else None
  }

  function Store(c: Cache, key: string, tier: Tier, asked: int): Cache {
    c[key := Entry(tier, asked + MINUTE)]
  }

  /** What a plan row grants; a missing row, limit or code falls back to the free tier. */
  function Granted(plan: Option<Tier>): (tier: Tier)
    ensures tier.limit >= 1 && tier.planCode != ""
    ensures plan.None? ==> tier == Tier(10, "free")
    ensures plan.Some? ==> tier.limit == plan.value.limit || (plan.value.limit < 1 && tier.limit == 10)
    ensures plan.Some? ==> tier.planCode == plan.value.planCode || (plan.value.planCode == "" && tier.planCode == "free")
  {
    if plan.None? then FREE
    else
      Tier(if plan.value.limit > 0 then plan.value.limit else FREE.limit,
           if plan.value.planCode != "" then plan.value.planCode else FREE.planCode)
  }

  class RateLimitMiddleware {
    var replicas: int
    var cache: map<string, Entry>

    constructor ()
      ensures replicas == 1 && cache == map[]
    {
      replicas, cache := 1, map[];
    }

    /** Cached limits were computed for the old divisor, so they are dropped. */
    method SetReplicaCount(n: int)
      modifies this
      ensures replicas == (if n < 1 then 1 else n) && cache == map[]
    {
      replicas := if n < 1 then 1 else n;
      cache := map[];
    }

    method PerReplicaLimit(limit: int) returns (share: int)
      ensures share == Replicas.PerReplicaLimit(limit, replicas)
    {
      if replicas <= 1 {
        return limit;
      }
      var divided := if limit >= 0 then limit / replicas else -(-limit / replicas);
      if divided >= 1 {
        return divided;
      }
      return 1;
    }

    /** The region under the read lock, and the test that follows it. */
    method Peek(key: string, now: int) returns (tier: Option<Tier>)
      ensures tier == Lookup(cache, key, now)
    {
      if key in cache && cache[key].expiresAt > now {
        return Some(cache[key].tier);
      }
      return None;
    }

    /** The region under the write lock; the entry's minute counts from when the lookup began. */
    method Install(key: string, tier: Tier, asked: int)
      modifies this
      ensures cache == Store(old(cache), key, tier, asked) && replicas == old(replicas)
    {
      cache := cache[key := Entry(tier, asked + MINUTE)];
    }

    /**
     * A whole lookup of an organisation's own key that nothing interrupts. `plan` is what the database
     * answers if it is asked, None on failure.
     */
    method GetOrgTier(key: string, now: int, plan: Option<Tier>) returns (tier: Tier)
      requires !(OIDC <= key)
      modifies this
      ensures AlwaysFree(key) ==> tier == FREE && cache == old(cache)
      ensures !AlwaysFree(key) && Lookup(old(cache), key, now).Some? ==>
        tier == Lookup(old(cache), key, now).value && cache == old(cache)
      ensures !AlwaysFree(key) && Lookup(old(cache), key, now).None? ==>
        tier == Granted(plan) && cache == Store(old(cache), key, tier, now)
      ensures replicas == old(replicas)
    {
      if key == "" || key == DEFAULT_ORG {
        return FREE;
      }
      if "ip:" <= key || key == "anonymous" {
        return FREE;
      }
      var cached := Peek(key, now);
      if cached.Some? {
        return cached.value;
      }
      tier := FREE;
      if plan.Some? {
        if plan.value.limit > 0 {
          tier := tier.(limit := plan.value.limit);
        }
        if plan.value.planCode != "" {
          tier := tier.(planCode := plan.value.planCode);
        }
      }
      Install(key, tier, now);
    }

    /**
     * A whole lookup of a dashboard user's key: `org` is the user's organisation, None when there is none,
     * and the inner lookup reads the clock again at `inner`.
     */
    method GetUserTier(key: string, now: int, org: Option<string>, inner: int, plan: Option<Tier>) returns (tier: Tier)
      requires OIDC <= key && (org.Some? ==> !(OIDC <= org.value))
      modifies this
      ensures Lookup(old(cache), key, now).Some? ==> tier == Lookup(old(cache), key, now).value && cache == old(cache)
      ensures Lookup(old(cache), key, now).None? && org.None? ==> tier == FREE && cache == old(cache)
      ensures Lookup(old(cache), key, now).None? && org.Some? ==>
        var hit := Lookup(old(cache), org.value, inner);
        && tier == (if AlwaysFree(org.value) then FREE else if hit.Some? then hit.value else Granted(plan))
        && cache == Store(if AlwaysFree(org.value) || hit.Some? then old(cache) else Store(old(cache), org.value, tier, inner),
                          key, tier, now)
      ensures replicas == old(replicas)
    {
      var cached := Peek(key, now);
      if cached.Some? {
        return cached.value;
      }
      if org.None? {
        return FREE;
      }
      tier := GetOrgTier(org.value, inner, plan);
      Install(key, tier, now);
    }
  }

  // ---- Concurrent lookups ----

  /** `plan` and `org` are the database as a query at a given time sees it. */
  datatype Database = Database(plan: (string, int) -> Option<Tier>, org: (string, int) -> Option<string>)

  /** Organisation names never look like a dashboard user's key, so a lookup nests at most once. */
  ghost predicate PlainNames(db: Database) {
    forall key, t :: db.org(key, t).Some? ==> !(OIDC <= db.org(key, t).value)
  }

  /** The tier of an organisation at a time, as an uncached lookup would give it. */
  function TierAt(db: Database, org: string, t: int): Tier {
    if AlwaysFree(org) then FREE else Granted(db.plan(org, t))
  }

  /** A dashboard user's key whose lookup waits for the tier of its organisation. */
  datatype Outer = Outer(key: string, asked: int)

  /**
   * - Resolving: asking for the organisation of a user's key
   * - Nested: about to look up that organisation
   * - Fetching: asking for the plan of `org`, which missed the cache at `asked`
   * - StoringOrg, StoringUser: about to write an entry
   */
  datatype Pending =
    | Resolving(outer: Outer)
    | Nested(outer: Outer, org: string)
    | Fetching(org: string, asked: int, wanted: Option<Outer>)
    | StoringOrg(org: string, asked: int, tier: Tier, wanted: Option<Outer>)
    | StoringUser(outer: Outer, tier: Tier)

  /** A lookup of `key` begun at `asked` that gave `tier` at `at`. */
  datatype Answer = Answer(key: string, asked: int, tier: Tier, at: int)

  datatype World = World(cache: Cache, pending: map<nat, Pending>, answers: seq<Answer>)

  /** `Advance` takes a pending lookup one step further. */
  datatype Event = Begin(id: nat, key: string, now: int) | Advance(id: nat, now: int) | Clear(now: int)

  const START := World(map[], map[], [])

  predicate Enabled(w: World, e: Event) {
    match e
    case Begin(id, _, _) => id !in w.pending
    case Advance(id, _) => id in w.pending
    case Clear(_) => true
  }

  function Finish(w: World, id: nat, a: Answer): World {
    w.(pending := w.pending - {id}, answers := w.answers + [a])
  }

  /** A tier of an organisation is known: it answers the lookup, or goes on to the user's entry. */
  function Deliver(w: World, id: nat, org: string, asked: int, tier: Tier, wanted: Option<Outer>, now: int): World {
    match wanted
    case None => Finish(w, id, Answer(org, asked, tier, now))
    case Some(outer) => w.(pending := w.pending[id := StoringUser(outer, tier)])
  }

  /** The start of a lookup of `org`: the constant keys, the cache, and then the database. */
  function Seek(w: World, id: nat, org: string, now: int, wanted: Option<Outer>): World {
    if AlwaysFree(org) then Deliver(w, id, org, now, FREE, wanted, now)
    else
      match Lookup(w.cache, org, now)
      case Some(tier) => Deliver(w, id, org, now, tier, wanted, now)
      case None => w.(pending := w.pending[id := Fetching(org, now, wanted)])
  }

  function Step(db: Database, w: World, e: Event): World
    requires Enabled(w, e)
  {
    match e
    case Begin(id, key, now) =>
      if !AlwaysFree(key) && Lookup(w.cache, key, now).None? && OIDC <= key
      then w.(pending := w.pending[id := Resolving(Outer(key, now))])
      else Seek(w, id, key, now, None)
    case Advance(id, now) =>
      (match w.pending[id]
       case Resolving(outer) =>
         (match db.org(outer.key, now)
          case None => Finish(w, id, Answer(outer.key, outer.asked, FREE, now))
          case Some(org) => w.(pending := w.pending[id := Nested(outer, org)]))
       case Nested(outer, org) => Seek(w, id, org, now, Some(outer))
       case Fetching(org, asked, wanted) =>
         w.(pending := w.pending[id := StoringOrg(org, asked, Granted(db.plan(org, now)), wanted)])
       case StoringOrg(org, asked, tier, wanted) =>
         Deliver(w.(cache := Store(w.cache, org, tier, asked)), id, org, asked, tier, wanted, now)
       case StoringUser(outer, tier) =>
         Finish(w.(cache := Store(w.cache, outer.key, tier, outer.asked)), id, Answer(outer.key, outer.asked, tier, now)))
    case Clear(_) => w.(cache := map[])
  }

  predicate Legal(db: Database, w: World, es: seq<Event>)
    decreases |es|
  {
    es == [] || (Enabled(w, es[0]) && Legal(db, Step(db, w, es[0]), es[1..]))
  }

  function Run(db: Database, w: World, es: seq<Event>): World
    requires Legal(db, w, es)
    decreases |es|
  {
    if es == [] then w else Run(db, Step(db, w, es[0]), es[1..])
  }

  predicate Clocked(t: int, es: seq<Event>)
    decreases |es|
  {
    es == [] || (t <= es[0].now && Clocked(es[0].now, es[1..]))
  }

  function FinalReading(t: int, es: seq<Event>): int
    decreases |es|
  {
    if es == [] then t else FinalReading(es[0].now, es[1..])
  }

  /**
   * Without anything cached, a lookup is answered at once, with the free tier, exactly for a missing key, the
   * default organisation, an address and an anonymous caller; any other asks the database.
   */
  lemma AnsweredAtOnceExactly(db: Database, w: World, id: nat, key: string, now: int)
    requires Enabled(w, Begin(id, key, now)) && key !in w.cache
    ensures
      var next := Step(db, w, Begin(id, key, now));
      var free := key == "" || key == "00000000-0000-0000-0000-000000000001" || "ip:" <= key || key == "anonymous";
      && (id !in next.pending <==> free)
      && (free ==> next == w.(answers := w.answers + [Answer(key, now, Tier(10, "free"), now)]))
      && (!free ==>
            && next.answers == w.answers
            && next.pending[id] == if "oidc:" <= key then Resolving(Outer(key, now)) else Fetching(key, now, None))
  {
    if OIDC <= key {
      UserKeysAreNotFree(key);
    } else if AlwaysFree(key) {
      assert w.pending - {id} == w.pending;
    }
  }

  /** After the cache has been cleared nobody is answered from it: every key that is not always free asks the database. */
  lemma ClearedCacheAsks(db: Database, w: World, at: int, id: nat, key: string, now: int)
    requires Enabled(w, Begin(id, key, now))
    ensures
      var cleared := Step(db, w, Clear(at));
      && cleared.pending == w.pending && cleared.answers == w.answers
      && (id in Step(db, cleared, Begin(id, key, now)).pending <==>
            key != "" && key != "00000000-0000-0000-0000-000000000001" && !("ip:" <= key) && key != "anonymous")
  {
    AnsweredAtOnceExactly(db, Step(db, w, Clear(at)), id, key, now);
  }

  // ---- How stale an answer can be ----

  /** The tier was the organisation's at some time after `from` and up to `to`. */
  ghost predicate TrueAfter(db: Database, org: string, tier: Tier, from: int, to: int) {
    exists t | from < t <= to :: TierAt(db, org, t) == tier
  }

  /** The same for the organisation that the user's key stood for at some time after `linkedFrom`. */
  ghost predicate TrueForUser(db: Database, key: string, tier: Tier, linkedFrom: int, from: int, to: int) {
    exists s, org | linkedFrom < s <= to && db.org(key, s) == Some(org) :: TrueAfter(db, org, tier, from, to)
  }

  ghost predicate NoOrgAfter(db: Database, key: string, from: int, to: int) {
    exists s | from < s <= to :: db.org(key, s) == None
  }

  ghost predicate EntryInv(db: Database, key: string, e: Entry, now: int) {
    if OIDC <= key
    then TrueForUser(db, key, e.tier, e.expiresAt - MINUTE - 1, e.expiresAt - 2 * MINUTE - 1, now)
    else TrueAfter(db, key, e.tier, e.expiresAt - MINUTE - 1, now)
  }

  /** The organisation a nested lookup is for is the one its user's key stood for since the lookup began. */
  ghost predicate Linked(db: Database, outer: Outer, org: string, now: int) {
    OIDC <= outer.key && exists s | outer.asked <= s <= now :: db.org(outer.key, s) == Some(org)
  }

  ghost predicate WantedInv(db: Database, org: string, asked: int, wanted: Option<Outer>, now: int) {
    asked <= now && !(OIDC <= org) &&
    (wanted.Some? ==> wanted.value.asked <= asked && Linked(db, wanted.value, org, now))
  }

  ghost predicate PendingInv(db: Database, p: Pending, now: int) {
    match p
    case Resolving(outer) => OIDC <= outer.key && outer.asked <= now
    case Nested(outer, org) => outer.asked <= now && Linked(db, outer, org, now) && !(OIDC <= org)
    case Fetching(org, asked, wanted) => WantedInv(db, org, asked, wanted, now) && !AlwaysFree(org)
    case StoringOrg(org, asked, tier, wanted) =>
      WantedInv(db, org, asked, wanted, now) && TrueAfter(db, org, tier, asked - 1, now)
    case StoringUser(outer, tier) =>
      OIDC <= outer.key && outer.asked <= now
      && TrueForUser(db, outer.key, tier, outer.asked - 1, outer.asked - MINUTE - 1, now)
  }

  /** One minute for an organisation's key, two for a user's. */
  ghost predicate AnswerInv(db: Database, a: Answer) {
    && a.asked <= a.at
    && if OIDC <= a.key
       then TrueForUser(db, a.key, a.tier, a.asked - MINUTE, a.asked - 2 * MINUTE, a.at)
            || (a.tier == FREE && NoOrgAfter(db, a.key, a.asked - 1, a.at))
       else TrueAfter(db, a.key, a.tier, a.asked - MINUTE, a.at)
  }

  ghost predicate Inv(db: Database, w: World, now: int) {
    && (forall key | key in w.cache :: EntryInv(db, key, w.cache[key], now))
    && (forall id | id in w.pending :: PendingInv(db, w.pending[id], now))
    && (forall a | a in w.answers :: AnswerInv(db, a))
  }

  lemma WidenTrue(db: Database, org: string, tier: Tier, from: int, to: int, from': int, to': int)
    requires TrueAfter(db, org, tier, from, to) && from' <= from && to <= to'
    ensures TrueAfter(db, org, tier, from', to')
  {
  }

  lemma WidenUser(db: Database, key: string, tier: Tier, link: int, from: int, to: int, link': int, from': int, to': int)
    requires TrueForUser(db, key, tier, link, from, to) && link' <= link && from' <= from && to <= to'
    ensures TrueForUser(db, key, tier, link', from', to')
  {
    var s, org :| link < s <= to && db.org(key, s) == Some(org) && TrueAfter(db, org, tier, from, to);
    WidenTrue(db, org, tier, from, to, from', to');
  }

  lemma LinkMakesTrue(db: Database, outer: Outer, org: string, tier: Tier, from: int, now: int)
    requires Linked(db, outer, org, now) && TrueAfter(db, org, tier, from, now)
    ensures TrueForUser(db, outer.key, tier, outer.asked - 1, from, now)
  {
    var s :| outer.asked <= s <= now && db.org(outer.key, s) == Some(org);
    assert outer.asked - 1 < s <= now;
  }

  lemma EntryAges(db: Database, key: string, e: Entry, now: int, later: int)
    requires EntryInv(db, key, e, now) && now <= later
    ensures EntryInv(db, key, e, later)
  {
    if OIDC <= key {
      WidenUser(db, key, e.tier, e.expiresAt - MINUTE - 1, e.expiresAt - 2 * MINUTE - 1, now,
                e.expiresAt - MINUTE - 1, e.expiresAt - 2 * MINUTE - 1, later);
    }
  }

  lemma PendingAges(db: Database, p: Pending, now: int, later: int)
    requires PendingInv(db, p, now) && now <= later
    ensures PendingInv(db, p, later)
  {
    if p.StoringUser? {
      WidenUser(db, p.outer.key, p.tier, p.outer.asked - 1, p.outer.asked - MINUTE - 1, now,
                p.outer.asked - 1, p.outer.asked - MINUTE - 1, later);
    }
  }

  lemma InvAges(db: Database, w: World, now: int, later: int)
    requires Inv(db, w, now) && now <= later
    ensures Inv(db, w, later)
  {
    forall key | key in w.cache ensures EntryInv(db, key, w.cache[key], later) {
      EntryAges(db, key, w.cache[key], now, later);
    }
    forall id | id in w.pending ensures PendingInv(db, w.pending[id], later) {
      PendingAges(db, w.pending[id], now, later);
    }
  }

  /** A tier that was true within the minute before `asked` can answer the lookup or go on to the user's entry. */
  lemma DeliverKeepsInv(db: Database, w: World, id: nat, org: string, asked: int, tier: Tier, wanted: Option<Outer>, now: int)
    requires Inv(db, w, now) && WantedInv(db, org, asked, wanted, now)
    requires TrueAfter(db, org, tier, asked - MINUTE, now)
    ensures Inv(db, Deliver(w, id, org, asked, tier, wanted, now), now)
  {
    match wanted
    case None =>
      assert AnswerInv(db, Answer(org, asked, tier, now));
    case Some(outer) =>
      LinkMakesTrue(db, outer, org, tier, asked - MINUTE, now);
      WidenUser(db, outer.key, tier, outer.asked - 1, asked - MINUTE, now, outer.asked - 1, outer.asked - MINUTE - 1, now);
  }

  lemma SeekKeepsInv(db: Database, w: World, id: nat, org: string, wanted: Option<Outer>, now: int)
    requires Inv(db, w, now) && WantedInv(db, org, now, wanted, now)
    ensures Inv(db, Seek(w, id, org, now, wanted), now)
  {
    if AlwaysFree(org) {
      assert TierAt(db, org, now) == FREE;
      DeliverKeepsInv(db, w, id, org, now, FREE, wanted, now);
    } else if Lookup(w.cache, org, now).Some? {
      var e := w.cache[org];
      WidenTrue(db, org, e.tier, e.expiresAt - MINUTE - 1, now, now - MINUTE, now);
      DeliverKeepsInv(db, w, id, org, now, e.tier, wanted, now);
    }
  }

  lemma UserKeysAreNotFree(key: string)
    requires OIDC <= key
    ensures !AlwaysFree(key)
  {
    assert key[0] == 'o' && DEFAULT_ORG[0] == '0' && "anonymous"[0] == 'a';
  }

  lemma BeginKeepsInv(db: Database, w: World, e: Event)
    requires Inv(db, w, e.now) && Enabled(w, e) && e.Begin?
    ensures Inv(db, Step(db, w, e), e.now)
  {
    var Begin(id, key, now) := e;
    if !(OIDC <= key) {
      SeekKeepsInv(db, w, id, key, None, now);
    } else {
      UserKeysAreNotFree(key);
      if Lookup(w.cache, key, now).Some? {
        var entry := w.cache[key];
        WidenUser(db, key, entry.tier, entry.expiresAt - MINUTE - 1, entry.expiresAt - 2 * MINUTE - 1, now,
                  now - MINUTE, now - 2 * MINUTE, now);
        assert AnswerInv(db, Answer(key, now, entry.tier, now));
      }
    }
  }

  lemma ResolvingKeepsInv(db: Database, w: World, e: Event)
    requires PlainNames(db) && Inv(db, w, e.now) && Enabled(w, e) && e.Advance? && w.pending[e.id].Resolving?
    ensures Inv(db, Step(db, w, e), e.now)
  {
    var outer := w.pending[e.id].outer;
    assert PendingInv(db, w.pending[e.id], e.now);
    if db.org(outer.key, e.now).Some? {
      assert PendingInv(db, Nested(outer, db.org(outer.key, e.now).value), e.now);
    } else {
      assert NoOrgAfter(db, outer.key, outer.asked - 1, e.now);
      assert AnswerInv(db, Answer(outer.key, outer.asked, FREE, e.now));
    }
  }

  lemma NestedKeepsInv(db: Database, w: World, e: Event)
    requires Inv(db, w, e.now) && Enabled(w, e) && e.Advance? && w.pending[e.id].Nested?
    ensures Inv(db, Step(db, w, e), e.now)
  {
    assert PendingInv(db, w.pending[e.id], e.now);
    SeekKeepsInv(db, w, e.id, w.pending[e.id].org, Some(w.pending[e.id].outer), e.now);
  }

  lemma FetchingKeepsInv(db: Database, w: World, e: Event)
    requires Inv(db, w, e.now) && Enabled(w, e) && e.Advance? && w.pending[e.id].Fetching?
    ensures Inv(db, Step(db, w, e), e.now)
  {
    var Fetching(org, asked, wanted) := w.pending[e.id];
    assert PendingInv(db, w.pending[e.id], e.now);
    assert TierAt(db, org, e.now) == Granted(db.plan(org, e.now));
    assert PendingInv(db, StoringOrg(org, asked, Granted(db.plan(org, e.now)), wanted), e.now);
  }

  lemma StoringOrgKeepsInv(db: Database, w: World, e: Event)
    requires Inv(db, w, e.now) && Enabled(w, e) && e.Advance? && w.pending[e.id].StoringOrg?
    ensures Inv(db, Step(db, w, e), e.now)
  {
    var StoringOrg(org, asked, tier, wanted) := w.pending[e.id];
    assert PendingInv(db, w.pending[e.id], e.now);
    var stored := w.(cache := Store(w.cache, org, tier, asked));
    assert EntryInv(db, org, stored.cache[org], e.now);
    assert Inv(db, stored, e.now);
    WidenTrue(db, org, tier, asked - 1, e.now, asked - MINUTE, e.now);
    DeliverKeepsInv(db, stored, e.id, org, asked, tier, wanted, e.now);
  }

  lemma StoringUserKeepsInv(db: Database, w: World, e: Event)
    requires Inv(db, w, e.now) && Enabled(w, e) && e.Advance? && w.pending[e.id].StoringUser?
    ensures Inv(db, Step(db, w, e), e.now)
  {
    var StoringUser(outer, tier) := w.pending[e.id];
    assert PendingInv(db, w.pending[e.id], e.now);
    assert EntryInv(db, outer.key, Entry(tier, outer.asked + MINUTE), e.now);
    WidenUser(db, outer.key, tier, outer.asked - 1, outer.asked - MINUTE - 1, e.now,
              outer.asked - MINUTE, outer.asked - 2 * MINUTE, e.now);
    assert AnswerInv(db, Answer(outer.key, outer.asked, tier, e.now));
  }

  lemma StepKeepsInv(db: Database, w: World, e: Event)
    requires PlainNames(db) && Inv(db, w, e.now) && Enabled(w, e)
    ensures Inv(db, Step(db, w, e), e.now)
  {
    match e {
      case Begin(_, _, _) => BeginKeepsInv(db, w, e);
      case Clear(_) =>
      case Advance(id, _) =>
        match w.pending[id] {
          case Resolving(_) => ResolvingKeepsInv(db, w, e);
          case Nested(_, _) => NestedKeepsInv(db, w, e);
          case Fetching(_, _, _) => FetchingKeepsInv(db, w, e);
          case StoringOrg(_, _, _, _) => StoringOrgKeepsInv(db, w, e);
          case StoringUser(_, _) => StoringUserKeepsInv(db, w, e);
        }
    }
  }

  lemma {:induction false} RunKeepsInv(db: Database, w: World, es: seq<Event>, from: int)
    requires PlainNames(db) && Inv(db, w, from) && Legal(db, w, es) && Clocked(from, es)
    ensures Inv(db, Run(db, w, es), FinalReading(from, es))
    decreases |es|
  {
    if es != [] {
      InvAges(db, w, from, es[0].now);
      StepKeepsInv(db, w, es[0]);
      RunKeepsInv(db, Step(db, w, es[0]), es[1..], es[0].now);
    }
  }

  /**
   * The tier given for an organisation's key was its tier at some time from less than a minute before the
   * lookup began until it was given, however lookups interleave.
   */
  lemma OrgAnswersAreFresh(db: Database, es: seq<Event>, from: int, a: Answer)
    requires PlainNames(db) && Legal(db, START, es) && Clocked(from, es)
    requires a in Run(db, START, es).answers && !(OIDC <= a.key)
    ensures exists t | a.asked - MINUTE < t <= a.at :: TierAt(db, a.key, t) == a.tier
  {
    RunKeepsInv(db, START, es, from);
    assert AnswerInv(db, a);
  }

  /**
   * The tier given for a user's key was, from less than two minutes before the lookup began, the tier of an
   * organisation that the user belonged to from less than a minute before; or the user had none, and the
   * free tier was given.
   */
  lemma UserAnswersAreFresh(db: Database, es: seq<Event>, from: int, a: Answer)
    requires PlainNames(db) && Legal(db, START, es) && Clocked(from, es)
    requires a in Run(db, START, es).answers && OIDC <= a.key
    ensures
      || (a.tier == FREE && exists s | a.asked - 1 < s <= a.at :: db.org(a.key, s) == None)
      || exists s, org | a.asked - MINUTE < s <= a.at && db.org(a.key, s) == Some(org) ::
           exists t | a.asked - 2 * MINUTE < t <= a.at :: TierAt(db, org, t) == a.tier
  {
    RunKeepsInv(db, START, es, from);
    assert AnswerInv(db, a);
    if TrueForUser(db, a.key, a.tier, a.asked - MINUTE, a.asked - 2 * MINUTE, a.at) {
      var s, org :| a.asked - MINUTE < s <= a.at && db.org(a.key, s) == Some(org)
                    && TrueAfter(db, org, a.tier, a.asked - 2 * MINUTE, a.at);
    }
  }

  // ---- One minute is needed, and two for a user ----

  /** `es`, with clock readings from `from` on, leads from `w` to `w'`. */
  ghost predicate Leads(db: Database, w: World, es: seq<Event>, from: int, w': World) {
    Legal(db, w, es) && Clocked(from, es) && Run(db, w, es) == w'
  }

  lemma LeadsOn(db: Database, w: World, e: Event, es: seq<Event>, from: int, w': World)
    requires Enabled(w, e) && from <= e.now && Leads(db, Step(db, w, e), es, e.now, w')
    ensures Leads(db, w, [e] + es, from, w')
  {
    assert ([e] + es)[1..] == es;
  }

  /** An organisation `org` that had `tier` up to time 0, and the free tier ever after; `key` is one of its users. */
  function Downgraded(org: string, key: string, tier: Tier): Database {
    Database((o: string, t: int) => if o == org && t <= 0 then Some(tier) else None,
             (k: string, t: int) => if k == key then Some(org) else None)
  }

  /** At time 0 the organisation's entry is built. */
  lemma OrgEntryIsBuilt(org: string, key: string, tier: Tier, es: seq<Event>, w': World)
    requires !AlwaysFree(org) && !(OIDC <= org) && tier.limit > 0 && tier.planCode != ""
    requires Leads(Downgraded(org, key, tier), World(map[org := Entry(tier, MINUTE)], map[], [Answer(org, 0, tier, 0)]), es, 0, w')
    ensures Leads(Downgraded(org, key, tier), START, [Begin(0, org, 0)] + ([Advance(0, 0)] + ([Advance(0, 0)] + es)), 0, w')
  {
    var db := Downgraded(org, key, tier);
    var w1 := World(map[], map[0 := Fetching(org, 0, None)], []);
    var w2 := World(map[], map[0 := StoringOrg(org, 0, tier, None)], []);
    var w3 := World(map[org := Entry(tier, MINUTE)], map[], [Answer(org, 0, tier, 0)]);
    assert Step(db, w2, Advance(0, 0)) == w3;
    LeadsOn(db, w2, Advance(0, 0), es, 0, w');
    assert Step(db, w1, Advance(0, 0)) == w2;
    LeadsOn(db, w1, Advance(0, 0), [Advance(0, 0)] + es, 0, w');
    assert Step(db, START, Begin(0, org, 0)) == w1;
    LeadsOn(db, START, Begin(0, org, 0), [Advance(0, 0)] + ([Advance(0, 0)] + es), 0, w');
  }

  /** The minute is needed: the entry still answers a tick before it expires, a minute less a tick after its tier was last true. */
  lemma OrgStalenessIsReached(org: string, key: string, tier: Tier) returns (es: seq<Event>)
    requires !AlwaysFree(org) && !(OIDC <= org) && OIDC <= key && tier.limit > 0 && tier.planCode != "" && tier != FREE
    ensures
      var db := Downgraded(org, key, tier);
      && PlainNames(db) && Legal(db, START, es) && Clocked(0, es)
      && Answer(org, MINUTE - 1, tier, MINUTE - 1) in Run(db, START, es).answers
      && forall t | t > 0 :: TierAt(db, org, t) != tier
  {
    var db := Downgraded(org, key, tier);
    var w3 := World(map[org := Entry(tier, MINUTE)], map[], [Answer(org, 0, tier, 0)]);
    var last := Begin(1, org, MINUTE - 1);
    var w4 := Step(db, w3, last);
    assert w4.answers[1] == Answer(org, MINUTE - 1, tier, MINUTE - 1);
    assert Leads(db, w4, [], MINUTE - 1, w4);
    LeadsOn(db, w3, last, [], 0, w4);
    OrgEntryIsBuilt(org, key, tier, [last] + [], w4);
    es := [Begin(0, org, 0)] + ([Advance(0, 0)] + ([Advance(0, 0)] + ([last] + [])));
  }

  /** Just before that entry expires, the user's entry is built from it. */
  lemma UserEntryIsBuilt(org: string, key: string, tier: Tier, es: seq<Event>, w': World)
    requires !AlwaysFree(org) && !(OIDC <= org) && OIDC <= key
    requires Leads(Downgraded(org, key, tier),
                   World(map[org := Entry(tier, MINUTE), key := Entry(tier, 2 * MINUTE - 1)], map[],
                         [Answer(org, 0, tier, 0), Answer(key, MINUTE - 1, tier, MINUTE - 1)]), es, MINUTE - 1, w')
    ensures
      var next := Advance(1, MINUTE - 1);
      Leads(Downgraded(org, key, tier), World(map[org := Entry(tier, MINUTE)], map[], [Answer(org, 0, tier, 0)]),
            [Begin(1, key, MINUTE - 1)] + ([next] + ([next] + ([next] + es))), 0, w')
  {
    var db, outer, next := Downgraded(org, key, tier), Outer(key, MINUTE - 1), Advance(1, MINUTE - 1);
    UserKeysAreNotFree(key);
    var byOrg := map[org := Entry(tier, MINUTE)];
    var w3 := World(byOrg, map[], [Answer(org, 0, tier, 0)]);
    var w4 := World(byOrg, map[1 := Resolving(outer)], [Answer(org, 0, tier, 0)]);
    var w5 := World(byOrg, map[1 := Nested(outer, org)], [Answer(org, 0, tier, 0)]);
    var w6 := World(byOrg, map[1 := StoringUser(outer, tier)], [Answer(org, 0, tier, 0)]);
    var w7 := World(byOrg[key := Entry(tier, 2 * MINUTE - 1)], map[], [Answer(org, 0, tier, 0), Answer(key, MINUTE - 1, tier, MINUTE - 1)]);
    assert Step(db, w6, next) == w7;
    LeadsOn(db, w6, next, es, MINUTE - 1, w');
    assert Step(db, w5, next) == w6;
    LeadsOn(db, w5, next, [next] + es, MINUTE - 1, w');
    assert Step(db, w4, next) == w5;
    LeadsOn(db, w4, next, [next] + ([next] + es), MINUTE - 1, w');
    assert Step(db, w3, Begin(1, key, MINUTE - 1)) == w4;
    LeadsOn(db, w3, Begin(1, key, MINUTE - 1), [next] + ([next] + ([next] + es)), 0, w');
  }

  /**
   * One minute is not enough for a user's key: an entry built from an almost expired entry still answers
   * almost two minutes after the last time at which its tier was true.
   */
  lemma UserStalenessExceedsAMinute(org: string, key: string, tier: Tier) returns (es: seq<Event>)
    requires !AlwaysFree(org) && !(OIDC <= org) && OIDC <= key && tier.limit > 0 && tier.planCode != "" && tier != FREE
    ensures
      var db := Downgraded(org, key, tier);
      && PlainNames(db) && Legal(db, START, es) && Clocked(0, es)
      && Answer(key, 2 * MINUTE - 2, tier, 2 * MINUTE - 2) in Run(db, START, es).answers
      && forall t | t > 0 :: TierAt(db, org, t) != tier
  {
    var db := Downgraded(org, key, tier);
    UserKeysAreNotFree(key);
    var w7 := World(map[org := Entry(tier, MINUTE), key := Entry(tier, 2 * MINUTE - 1)], map[],
                    [Answer(org, 0, tier, 0), Answer(key, MINUTE - 1, tier, MINUTE - 1)]);
    var last := Begin(2, key, 2 * MINUTE - 2);
    var w8 := Step(db, w7, last);
    assert w8.answers[2] == Answer(key, 2 * MINUTE - 2, tier, 2 * MINUTE - 2);
    assert Leads(db, w8, [], 2 * MINUTE - 2, w8);
    LeadsOn(db, w7, last, [], MINUTE - 1, w8);
    UserEntryIsBuilt(org, key, tier, [last] + [], w8);
    var next := Advance(1, MINUTE - 1);
    es := [Begin(1, key, MINUTE - 1)] + ([next] + ([next] + ([next] + ([last] + []))));
    OrgEntryIsBuilt(org, key, tier, es, w8);
    es := [Begin(0, org, 0)] + ([Advance(0, 0)] + ([Advance(0, 0)] + es));
  }
}
