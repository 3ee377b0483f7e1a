// The in-memory idempotency store.

/** Records and the effect of each store operation on a map of them, whatever the map is keyed by. */
module Records {
  import opened Units

  /** An organisation and one of its keys. */
  type Pair = (string, string)

  datatype Status = InProgress | Completed

  datatype Record = Record(
    orgID: string,
    key: string,
    requestHash: string,
    status: Status,
    statusCode: int,
    headers: map<string, string>,
    body: Bytes,
    createdAt: int,
    expiresAt: int)

  function NewRecord(orgID: string, key: string, hash: string, now: int, ttl: int): Record {
    Record(orgID, key, hash, InProgress, 0, map[], [], now, now + ttl)
  }

  /** At the very instant of expiry the memory store still honours a record and PostgreSQL no longer does. */
  datatype Backend = Memory | Postgres {
    predicate Before(expiresAt: int, now: int) {
      match this
      case Memory => now <= expiresAt
      case Postgres => now < expiresAt
    }

    predicate Live(rec: Record, now: int) {
      Before(rec.expiresAt, now)
    }
  }

  /** Gives the new map, the record now stored, and whether the caller created it. */
  function LockOrGet<K>(be: Backend, m: map<K, Record>, k: K, created: Record, now: int): (map<K, Record>, Record, bool) {
    if k in m && be.Live(m[k], now) then (m, m[k], false) else (m[k := created], created, true)
  }

  function Complete<K>(m: map<K, Record>, k: K, code: int, hdrs: map<string, string>, bytes: Bytes): map<K, Record> {
    if k in m then m[k := m[k].(status := Completed, statusCode := code, headers := hdrs, body := bytes)] else m
  }

  function Release<K>(m: map<K, Record>, k: K): map<K, Record> {
    if k in m && m[k].status == InProgress then m - {k} else m
  }

  function Cleanup<K>(be: Backend, m: map<K, Record>, now: int): map<K, Record> {
    map k | k in m && be.Live(m[k], now) :: m[k]
  }
}

module IdempotencyStores {
  import opened Options
  import opened Units
  import opened Records

  datatype StoreError = OrgIDRequired | KeyRequired

  /** What every operation checks before it looks at the store. */
  function Check(orgID: string, key: string): Option<StoreError> {
    if orgID == "" then Some(OrgIDRequired) else if key == "" then Some(KeyRequired) else None
  }

  datatype Answer = Failed(error: StoreError) | Answered(record: Record, isNew: bool)

  function StorageKey(orgID: string, key: string): string {
    orgID + ":" + key
  }

  function EffectiveTTL(ttl: int, default: int): int {
    if ttl <= 0 then default else ttl
  }

  class MemoryStore {
    var records: map<string, Record>
    const defaultTTL: int

    constructor (ttl: int)
      ensures records == map[]
      ensures defaultTTL == if ttl <= 0 then 86_400_000_000_000 else ttl
    {
      records := map[];
      defaultTTL := if ttl <= 0 then 24 * HOUR else ttl;
    }

    method LockOrGet(orgID: string, key: string, requestHash: string, ttl: int, now: int) returns (answer: Answer)
      modifies this
      ensures orgID == "" ==> answer == Failed(OrgIDRequired)
      ensures orgID != "" && key == "" ==> answer == Failed(KeyRequired)
      ensures answer.Answered? && answer.isNew ==>
        var expiry := now + (if ttl <= 0 then defaultTTL else ttl);
        answer.record == Record(orgID, key, requestHash, InProgress, 0, map[], [], now, expiry)
      ensures Check(orgID, key).Some? ==> answer == Failed(Check(orgID, key).value) && records == old(records)
      ensures Check(orgID, key).None? ==>
        var created := NewRecord(orgID, key, requestHash, now, EffectiveTTL(ttl, defaultTTL));
        var (m, rec, isNew) := Records.LockOrGet(Memory, old(records), StorageKey(orgID, key), created, now);
        records == m && answer == Answered(rec, isNew)
    {
      if orgID == "" {
        return Failed(OrgIDRequired);
      }
      if key == "" {
        return Failed(KeyRequired);
      }
      var effective := if ttl <= 0 then defaultTTL else ttl;
      var storageKey := StorageKey(orgID, key);
      if storageKey in records {
        var existing := records[storageKey];
        if !(now > existing.expiresAt) {
          return Answered(existing, false);
        }
      }
      var newRec := Record(orgID, key, requestHash, InProgress, 0, map[], [], now, now + effective);
      records := records[storageKey := newRec];
      return Answered(newRec, true);
    }

    method Complete(orgID: string, key: string, statusCode: int, headers: map<string, string>, body: Bytes)
      returns (error: Option<StoreError>)
      modifies this
      ensures error == Check(orgID, key)
      ensures records == if error.Some? then old(records)
                         else Records.Complete(old(records), StorageKey(orgID, key), statusCode, headers, body)
    {
      if orgID == "" {
        return Some(OrgIDRequired);
      }
      if key == "" {
        return Some(KeyRequired);
      }
      var storageKey := StorageKey(orgID, key);
      if storageKey !in records {
        return None;
      }
      var rec := records[storageKey];
      records := records[storageKey := rec.(status := Completed, statusCode := statusCode, headers := headers, body := body)];
      return None;
    }

    method Release(orgID: string, key: string) returns (error: Option<StoreError>)
      modifies this
      ensures error == Check(orgID, key)
      ensures records == if error.Some? then old(records) else Records.Release(old(records), StorageKey(orgID, key))
    {
      if orgID == "" {
        return Some(OrgIDRequired);
      }
      if key == "" {
        return Some(KeyRequired);
      }
      var storageKey := StorageKey(orgID, key);
      if storageKey in records && records[storageKey].status == InProgress {
        records := records - {storageKey};
      }
      return None;
    }

    method CleanupStale(now: int) returns (removed: int)
      modifies this
      ensures records == Cleanup(Memory, old(records), now)
      ensures removed == |old(records).Keys| - |records.Keys|
    {
      ghost var before := records;
      var todo := records.Keys;
      removed := 0;
      while todo != {}
        invariant todo <= before.Keys && records.Keys <= before.Keys
        invariant forall k | k in records :: records[k] == before[k]
        invariant forall k | k in before :: k in records <==> k in todo || Memory.Live(before[k], now)
        invariant removed + |records.Keys| == |before.Keys|
        decreases todo
      {
        var k :| k in todo;
        if now > records[k].expiresAt {
          assert records.Keys == (records - {k}).Keys + {k};
          records := records - {k};
          removed := removed + 1;
        }
        todo := todo - {k};
      }
    }
  }
}

/** The flat store refines a map keyed by (organisation, key) pairs that is never cleaned up. */
module IdempotencyRefinement {
  import opened Units
  import opened Records
  import opened IdempotencyStores

  datatype Op =
    | Lock(orgID: string, key: string, hash: string, ttl: int, now: int)
    | Finish(orgID: string, key: string, code: int, headers: map<string, string>, body: Bytes, now: int)
    | Abandon(orgID: string, key: string, now: int)
    | Sweep(now: int)

  function FlatStep(default: int, m: map<string, Record>, op: Op): (map<string, Record>, seq<Answer>) {
    match op
    case Lock(org, key, hash, ttl, now) =>
      if Check(org, key).Some? then (m, [Failed(Check(org, key).value)])
      else
        var (m', rec, isNew) := LockOrGet(Memory, m, StorageKey(org, key), NewRecord(org, key, hash, now, EffectiveTTL(ttl, default)), now);
        (m', [Answered(rec, isNew)])
    case Finish(org, key, code, headers, body, _) =>
      (if Check(org, key).Some? then m else Complete(m, StorageKey(org, key), code, headers, body), [])
    case Abandon(org, key, _) =>
      (if Check(org, key).Some? then m else Release(m, StorageKey(org, key)), [])
    case Sweep(now) => (Cleanup(Memory, m, now), [])
  }

  /** The specification: nothing is encoded, and nothing is swept. */
  function PairStep(default: int, m: map<Pair, Record>, op: Op): (map<Pair, Record>, seq<Answer>) {
    match op
    case Lock(org, key, hash, ttl, now) =>
      if Check(org, key).Some? then (m, [Failed(Check(org, key).value)])
      else
        var (m', rec, isNew) := LockOrGet(Memory, m, (org, key), NewRecord(org, key, hash, now, EffectiveTTL(ttl, default)), now);
        (m', [Answered(rec, isNew)])
    case Finish(org, key, code, headers, body, _) =>
      (if Check(org, key).Some? then m else Complete(m, (org, key), code, headers, body), [])
    case Abandon(org, key, _) =>
      (if Check(org, key).Some? then m else Release(m, (org, key)), [])
    case Sweep(_) => (m, [])
  }

  function FlatAnswers(default: int, m: map<string, Record>, ops: seq<Op>): seq<Answer>
    decreases |ops|
  {
    if ops == [] then [] else var (m', out) := FlatStep(default, m, ops[0]); out + FlatAnswers(default, m', ops[1..])
  }

  function PairAnswers(default: int, m: map<Pair, Record>, ops: seq<Op>): seq<Answer>
    decreases |ops|
  {
    if ops == [] then [] else var (m', out) := PairStep(default, m, ops[0]); out + PairAnswers(default, m', ops[1..])
  }

  function Later(x: int, y: int): int {
    if x >= y then x else y
  }

  /**
   * A look-up reads its clock before it takes the lock, so readings can be out of lock order: none is more
   * than `skew` behind the latest reading before it, `latest`.
   */
  predicate Ordered(skew: nat, latest: int, ops: seq<Op>)
    decreases |ops|
  {
    ops == [] || (latest - skew <= ops[0].now && Ordered(skew, Later(ops[0].now, latest), ops[1..]))
  }

  predicate NoSweeps(ops: seq<Op>) {
    forall i | 0 <= i < |ops| :: !ops[i].Sweep?
  }

  /** Every identifier used belongs to a set of organisations. */
  predicate Uses(ops: seq<Op>, orgs: set<string>) {
    forall i | 0 <= i < |ops| && !ops[i].Sweep? :: ops[i].orgID in orgs
  }

  // ---- The encoding ----

  /** `b` is `a` extended after a colon, so some key of `a` reads like a key of `b`. */
  predicate Extends(b: string, a: string) {
    a + ":" <= b
  }

  ghost predicate KeysCollide(a: string, b: string) {
    exists k, l :: k != "" && l != "" && StorageKey(a, k) == StorageKey(b, l)
  }

  lemma CollisionExtends(a: string, k: string, b: string, l: string)
    requires StorageKey(a, k) == StorageKey(b, l) && |a| <= |b|
    ensures (a == b && k == l) || Extends(b, a)
  {
    var s := StorageKey(a, k);
    assert s[..|a|] == a && s[..|b|] == b;
    if |a| == |b| {
      assert s[|a| + 1..] == k && s[|b| + 1..] == l;
    } else {
      assert s[..|a| + 1] == a + ":";
      assert b[..|a| + 1] == s[..|a| + 1];
    }
  }

  /** Two organisations can claim the same storage key exactly when one name extends the other after a colon. */
  lemma KeysCollideExactly(a: string, b: string)
    requires a != b
    ensures KeysCollide(a, b) <==> Extends(b, a) || Extends(a, b)
  {
    if KeysCollide(a, b) {
      var k, l :| k != "" && l != "" && StorageKey(a, k) == StorageKey(b, l);
      if |a| <= |b| {
        CollisionExtends(a, k, b, l);
      } else {
        CollisionExtends(b, l, a, k);
      }
    }
    if Extends(b, a) {
      var k := b[|a| + 1..] + ":x";
      assert StorageKey(a, k) == StorageKey(b, "x");
    }
    if Extends(a, b) {
      var l := a[|b| + 1..] + ":x";
      assert StorageKey(b, l) == StorageKey(a, "x");
    }
  }

  predicate NoneExtends(orgs: set<string>) {
    forall a, b | a in orgs && b in orgs :: !Extends(b, a)
  }

  lemma ExtensionHasColon(a: string, b: string)
    requires Extends(b, a)
    ensures ':' in b
  {
    assert (a + ":")[|a|] == b[|a|];
  }

  lemma ColonFreeNamesDoNotExtend(orgs: set<string>)
    requires forall a | a in orgs :: ':' !in a
    ensures NoneExtends(orgs)
  {
    forall a, b | a in orgs && b in orgs ensures !Extends(b, a) {
      if Extends(b, a) {
        ExtensionHasColon(a, b);
      }
    }
  }

  lemma EncodingIsInjective(orgs: set<string>, p: Pair, q: Pair)
    requires NoneExtends(orgs) && p.0 in orgs && q.0 in orgs
    requires StorageKey(p.0, p.1) == StorageKey(q.0, q.1)
    ensures p == q
  {
    if |p.0| <= |q.0| {
      CollisionExtends(p.0, p.1, q.0, q.1);
    } else {
      CollisionExtends(q.0, q.1, p.0, p.1);
    }
  }

  // ---- The refinement ----

  /** The flat store holds what the pair map holds, less, if it is `swept`, some records that have expired. */
  ghost predicate Refines(flat: map<string, Record>, pairs: map<Pair, Record>, orgs: set<string>, swept: bool, now: int) {
    forall p: Pair | p.0 in orgs ::
      var s := StorageKey(p.0, p.1);
      && (s in flat ==> p in pairs && flat[s] == pairs[p])
      && (p in pairs && s !in flat ==> swept && !Memory.Live(pairs[p], now))
  }

  lemma StepRefines(default: int, flat: map<string, Record>, pairs: map<Pair, Record>, orgs: set<string>, op: Op, swept: bool)
    requires NoneExtends(orgs) && Refines(flat, pairs, orgs, swept, op.now) && Uses([op], orgs) && (op.Sweep? ==> swept)
    ensures FlatStep(default, flat, op).1 == PairStep(default, pairs, op).1
    ensures Refines(FlatStep(default, flat, op).0, PairStep(default, pairs, op).0, orgs, swept, op.now)
  {
    assert !op.Sweep? ==> [op][0].orgID in orgs;
    var flat', pairs' := FlatStep(default, flat, op).0, PairStep(default, pairs, op).0;
    forall p: Pair | p.0 in orgs
      ensures
        var s := StorageKey(p.0, p.1);
        && (s in flat' ==> p in pairs' && flat'[s] == pairs'[p])
        && (p in pairs' && s !in flat' ==> swept && !Memory.Live(pairs'[p], op.now))
    {
      if !op.Sweep? && StorageKey(p.0, p.1) == StorageKey(op.orgID, op.key) {
        EncodingIsInjective(orgs, p, (op.orgID, op.key));
      }
    }
  }

  lemma {:induction false} RunRefines(
      default: int, flat: map<string, Record>, pairs: map<Pair, Record>, orgs: set<string>, ops: seq<Op>, swept: bool, latest: int)
    requires NoneExtends(orgs) && Refines(flat, pairs, orgs, swept, latest) && Uses(ops, orgs)
    requires if swept then Ordered(0, latest, ops) else NoSweeps(ops)
    ensures FlatAnswers(default, flat, ops) == PairAnswers(default, pairs, ops)
    decreases |ops|
  {
    if ops != [] {
      assert Uses([ops[0]], orgs) && Uses(ops[1..], orgs);
      StepRefines(default, flat, pairs, orgs, ops[0], swept);
      RunRefines(default, FlatStep(default, flat, ops[0]).0, PairStep(default, pairs, ops[0]).0, orgs, ops[1..], swept, ops[0].now);
    }
  }

  predicate Agrees(default: int, ops: seq<Op>) {
    FlatAnswers(default, map[], ops) == PairAnswers(default, map[], ops)
  }

  /**
   * For organisation names without a colon, every answer of the flat store, whatever completions and releases
   * arrive late, is that of the pair map: with clock readings in any order if it is never swept, and with
   * readings in lock order however often it is swept.
   */
  lemma FlatStoreRefinesPairMap(default: int, ops: seq<Op>, orgs: set<string>, latest: int)
    requires forall a | a in orgs :: ':' !in a
    requires Uses(ops, orgs) && (NoSweeps(ops) || Ordered(0, latest, ops))
    ensures Agrees(default, ops)
  {
    ColonFreeNamesDoNotExtend(orgs);
    RunRefines(default, map[], map[], orgs, ops, !NoSweeps(ops), latest);
  }

  ghost predicate AlwaysRefines(default: int, a: string, b: string, skew: nat) {
    forall ops, latest | Uses(ops, {a, b}) && Ordered(skew, latest, ops) :: Agrees(default, ops)
  }

  ghost predicate UnsweptRefines(default: int, a: string, b: string) {
    forall ops | Uses(ops, {a, b}) && NoSweeps(ops) :: Agrees(default, ops)
  }

  /**
   * For two given names the refinement holds exactly when neither extends the other after a colon and,
   * where the store is swept, clock readings are in lock order.
   */
  lemma RefinementIsExact(default: int, a: string, b: string, skew: nat)
    requires a != "" && b != "" && a != b
    ensures AlwaysRefines(default, a, b, skew) <==> !Extends(b, a) && !Extends(a, b) && skew == 0
    ensures UnsweptRefines(default, a, b) <==> !Extends(b, a) && !Extends(a, b)
  {
    KeysCollideExactly(a, b);
    if KeysCollide(a, b) {
      var k, l :| k != "" && l != "" && StorageKey(a, k) == StorageKey(b, l);
      CollisionShows(default, a, k, b, l, skew);
    } else {
      assert NoneExtends({a, b}) by {
        assert !Extends(a, a) && !Extends(b, b);
      }
      forall ops | Uses(ops, {a, b}) && NoSweeps(ops) ensures Agrees(default, ops) {
        RunRefines(default, map[], map[], {a, b}, ops, false, 0);
      }
      if skew == 0 {
        forall ops, latest | Uses(ops, {a, b}) && Ordered(skew, latest, ops) ensures Agrees(default, ops) {
          RunRefines(default, map[], map[], {a, b}, ops, true, latest);
        }
      } else {
        LateLookUpShows(default, a, b, skew);
      }
    }
  }

  /** Two organisations whose keys collide lock the same flat record. */
  lemma CollisionShows(default: int, a: string, k: string, b: string, l: string, skew: nat)
    requires a != "" && b != "" && a != b && k != "" && l != "" && StorageKey(a, k) == StorageKey(b, l)
    ensures !AlwaysRefines(default, a, b, skew) && !UnsweptRefines(default, a, b)
  {
    var first, second := Lock(a, k, "h", 1, 0), Lock(b, l, "h", 1, 0);
    var ops := [first, second];
    assert ops[1..] == [second] && [second][1..] == [];
    var flat, pairs := FlatStep(default, map[], first).0, PairStep(default, map[], first).0;
    assert FlatAnswers(default, map[], ops) == FlatStep(default, map[], first).1 + FlatAnswers(default, flat, [second]);
    assert PairAnswers(default, map[], ops) == PairStep(default, map[], first).1 + PairAnswers(default, pairs, [second]);
    assert FlatAnswers(default, flat, [second]) == FlatStep(default, flat, second).1 + [];
    assert PairAnswers(default, pairs, [second]) == PairStep(default, pairs, second).1 + [];
    assert !FlatAnswers(default, map[], ops)[1].isNew && PairAnswers(default, map[], ops)[1].isNew;
    assert !Agrees(default, ops);
    assert Ordered(skew, 0, [second]);
    assert Uses(ops, {a, b}) && Ordered(skew, 0, ops) && NoSweeps(ops);
  }

  /** A record is swept as it expires, and a look-up that read its clock before that makes a new one. */
  lemma LateLookUpShows(default: int, a: string, b: string, skew: nat)
    requires a != "" && skew > 0
    ensures !AlwaysRefines(default, a, b, skew)
  {
    var first, sweep, late := Lock(a, "k", "h", 1, 0), Sweep(2), Lock(a, "k", "h", 1, 1);
    var ops := [first, sweep, late];
    assert ops[1..] == [sweep, late] && [sweep, late][1..] == [late] && [late][1..] == [];
    var rec := NewRecord(a, "k", "h", 0, 1);
    var flat, pairs := map[StorageKey(a, "k") := rec], map[(a, "k") := rec];
    assert FlatStep(default, map[], first) == (flat, [Answered(rec, true)]);
    assert PairStep(default, map[], first) == (pairs, [Answered(rec, true)]);
    assert FlatStep(default, flat, sweep).0 == map[];
    assert FlatAnswers(default, map[], [late])[0].isNew && !PairAnswers(default, pairs, [late])[0].isNew;
    assert FlatAnswers(default, flat, [sweep, late]) == [] + FlatAnswers(default, map[], [late]);
    assert PairAnswers(default, pairs, [sweep, late]) == [] + PairAnswers(default, pairs, [late]);
    assert FlatAnswers(default, map[], ops) == [Answered(rec, true)] + FlatAnswers(default, map[], [late]);
    assert PairAnswers(default, map[], ops) == [Answered(rec, true)] + PairAnswers(default, pairs, [late]);
    assert FlatAnswers(default, map[], ops)[1].isNew && !PairAnswers(default, map[], ops)[1].isNew;
    assert !Agrees(default, ops);
    assert Ordered(skew, 2, [late]) && Ordered(skew, 0, [sweep, late]);
    assert Uses(ops, {a, b}) && Ordered(skew, 0, ops);
  }
}
