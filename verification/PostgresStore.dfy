// The PostgreSQL idempotency store, statement by statement.

module PostgresStores {
  import opened Options
  import opened Units
  import opened Records
  import opened IdempotencyStores

  /** `None` stands for the error of a select that finds no row. */
  datatype Fetched = Row(record: Record, isNew: bool) | NoRow | Refused(error: StoreError)

  /** The table behind the store; each of the first five methods is one statement. */
  class PostgresStore {
    var rows: map<Pair, Record>
    const defaultTTL: int

    constructor (ttl: int)
      ensures rows == map[] && defaultTTL == if ttl <= 0 then 86_400_000_000_000 else ttl
    {
      rows := map[];
      defaultTTL := if ttl <= 0 then 24 * HOUR else ttl;
    }

    /** Inserts the row, or overwrites an expired one; gives nothing back when a live row is in the way. */
    method Upsert(pair: Pair, requestHash: string, ttl: int, now: int) returns (returned: Option<Record>)
      modifies this
      ensures
        var (m, rec, isNew) := Records.LockOrGet(Postgres, old(rows), pair, NewRecord(pair.0, pair.1, requestHash, now, ttl), now);
        rows == m && returned == if isNew then Some(rec) else None
    {
      if pair in rows && !(rows[pair].expiresAt <= now) {
        return None;
      }
      var row := Record(pair.0, pair.1, requestHash, InProgress, 0, map[], [], now, now + ttl);
      rows := rows[pair := row];
      return Some(row);
    }

    method Select(pair: Pair) returns (row: Option<Record>)
      ensures row == if pair in rows then Some(rows[pair]) else None
    {
      return if pair in rows then Some(rows[pair]) else None;
    }

    method Complete(pair: Pair, statusCode: int, headers: map<string, string>, body: Bytes)
      modifies this
      ensures rows == Records.Complete(old(rows), pair, statusCode, headers, body)
    {
      if pair in rows {
        rows := rows[pair := rows[pair].(status := Completed, statusCode := statusCode, headers := headers, body := body)];
      }
    }

    method Release(pair: Pair)
      modifies this
      ensures rows == Records.Release(old(rows), pair)
    {
      if pair in rows && rows[pair].status == InProgress {
        rows := rows - {pair};
      }
    }

    method CleanupStale(now: int) returns (deleted: int)
      modifies this
      ensures rows == Cleanup(Postgres, old(rows), now)
      ensures deleted == |old(rows)| - |rows|
    {
      deleted := |rows|;
      rows := map pair | pair in rows && !(rows[pair].expiresAt <= now) :: rows[pair];
      deleted := deleted - |rows|;
    }

    /** The two statements in a row, with nothing of another request in between. */
    method LockOrGet(orgID: string, key: string, requestHash: string, ttl: int, now: int) returns (fetched: Fetched)
      modifies this
      ensures orgID == "" ==> fetched == Refused(OrgIDRequired)
      ensures orgID != "" && key == "" ==> fetched == Refused(KeyRequired)
      ensures fetched.Row? && fetched.isNew ==>
        var expiry := now + (if ttl <= 0 then defaultTTL else ttl);
        fetched.record == Record(orgID, key, requestHash, InProgress, 0, map[], [], now, expiry)
      ensures Check(orgID, key).Some? ==> fetched == Refused(Check(orgID, key).value) && rows == old(rows)
      ensures Check(orgID, key).None? ==>
        var created := NewRecord(orgID, key, requestHash, now, EffectiveTTL(ttl, defaultTTL));
        var (m, rec, isNew) := Records.LockOrGet(Postgres, old(rows), (orgID, key), created, now);
        rows == m && fetched == Row(rec, isNew)
    {
      if orgID == "" {
        return Refused(OrgIDRequired);
      }
      if key == "" {
        return Refused(KeyRequired);
      }
      var effective := if ttl <= 0 then defaultTTL else ttl;
      var returned := Upsert((orgID, key), requestHash, effective, now);
      if returned.Some? {
        return Row(returned.value, true);
      }
      var row := Select((orgID, key));
      if row.None? {
        return NoRow;
      }
      return Row(row.value, false);
    }
  }
}
