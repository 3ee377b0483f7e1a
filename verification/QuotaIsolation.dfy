// What the quota check answers, told without the query behind it: record by record, and over whole runs, in
// which other organisations share the recorder and the table.

module QuotaIsolation {
  import opened Options
  import opened Quotas

  // ---- Record by record ----

  /** With nothing recorded the whole quota is left; a plan without one refuses at once. */
  lemma EmptyTableAnswer(orgID: string, since: int, limit: int)
    ensures CheckQuota([], orgID, since, limit) == if limit >= 1 then Quota(true, limit, limit) else Quota(false, 0, limit)
  {
  }

  /**
   * A record of another organisation, of an earlier time, with an error status or off the OCR path changes
   * nothing in the answer; any other takes one from what remains, and the last one turns it into a refusal.
   */
  lemma OneRecordAnswer(table: seq<UsageRecord>, rec: UsageRecord, orgID: string, since: int, limit: int)
    ensures
      var before, after := CheckQuota(table, orgID, since, limit), CheckQuota(table + [rec], orgID, since, limit);
      after ==
        if rec.orgID != orgID || rec.timestamp < since || rec.statusCode >= 400 || !("/api/v1/ocr/" <= rec.endpoint) then before
        else if before.allowed && before.remaining > 1 then Quota(true, before.remaining - 1, limit)
        else Quota(false, 0, limit)
  {
    assert (table + [rec])[..|table|] == table;
  }

  // ---- Over runs ----

  /** What an organisation can see of a run: the records of its own that are written, and its checks. */
  datatype Observed = Wrote(rec: UsageRecord) | Asked

  function Seen(a: Account, most: nat, w: World, es: seq<Event>): seq<Observed>
    requires Legal(a, most, w, es)
    decreases |es|
  {
    if es == [] then []
    else
      (match es[0]
       case Check => [Asked]
       case Write(ok) => if ok && w.recorder.hand.value.orgID == a.orgID then [Wrote(w.recorder.hand.value)] else []
       case _ => [])
      + Seen(a, most, Step(a, w, es[0]), es[1..])
  }

  /** The answers to the organisation's checks. */
  function Answers(a: Account, most: nat, w: World, es: seq<Event>): seq<Quota>
    requires Legal(a, most, w, es)
    decreases |es|
  {
    if es == [] then []
    else
      (if es[0].Check? then [CheckQuota(w.table, a.orgID, a.since, a.quota)] else [])
      + Answers(a, most, Step(a, w, es[0]), es[1..])
  }

  /** The answers as they would be if nobody else used the table. */
  function Alone(a: Account, own: seq<UsageRecord>, seen: seq<Observed>): seq<Quota>
    decreases |seen|
  {
    if seen == [] then []
    else
      match seen[0]
      case Wrote(rec) => Alone(a, own + [rec], seen[1..])
      case Asked => [CheckQuota(own, a.orgID, a.since, a.quota)] + Alone(a, own, seen[1..])
  }

  /** An organisation's own records, in order. */
  function Own(table: seq<UsageRecord>, orgID: string): seq<UsageRecord> {
    if table == [] then []
    else
      var last := table[|table| - 1];
      Own(table[..|table| - 1], orgID) + (if last.orgID == orgID then [last] else [])
  }

  lemma OwnGrows(table: seq<UsageRecord>, rec: UsageRecord, orgID: string)
    ensures Own(table + [rec], orgID) == Own(table, orgID) + (if rec.orgID == orgID then [rec] else [])
  {
    assert (table + [rec])[..|table|] == table;
  }

  /** The answer depends on the organisation's own records alone. */
  lemma {:induction false} OwnDecides(table: seq<UsageRecord>, orgID: string, since: int, limit: int)
    ensures CheckQuota(table, orgID, since, limit) == CheckQuota(Own(table, orgID), orgID, since, limit)
    decreases |table|
  {
    if table != [] {
      var front, last := table[..|table| - 1], table[|table| - 1];
      assert table == front + [last];
      OwnDecides(front, orgID, since, limit);
      OwnGrows(front, last, orgID);
      OneRecordAnswer(front, last, orgID, since, limit);
      if last.orgID == orgID {
        OneRecordAnswer(Own(front, orgID), last, orgID, since, limit);
      } else {
        assert Own(front, orgID) + [] == Own(front, orgID);
      }
    }
  }

  lemma StepTable(a: Account, w: World, e: Event)
    requires Enabled(a, w, e)
    ensures Step(a, w, e).table == if e.Write? && e.ok then w.table + [w.recorder.hand.value] else w.table
  {
  }

  /** In every run an organisation is answered as if it were alone. */
  lemma {:induction false} AnsweredAlone(a: Account, most: nat, w: World, es: seq<Event>)
    requires Legal(a, most, w, es)
    ensures Answers(a, most, w, es) == Alone(a, Own(w.table, a.orgID), Seen(a, most, w, es))
    decreases |es|
  {
    if es != [] {
      var e, next, rest := es[0], Step(a, w, es[0]), es[1..];
      var own, later := Own(w.table, a.orgID), Seen(a, most, next, rest);
      AnsweredAlone(a, most, next, rest);
      StepTable(a, w, e);
      if e.Check? {
        OwnDecides(w.table, a.orgID, a.since, a.quota);
        assert Seen(a, most, w, es) == [Asked] + later && ([Asked] + later)[1..] == later;
      } else if e.Write? && e.ok {
        var rec := w.recorder.hand.value;
        OwnGrows(w.table, rec, a.orgID);
        assert Answers(a, most, w, es) == [] + Answers(a, most, next, rest);
        if rec.orgID == a.orgID {
          assert Seen(a, most, w, es) == [Wrote(rec)] + later && ([Wrote(rec)] + later)[1..] == later;
        } else {
          assert Seen(a, most, w, es) == [] + later && [] + later == later && own + [] == own;
        }
      } else {
        assert Seen(a, most, w, es) == [] + later && [] + later == later;
        assert Answers(a, most, w, es) == [] + Answers(a, most, next, rest);
      }
    }
  }

  /**
   * Two runs that write the same records of an organisation in the same order, between the same checks, give
   * it the same answers, whatever is written for others.
   */
  lemma TenantsAreIsolated(a: Account, most: nat, w: World, es: seq<Event>, most': nat, w': World, es': seq<Event>)
    requires Legal(a, most, w, es) && Legal(a, most', w', es')
    requires Own(w.table, a.orgID) == Own(w'.table, a.orgID) && Seen(a, most, w, es) == Seen(a, most', w', es')
    ensures Answers(a, most, w, es) == Answers(a, most', w', es')
  {
    AnsweredAlone(a, most, w, es);
    AnsweredAlone(a, most', w', es');
  }
}
