// The monthly quota: a read-then-act check against a count that the asynchronous recorder feeds.

module Quotas {
  import opened Options
  import opened Units
  import opened HttpHeaders
  import opened Recorders
  import M = IdempotencyMiddleware
  import P = IdempotencyProtocol

  const OCR_PREFIX := "/api/v1/ocr/"

  /** The routes that run an OCR engine; a GET under the same prefix looks an earlier result up. */
  const CALL_PATHS := {
    "/api/v1/ocr/ktp", "/api/v1/ocr/sim", "/api/v1/ocr/passport",
    "/api/v1/ocr/npwp", "/api/v1/ocr/kk", "/api/v1/ocr/invoice"}

  /** `verb` is the method of the request, which the source does not record: the counting query cannot see it. */
  datatype UsageRecord = UsageRecord(orgID: string, verb: string, endpoint: string, statusCode: int, timestamp: int) {
    predicate RunsOcr() {
      verb == "POST" && endpoint in CALL_PATHS
    }
  }

  // ---- Which finished requests are recorded ----

  const PUBLIC_PATHS := {"/health", "/ready", "/metrics", "/docs", "/openapi", "/openapi.yaml"}

  predicate Excluded(path: string) {
    path in PUBLIC_PATHS || "/api/v1/auth" <= path || "/api/v1/usage" <= path || "/api/v1/account" <= path
  }

  /**
   * `headers` is the response's header map once the request has been handled. The status and the authenticated
   * organisation are what the response writer captured, "" when there is none.
   */
  function Metered(verb: string, path: string, headers: Headers, orgID: string, statusCode: int, start: int): Option<UsageRecord> {
    if Excluded(path) || MarkedReplayed(headers) || orgID == "" then None
    else Some(UsageRecord(orgID, verb, path, statusCode, start))
  }

  /** An OCR request of an organisation is recorded, whatever its status, exactly when it is not marked as a replay. */
  lemma OcrRequestsAreMetered(verb: string, path: string, headers: Headers, orgID: string, statusCode: int, start: int)
    requires "/api/v1/ocr/" <= path && orgID != ""
    ensures Metered(verb, path, headers, orgID, statusCode, start)
         == if Get(headers, "Idempotent-Replayed") == "true" then None
            else Some(UsageRecord(orgID, verb, path, statusCode, start))
  {
    assert path[8] == 'o' && path[9] == 'c';
    assert path[..12] == OCR_PREFIX;
    assert "/api/v1/auth"[8] == 'a' && "/api/v1/usage"[8] == 'u' && "/api/v1/account"[8] == 'a';
    forall p | p in PUBLIC_PATHS ensures p != path {
      assert |p| <= 13 && (|p| >= 13 ==> p[1] == 'o');
    }
  }

  /** Probes, documentation, and the paths of sign-in, usage and account are never recorded, nor is anyone unknown. */
  lemma NeverMetered(verb: string, path: string, headers: Headers, orgID: string, statusCode: int, start: int)
    ensures Metered(verb, path, headers, orgID, statusCode, start).None?
      <==> || path == "/health" || path == "/ready" || path == "/metrics" || path == "/docs" || path == "/openapi"
           || path == "/openapi.yaml" || "/api/v1/auth" <= path || "/api/v1/usage" <= path || "/api/v1/account" <= path
           || Get(headers, "Idempotent-Replayed") == "true" || orgID == ""
  {
  }

  /** Nothing that the handler does touches the mark. */
  predicate LeavesUnmarked(actions: seq<M.Action>) {
    forall i | 0 <= i < |actions| && actions[i].PutHeader? :: actions[i].name != REPLAYED
  }

  lemma {:induction false} StaysUnmarked(h: Headers, actions: seq<M.Action>)
    requires LeavesUnmarked(actions)
    ensures MarkedReplayed(M.HeadersLeft(h, actions)) <==> MarkedReplayed(h)
    decreases |actions|
  {
    if actions != [] {
      StaysUnmarked(h, actions[..|actions| - 1]);
    }
  }

  /**
   * Of the OCR requests that reach the idempotency middleware with `h` as their headers, those that run
   * a handler that leaves the mark alone are recorded, after a panic as well, and of those that are answered
   * from a record all but the replays are.
   */
  lemma OnlyReplaysAreUnmetered(
      verb: string, path: string, h: Headers, orgID: string, statusCode: int, start: int,
      flushes: bool, script: M.Script, reply: P.Reply, errorText: int -> Bytes)
    requires "/api/v1/ocr/" <= path && orgID != "" && !MarkedReplayed(h) && LeavesUnmarked(script.actions)
    ensures
      var record := Some(UsageRecord(orgID, verb, path, statusCode, start));
      && Metered(verb, path, M.Ran(flushes, h, script, errorText).headers, orgID, statusCode, start) == record
      && Metered(verb, path, M.Told(h, reply, errorText).headers, orgID, statusCode, start)
         == if reply.Replayed? then None else record
  {
    M.ClientGets(flushes, M.Fresh(h), script.actions);
    StaysUnmarked(h, script.actions);
    OcrRequestsAreMetered(verb, path, M.Ran(flushes, h, script, errorText).headers, orgID, statusCode, start);
    OcrRequestsAreMetered(verb, path, M.Told(h, reply, errorText).headers, orgID, statusCode, start);
  }

  /** The part of the response writer that metering reads. */
  class StatusWriter {
    var statusCode: int
    var orgID: string

    constructor ()
      ensures statusCode == 200 && orgID == ""
    {
      statusCode, orgID := 200, "";
    }

    method WriteHeader(code: int)
      modifies this
      ensures statusCode == code && orgID == old(orgID)
    {
      statusCode := code;
    }

    method SetRequestContext(org: string)
      modifies this
      ensures orgID == org && statusCode == old(statusCode)
    {
      orgID := org;
    }
  }

  /** What UsageMetering does after the handler has returned. */
  method DispatchUsage(recorder: UsageRecorder<UsageRecord>, w: StatusWriter, verb: string, path: string, headers: Headers, start: int)
    modifies recorder
    ensures
      var metered := Metered(verb, path, headers, w.orgID, w.statusCode, start);
      recorder.View() == if metered.None? then old(recorder.View()) else old(recorder.View()).Offer(metered.value)
  {
    if Excluded(path) {
      return;
    }
    if REPLAYED in headers && headers[REPLAYED] != [] && headers[REPLAYED][0] == "true" {
      return;
    }
    if w.orgID == "" {
      return;
    }
    recorder.Record(Some(UsageRecord(w.orgID, verb, path, w.statusCode, start)));
  }

  // ---- The check ----

  /** What the counting query counts. */
  predicate Counts(rec: UsageRecord, orgID: string, since: int) {
    rec.orgID == orgID && rec.timestamp >= since && OCR_PREFIX <= rec.endpoint && rec.statusCode < 400
  }

  function MonthlyCount(table: seq<UsageRecord>, orgID: string, since: int): nat {
    if table == [] then 0
    else MonthlyCount(table[..|table| - 1], orgID, since) + (if Counts(table[|table| - 1], orgID, since) then 1 else 0)
  }

  datatype Quota = Quota(allowed: bool, remaining: int, limit: int)

  function CheckQuota(table: seq<UsageRecord>, orgID: string, since: int, limit: int): Quota {
    var remaining := limit - MonthlyCount(table, orgID, since);
    if remaining <= 0 then Quota(false, 0, limit) else Quota(true, remaining, limit)
  }

  // ---- One organisation among all that share the recorder ----

  /** A successful OCR call of the organisation in the cycle. */
  predicate IsCall(rec: UsageRecord, orgID: string, since: int) {
    rec.RunsOcr() && Counts(rec, orgID, since)
  }

  function Calls(records: seq<UsageRecord>, orgID: string, since: int): nat {
    if records == [] then 0
    else Calls(records[..|records| - 1], orgID, since) + (if IsCall(records[|records| - 1], orgID, since) then 1 else 0)
  }

  /** The organisation, the start of its billing cycle, and its plan's monthly quota. */
  datatype Account = Account(orgID: string, since: int, quota: nat)

  /**
   * - running: OCR requests of the organisation that were let through and whose handler has not finished
   * - finished: successful ones that are not yet offered to the recorder
   * - successes: successful ones so far
   * - lost: those whose record was dropped or could not be written
   */
  datatype World = World(
    recorder: Recorder<UsageRecord>,
    table: seq<UsageRecord>,
    running: nat,
    finished: nat,
    successes: nat,
    lost: nat)

  datatype Event =
    | Check
    | Succeed
    | Fail
    | Record(rec: UsageRecord)
    | Other(rec: UsageRecord)
    | Receive
    | Write(ok: bool)
    | Shutdown

  function Start(bufferSize: int): World {
    World(NewRecorder(bufferSize), [], 0, 0, 0, 0)
  }

  predicate Enabled(a: Account, w: World, e: Event) {
    match e
    case Check => true
    case Succeed | Fail => w.running > 0
    case Record(rec) => w.finished > 0 && IsCall(rec, a.orgID, a.since)
    case Other(rec) => !IsCall(rec, a.orgID, a.since)
    case Receive => w.recorder.CanTake()
    case Write(_) => w.recorder.hand.Some?
    case Shutdown => true
  }

  function Step(a: Account, w: World, e: Event): World
    requires Enabled(a, w, e)
  {
    match e
    case Check => if CheckQuota(w.table, a.orgID, a.since, a.quota).allowed then w.(running := w.running + 1) else w
    case Succeed => w.(running := w.running - 1, finished := w.finished + 1, successes := w.successes + 1)
    case Fail => w.(running := w.running - 1)
    case Record(rec) =>
      w.(recorder := w.recorder.Offer(rec), finished := w.finished - 1,
         lost := if w.recorder.Accepts() then w.lost else w.lost + 1)
    case Other(rec) => w.(recorder := w.recorder.Offer(rec))
    case Receive => w.(recorder := w.recorder.Take())
    case Write(ok) =>
      var rec := w.recorder.hand.value;
      var next := w.(recorder := w.recorder.Handle());
      if ok then next.(table := w.table + [rec])
      else if IsCall(rec, a.orgID, a.since) then next.(lost := w.lost + 1)
      else next
    case Shutdown => w.(recorder := w.recorder.Close())
  }

  /** At most `most` requests of the organisation are in flight, up to and including their metering. */
  predicate Concurrent(w: World, most: nat) {
    w.running + w.finished <= most
  }

  predicate Legal(a: Account, most: nat, w: World, es: seq<Event>)
    decreases |es|
  {
    es == [] ||
    (Enabled(a, w, es[0]) && Concurrent(Step(a, w, es[0]), most) && Legal(a, most, Step(a, w, es[0]), es[1..]))
  }

  function Run(a: Account, most: nat, w: World, es: seq<Event>): World
    requires Legal(a, most, w, es)
    decreases |es|
  {
    if es == [] then w else Run(a, most, Step(a, w, es[0]), es[1..])
  }

  // ---- The overshoot bound ----

  lemma CallsOfConcat(xs: seq<UsageRecord>, rec: UsageRecord, orgID: string, since: int)
    ensures Calls(xs + [rec], orgID, since) == Calls(xs, orgID, since) + (if IsCall(rec, orgID, since) then 1 else 0)
    ensures MonthlyCount(xs + [rec], orgID, since)
         == MonthlyCount(xs, orgID, since) + (if Counts(rec, orgID, since) then 1 else 0)
  {
    assert (xs + [rec])[..|xs|] == xs;
  }

  lemma {:induction false} CallsOfTail(xs: seq<UsageRecord>, orgID: string, since: int)
    requires xs != []
    ensures Calls(xs, orgID, since) == (if IsCall(xs[0], orgID, since) then 1 else 0) + Calls(xs[1..], orgID, since)
    decreases |xs|
  {
    var front := xs[..|xs| - 1];
    if front != [] {
      CallsOfTail(front, orgID, since);
      assert xs[1..][..|xs| - 2] == front[1..];
    }
  }

  lemma {:induction false} CallsAreFew(xs: seq<UsageRecord>, orgID: string, since: int)
    ensures Calls(xs, orgID, since) <= |xs|
    ensures Calls(xs, orgID, since) <= MonthlyCount(xs, orgID, since)
    decreases |xs|
  {
    if xs != [] {
      CallsAreFew(xs[..|xs| - 1], orgID, since);
    }
  }

  /** Every successful call is somewhere on its way to the table, in it, or lost. */
  ghost predicate Inv(a: Account, most: nat, w: World) {
    && Concurrent(w, most)
    && |w.recorder.buffer| <= w.recorder.capacity
    && w.successes == w.finished + Calls(w.recorder.buffer, a.orgID, a.since)
         + Calls(w.recorder.InHand(), a.orgID, a.since) + Calls(w.table, a.orgID, a.since) + w.lost
    && w.successes + w.running <= a.quota + most + w.recorder.capacity + w.lost
  }

  lemma CheckKeepsInv(a: Account, most: nat, w: World)
    requires Inv(a, most, w) && Concurrent(Step(a, w, Check), most)
    ensures Inv(a, most, Step(a, w, Check))
  {
    CallsAreFew(w.table, a.orgID, a.since);
    CallsAreFew(w.recorder.buffer, a.orgID, a.since);
    CallsAreFew(w.recorder.InHand(), a.orgID, a.since);
  }

  lemma OfferKeepsInv(a: Account, most: nat, w: World, e: Event)
    requires Inv(a, most, w) && Enabled(a, w, e) && (e.Record? || e.Other?)
    ensures Inv(a, most, Step(a, w, e))
  {
    CallsOfConcat(w.recorder.buffer, e.rec, a.orgID, a.since);
    assert Step(a, w, e).recorder.InHand() == w.recorder.InHand();
  }

  lemma ReceiveKeepsInv(a: Account, most: nat, w: World)
    requires Inv(a, most, w) && Enabled(a, w, Receive)
    ensures Inv(a, most, Step(a, w, Receive))
  {
    var rec := w.recorder.buffer[0];
    CallsOfTail(w.recorder.buffer, a.orgID, a.since);
    CallsOfConcat([], rec, a.orgID, a.since);
    assert [] + [rec] == [rec];
  }

  lemma WriteKeepsInv(a: Account, most: nat, w: World, ok: bool)
    requires Inv(a, most, w) && Enabled(a, w, Write(ok))
    ensures Inv(a, most, Step(a, w, Write(ok)))
  {
    var rec := w.recorder.hand.value;
    CallsOfConcat([], rec, a.orgID, a.since);
    assert [] + [rec] == [rec];
    CallsOfConcat(w.table, rec, a.orgID, a.since);
  }

  lemma StepKeepsInv(a: Account, most: nat, w: World, e: Event)
    requires Inv(a, most, w) && Enabled(a, w, e) && Concurrent(Step(a, w, e), most)
    ensures Inv(a, most, Step(a, w, e)) && Step(a, w, e).recorder.capacity == w.recorder.capacity
  {
    match e
    case Check => CheckKeepsInv(a, most, w);
    case Record(_) => OfferKeepsInv(a, most, w, e);
    case Other(_) => OfferKeepsInv(a, most, w, e);
    case Receive => ReceiveKeepsInv(a, most, w);
    case Write(ok) => WriteKeepsInv(a, most, w, ok);
    case Succeed | Fail | Shutdown =>
  }

  lemma {:induction false} RunKeepsInv(a: Account, most: nat, w: World, es: seq<Event>)
    requires Inv(a, most, w) && Legal(a, most, w, es)
    ensures Inv(a, most, Run(a, most, w, es)) && Run(a, most, w, es).recorder.capacity == w.recorder.capacity
    decreases |es|
  {
    if es != [] {
      StepKeepsInv(a, most, w, es[0]);
      RunKeepsInv(a, most, Step(a, w, es[0]), es[1..]);
    }
  }

  /**
   * Over every interleaving of checks, finishes, enqueues, drops and writes, also those of other
   * organisations, the successful OCR calls of a cycle never exceed the quota by more than the
   * organisation's concurrency plus the recorder's buffer plus the records that were lost.
   */
  lemma OvershootIsBounded(a: Account, most: nat, bufferSize: int, es: seq<Event>)
    requires Legal(a, most, Start(bufferSize), es)
    ensures
      var w := Run(a, most, Start(bufferSize), es);
      w.successes <= a.quota + most + w.recorder.capacity + w.lost
  {
    RunKeepsInv(a, most, Start(bufferSize), es);
  }

  // ---- The bound is attained ----

  ghost predicate Reachable(a: Account, most: nat, bufferSize: int, w: World) {
    exists es :: Legal(a, most, Start(bufferSize), es) && Run(a, most, Start(bufferSize), es) == w
  }

  lemma {:induction false} RunExtends(a: Account, most: nat, w: World, es: seq<Event>, e: Event)
    requires Legal(a, most, w, es)
    requires
      var w' := Run(a, most, w, es);
      Enabled(a, w', e) && Concurrent(Step(a, w', e), most)
    ensures Legal(a, most, w, es + [e]) && Run(a, most, w, es + [e]) == Step(a, Run(a, most, w, es), e)
    decreases |es|
  {
    if es == [] {
      assert [] + [e] == [e] && [e][1..] == [];
      assert Legal(a, most, Step(a, w, e), []);
    } else {
      assert (es + [e])[1..] == es[1..] + [e];
      RunExtends(a, most, Step(a, w, es[0]), es[1..], e);
    }
  }

  lemma ReachableStep(a: Account, most: nat, bufferSize: int, w: World, e: Event)
    requires Reachable(a, most, bufferSize, w) && Enabled(a, w, e) && Concurrent(Step(a, w, e), most)
    ensures Reachable(a, most, bufferSize, Step(a, w, e))
  {
    var es :| Legal(a, most, Start(bufferSize), es) && Run(a, most, Start(bufferSize), es) == w;
    RunExtends(a, most, Start(bufferSize), es, e);
  }

  /** One call that is checked, succeeds and is offered to the recorder while the quota is not used up. */
  lemma OneCall(a: Account, most: nat, bufferSize: int, w: World, rec: UsageRecord) returns (w': World)
    requires Reachable(a, most, bufferSize, w) && most >= 1 && w.running == 0 && w.finished == 0
    requires MonthlyCount(w.table, a.orgID, a.since) < a.quota && IsCall(rec, a.orgID, a.since)
    ensures Reachable(a, most, bufferSize, w')
    ensures w' == w.(recorder := w.recorder.Offer(rec), successes := w.successes + 1,
                     lost := if w.recorder.Accepts() then w.lost else w.lost + 1)
  {
    ReachableStep(a, most, bufferSize, w, Check);
    w' := Step(a, w, Check);
    ReachableStep(a, most, bufferSize, w', Succeed);
    w' := Step(a, w', Succeed);
    ReachableStep(a, most, bufferSize, w', Record(rec));
    w' := Step(a, w', Record(rec));
  }

  /** A world in which nothing is in flight or lost. */
  ghost predicate Quiet(w: World, bufferSize: int) {
    w.running == 0 && w.finished == 0 && w.lost == 0 && !w.recorder.closed
    && w.recorder.capacity == NewRecorder<UsageRecord>(bufferSize).capacity
  }

  /** All but one of the quota is used and written. */
  lemma UseQuota(a: Account, most: nat, bufferSize: int, rec: UsageRecord) returns (w: World)
    requires a.quota >= 1 && most >= 1 && IsCall(rec, a.orgID, a.since)
    ensures Reachable(a, most, bufferSize, w) && Quiet(w, bufferSize)
    ensures w.recorder.buffer == [] && w.recorder.hand.None?
    ensures w.successes == a.quota - 1 == MonthlyCount(w.table, a.orgID, a.since)
  {
    w := Start(bufferSize);
    assert Legal(a, most, w, []) && Run(a, most, w, []) == w;
    while w.successes < a.quota - 1
      invariant Reachable(a, most, bufferSize, w) && Quiet(w, bufferSize)
      invariant w.recorder.buffer == [] && w.recorder.hand.None?
      invariant w.successes == MonthlyCount(w.table, a.orgID, a.since) <= a.quota - 1
    {
      CallsOfConcat(w.table, rec, a.orgID, a.since);
      w := OneCall(a, most, bufferSize, w, rec);
      ReachableStep(a, most, bufferSize, w, Receive);
      w := Step(a, w, Receive);
      ReachableStep(a, most, bufferSize, w, Write(true));
      w := Step(a, w, Write(true));
    }
  }

  /** One record stays in the worker's hands and the buffer fills up behind it. */
  lemma FillBuffer(a: Account, most: nat, bufferSize: int, rec: UsageRecord, start: World) returns (w: World)
    requires most >= 1 && IsCall(rec, a.orgID, a.since)
    requires Reachable(a, most, bufferSize, start) && Quiet(start, bufferSize)
    requires start.recorder.buffer == [] && start.recorder.hand.None?
    requires MonthlyCount(start.table, a.orgID, a.since) < a.quota
    ensures Reachable(a, most, bufferSize, w) && Quiet(w, bufferSize) && w.table == start.table
    ensures w.successes == start.successes + 1 + w.recorder.capacity
  {
    w := OneCall(a, most, bufferSize, start, rec);
    ReachableStep(a, most, bufferSize, w, Receive);
    w := Step(a, w, Receive);
    while |w.recorder.buffer| < w.recorder.capacity
      invariant Reachable(a, most, bufferSize, w) && Quiet(w, bufferSize) && w.table == start.table
      invariant w.successes == start.successes + 1 + |w.recorder.buffer|
      invariant |w.recorder.buffer| <= w.recorder.capacity
      decreases w.recorder.capacity - |w.recorder.buffer|
    {
      w := OneCall(a, most, bufferSize, w, rec);
    }
  }

  /** As many requests as may run at once are let through before any of them succeeds. */
  lemma BurstSucceeds(a: Account, most: nat, bufferSize: int, start: World) returns (w: World)
    requires Reachable(a, most, bufferSize, start) && Quiet(start, bufferSize)
    requires MonthlyCount(start.table, a.orgID, a.since) < a.quota
    ensures Reachable(a, most, bufferSize, w)
    ensures w.successes == start.successes + most && w.lost == 0 && w.recorder.capacity == start.recorder.capacity
  {
    w := start;
    while w.running < most
      invariant Reachable(a, most, bufferSize, w) && w == start.(running := w.running) && w.running <= most
      decreases most - w.running
    {
      ReachableStep(a, most, bufferSize, w, Check);
      w := Step(a, w, Check);
    }
    while w.running > 0
      invariant Reachable(a, most, bufferSize, w)
      invariant w.running + w.finished == most && w.successes == start.successes + w.finished
      invariant w.lost == 0 && w.recorder.capacity == start.recorder.capacity
      decreases w.running
    {
      ReachableStep(a, most, bufferSize, w, Succeed);
      w := Step(a, w, Succeed);
    }
  }

  /** For every quota, concurrency and buffer size some run reaches the bound with nothing lost. */
  lemma OvershootIsReached(a: Account, most: nat, bufferSize: int) returns (w: World)
    requires a.quota >= 1 && most >= 1
    ensures Reachable(a, most, bufferSize, w)
    ensures w.lost == 0 && w.successes == a.quota + most + w.recorder.capacity
  {
    var rec := UsageRecord(a.orgID, "POST", "/api/v1/ocr/ktp", 200, a.since);
    w := UseQuota(a, most, bufferSize, rec);
    w := FillBuffer(a, most, bufferSize, rec, w);
    w := BurstSucceeds(a, most, bufferSize, w);
  }

  // ---- What the counting query counts besides calls ----

  /** Records that the query counts although they ran no OCR. */
  function LookUps(table: seq<UsageRecord>, orgID: string, since: int): nat {
    if table == [] then 0
    else
      var last := table[|table| - 1];
      LookUps(table[..|table| - 1], orgID, since) + (if Counts(last, orgID, since) && !last.RunsOcr() then 1 else 0)
  }

  /** The query's result is the number of successful OCR calls and that of successful look-ups. */
  lemma {:induction false} CountIsCallsAndLookUps(table: seq<UsageRecord>, orgID: string, since: int)
    ensures MonthlyCount(table, orgID, since) == Calls(table, orgID, since) + LookUps(table, orgID, since)
    ensures LookUps(table, orgID, since) == 0
      <==> forall i | 0 <= i < |table| :: Counts(table[i], orgID, since) ==> table[i].RunsOcr()
    decreases |table|
  {
    if table != [] {
      var front := table[..|table| - 1];
      CountIsCallsAndLookUps(front, orgID, since);
      assert forall i | 0 <= i < |front| :: front[i] == table[i];
    }
  }

  /** The query counts the successful OCR calls, as it is described, exactly when every record it counts ran OCR. */
  lemma CountIsCallsExactly(table: seq<UsageRecord>, orgID: string, since: int)
    ensures MonthlyCount(table, orgID, since) == Calls(table, orgID, since)
      <==> forall i | 0 <= i < |table| && table[i].orgID == orgID && table[i].timestamp >= since
                      && "/api/v1/ocr/" <= table[i].endpoint && table[i].statusCode < 400
           :: table[i].verb == "POST"
              && table[i].endpoint in {
                   "/api/v1/ocr/ktp", "/api/v1/ocr/sim", "/api/v1/ocr/passport",
                   "/api/v1/ocr/npwp", "/api/v1/ocr/kk", "/api/v1/ocr/invoice"}
  {
    CountIsCallsAndLookUps(table, orgID, since);
  }

  /**
   * An organisation is refused exactly when its written calls and look-ups together reach the quota; so
   * one without successful look-ups is refused exactly when its calls do.
   */
  lemma RefusedExactly(table: seq<UsageRecord>, a: Account)
    ensures !CheckQuota(table, a.orgID, a.since, a.quota).allowed
      <==> Calls(table, a.orgID, a.since) + LookUps(table, a.orgID, a.since) >= a.quota
    ensures (forall i | 0 <= i < |table| :: Counts(table[i], a.orgID, a.since) ==> table[i].RunsOcr()) ==>
      (!CheckQuota(table, a.orgID, a.since, a.quota).allowed <==> Calls(table, a.orgID, a.since) >= a.quota)
  {
    CountIsCallsAndLookUps(table, a.orgID, a.since);
  }

  function LookUp(a: Account): UsageRecord {
    UsageRecord(a.orgID, "GET", OCR_PREFIX + "some-id", 200, a.since)
  }

  /**
   * The query counts by path and status alone, so successful look-ups under the OCR path use up the
   * quota as well: every quota can be exhausted without a single OCR call.
   */
  lemma LookUpsExhaustTheQuota(a: Account, bufferSize: int) returns (w: World)
    ensures Reachable(a, 0, bufferSize, w) && w.successes == 0
    ensures !CheckQuota(w.table, a.orgID, a.since, a.quota).allowed
  {
    var rec := LookUp(a);
    assert Counts(rec, a.orgID, a.since);
    w := Start(bufferSize);
    assert Legal(a, 0, w, []) && Run(a, 0, w, []) == w;
    while MonthlyCount(w.table, a.orgID, a.since) < a.quota
      invariant Reachable(a, 0, bufferSize, w) && Quiet(w, bufferSize) && w.successes == 0
      invariant w.recorder.buffer == [] && w.recorder.hand.None?
      decreases a.quota - MonthlyCount(w.table, a.orgID, a.since)
    {
      CallsOfConcat(w.table, rec, a.orgID, a.since);
      ReachableStep(a, 0, bufferSize, w, Other(rec));
      w := Step(a, w, Other(rec));
      ReachableStep(a, 0, bufferSize, w, Receive);
      w := Step(a, w, Receive);
      ReachableStep(a, 0, bufferSize, w, Write(true));
      w := Step(a, w, Write(true));
    }
  }
}
