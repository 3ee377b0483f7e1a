// The response writer of the idempotency middleware, and one whole request through it.

module IdempotencyMiddleware {
  import opened Options
  import opened Units
  import opened HttpHeaders
  import opened Records
  import opened IdempotencyStores
  import opened Sealing
  import P = IdempotencyProtocol
  import R = IdempotencyRetries

  // ---- What a handler does, and what comes of it ----

  /** What a handler does to its response writer; `PutHeader` is any change to a name in the header map. */
  datatype Action = PutHeader(name: string, values: seq<string>) | WriteHeader(code: int) | Write(bytes: Bytes) | Flush

  /** A handler: what it does in order, and whether it then panics. */
  datatype Script = Script(actions: seq<Action>, panics: bool)

  /** The status and body of a response so far, on the wire or in the kept copy. */
  datatype Wire = Wire(statusCode: int, wroteHeader: bool, body: Bytes) {

    /** Only the first status counts. */
    function Status(code: int): Wire {
      if wroteHeader then this else Wire(code, true, body)
    }

    /** Writing without a status commits 200. */
    function Append(b: Bytes): Wire {
      this.(wroteHeader := true, body := body + b)
    }

    predicate Valid() {
      wroteHeader || statusCode == 200
    }
  }

  const FRESH := Wire(200, false, [])

  /** What an action does to a response: where flushing is possible it commits the status, as a write does. */
  function On(flushes: bool, w: Wire, a: Action): Wire {
    match a
    case PutHeader(_, _) => w
    case WriteHeader(code) => w.Status(code)
    case Write(b) => w.Append(b)
    case Flush => if flushes then w.Append([]) else w
  }

  function AllOn(flushes: bool, w: Wire, actions: seq<Action>): Wire {
    if actions == [] then w
    else On(flushes, AllOn(flushes, w, actions[..|actions| - 1]), actions[|actions| - 1])
  }

  /** The status and body that the client gets; `flushes` says whether its connection can be flushed. */
  function Sent(flushes: bool, actions: seq<Action>): Wire {
    AllOn(flushes, FRESH, actions)
  }

  /** What the kept copy holds: a flush is passed on and leaves no trace in it. */
  function Copied(actions: seq<Action>): Wire {
    AllOn(false, FRESH, actions)
  }

  predicate Commits(flushes: bool, a: Action) {
    a.WriteHeader? || a.Write? || (flushes && a.Flush?)
  }

  /** The action that commits the status. */
  function Commit(flushes: bool, actions: seq<Action>): Option<Action> {
    if actions == [] then None
    else
      var last, first := actions[|actions| - 1], Commit(flushes, actions[..|actions| - 1]);
      if first.None? && Commits(flushes, last) then Some(last) else first
  }

  /** The response is flushed first, and only then given a status other than the 200 that this commits. */
  predicate FlushedTooSoon(actions: seq<Action>) {
    && Commit(true, actions) == Some(Flush)
    && Commit(false, actions).Some? && Commit(false, actions).value.WriteHeader? && Commit(false, actions).value.code != 200
  }

  lemma {:induction false} StatusIsCommitted(flushes: bool, actions: seq<Action>)
    ensures
      var w, a := Sent(flushes, actions), Commit(flushes, actions);
      && (w.wroteHeader <==> a.Some?)
      && w.statusCode == (if a.Some? && a.value.WriteHeader? then a.value.code else 200)
    decreases |actions|
  {
    if actions != [] {
      StatusIsCommitted(flushes, actions[..|actions| - 1]);
    }
  }

  lemma {:induction false} BodiesAgree(flushes: bool, actions: seq<Action>)
    ensures Sent(flushes, actions).body == Copied(actions).body
    decreases |actions|
  {
    if actions != [] {
      BodiesAgree(flushes, actions[..|actions| - 1]);
    }
  }

  /** A flush only ever comes in front of the action that commits the copy. */
  lemma {:induction false} FlushComesFirst(actions: seq<Action>)
    ensures Commit(true, actions) == Some(Flush) || Commit(true, actions) == Commit(false, actions)
    decreases |actions|
  {
    if actions != [] {
      FlushComesFirst(actions[..|actions| - 1]);
    }
  }

  /**
   * The kept copy has the client's body; it has the client's status as well exactly when the connection
   * cannot be flushed or nothing was flushed too soon.
   */
  lemma CopyMirrorsExactly(flushes: bool, actions: seq<Action>)
    ensures Copied(actions).body == Sent(flushes, actions).body
    ensures Copied(actions).statusCode == Sent(flushes, actions).statusCode <==> !(flushes && FlushedTooSoon(actions))
  {
    BodiesAgree(flushes, actions);
    StatusIsCommitted(flushes, actions);
    StatusIsCommitted(false, actions);
    FlushComesFirst(actions);
  }

  // ---- Headers ----

  /** What a client receives: `headers` is the header map as it is now, `sent` as it was when the status was committed. */
  datatype Response = Response(wire: Wire, headers: Headers, sent: Headers) {

    function Put(name: string, values: seq<string>): Response {
      this.(headers := headers[name := values])
    }

    /** The response with `w` as its status and body; committing the status sends the headers. */
    function With(w: Wire): Response {
      Response(w, headers, if w.wroteHeader && !wire.wroteHeader then headers else sent)
    }

    function Error(code: int, text: Bytes): Response {
      var r := Put("Content-Type", ["application/json"]);
      r.With(wire.Status(code).Append(text))
    }

    /** A response whose status is never committed is sent at the end of the request. */
    function Received(): Headers {
      if wire.wroteHeader then sent else headers
    }
  }

  /** Nothing is sent yet; `headers` are those set before the request came here. */
  function Fresh(headers: Headers): Response {
    Response(FRESH, headers, map[])
  }

  function OnClient(flushes: bool, r: Response, a: Action): Response {
    match a
    case PutHeader(name, values) => r.Put(name, values)
    case _ => r.With(On(flushes, r.wire, a))
  }

  function AllOnClient(flushes: bool, r: Response, actions: seq<Action>): Response {
    if actions == [] then r
    else OnClient(flushes, AllOnClient(flushes, r, actions[..|actions| - 1]), actions[|actions| - 1])
  }

  /** The header map that a handler leaves. */
  function HeadersLeft(h: Headers, actions: seq<Action>): Headers {
    if actions == [] then h
    else
      var last, before := actions[|actions| - 1], HeadersLeft(h, actions[..|actions| - 1]);
      if last.PutHeader? then before[last.name := last.values] else before
  }

  lemma {:induction false} ClientGets(flushes: bool, r: Response, actions: seq<Action>)
    ensures AllOnClient(flushes, r, actions).wire == AllOn(flushes, r.wire, actions)
    ensures AllOnClient(flushes, r, actions).headers == HeadersLeft(r.headers, actions)
    decreases |actions|
  {
    if actions != [] {
      ClientGets(flushes, r, actions[..|actions| - 1]);
    }
  }

  /** What a handler puts under a name last is what it leaves there; a name it puts nothing under keeps what it had. */
  lemma {:induction false} LastPutStays(h: Headers, actions: seq<Action>, i: nat, name: string)
    requires i <= |actions| && forall j | i <= j < |actions| && actions[j].PutHeader? :: actions[j].name != name
    ensures i > 0 && actions[i - 1].PutHeader? && actions[i - 1].name == name ==>
      name in HeadersLeft(h, actions) && HeadersLeft(h, actions)[name] == actions[i - 1].values
    ensures i == 0 ==> (name in HeadersLeft(h, actions) <==> name in h)
    ensures i == 0 && name in h ==> HeadersLeft(h, actions)[name] == h[name]
    decreases |actions|
  {
    if i < |actions| {
      LastPutStays(h, actions[..|actions| - 1], i, name);
    }
  }

  /** The handler changes a header when the headers have been sent. */
  predicate PutsLate(flushes: bool, actions: seq<Action>, name: string) {
    actions != [] &&
    var last, before := actions[|actions| - 1], actions[..|actions| - 1];
    PutsLate(flushes, before, name) || (last.PutHeader? && last.name == name && Sent(flushes, before).wroteHeader)
  }

  /** Every other header is sent as the handler leaves it. */
  lemma {:induction false} HeadersSettle(flushes: bool, h: Headers, actions: seq<Action>, name: string)
    requires !PutsLate(flushes, actions, name)
    ensures
      var r := AllOnClient(flushes, Fresh(h), actions);
      && (name in r.Received() <==> name in r.headers)
      && (name in r.headers ==> r.Received()[name] == r.headers[name])
    decreases |actions|
  {
    if actions != [] {
      HeadersSettle(flushes, h, actions[..|actions| - 1], name);
      ClientGets(flushes, Fresh(h), actions[..|actions| - 1]);
    }
  }

  // ---- The objects ----

  /** What a client receives. */
  class Client {
    const flushes: bool
    var statusCode: int
    var wroteHeader: bool
    var body: Bytes
    var headers: Headers
    var sent: Headers

    ghost function View(): Response
      reads this
    {
      Response(Wire(statusCode, wroteHeader, body), headers, sent)
    }

    constructor (flushes: bool, headers: Headers)
      ensures View() == Fresh(headers) && this.flushes == flushes
    {
      this.flushes := flushes;
      statusCode, wroteHeader, body, this.headers, sent := 200, false, [], headers, map[];
    }

    method PutHeader(name: string, values: seq<string>)
      modifies this
      ensures View() == OnClient(flushes, old(View()), Action.PutHeader(name, values))
    {
      headers := headers[name := values];
    }

    /** Sets each of `values` in the header map. */
    method SetHeaders(values: map<string, string>)
      modifies this
      ensures View() == old(View()).(headers := SetAll(old(headers), values))
    {
      ghost var before := headers;
      var todo := values.Keys;
      while todo != {}
        invariant todo <= values.Keys
        invariant View() == old(View()).(headers := headers)
        invariant headers.Keys == before.Keys + (values.Keys - todo)
        invariant forall name | name in headers ::
                    headers[name] == if name in values && name !in todo then [values[name]] else before[name]
        decreases todo
      {
        var name :| name in todo;
        headers := headers[name := [values[name]]];
        todo := todo - {name};
      }
      assert headers == SetAll(before, values);
    }

    method WriteHeader(code: int)
      modifies this
      ensures View() == OnClient(flushes, old(View()), Action.WriteHeader(code))
    {
      if !wroteHeader {
        statusCode, wroteHeader, sent := code, true, headers;
      }
    }

    method Write(b: Bytes)
      modifies this
      ensures View() == OnClient(flushes, old(View()), Action.Write(b))
    {
      if !wroteHeader {
        wroteHeader, sent := true, headers;
      }
      body := body + b;
    }

    method Flush()
      modifies this
      ensures View() == OnClient(flushes, old(View()), Action.Flush)
    {
      if flushes && !wroteHeader {
        wroteHeader, sent := true, headers;
      }
    }

    /** A handler that writes to the client directly. */
    method Serve(actions: seq<Action>)
      modifies this
      ensures View() == AllOnClient(flushes, old(View()), actions)
    {
      for i := 0 to |actions|
        invariant View() == AllOnClient(flushes, old(View()), actions[..i])
      {
        assert actions[..i + 1][..i] == actions[..i];
        match actions[i] {
          case PutHeader(name, values) => PutHeader(name, values);
          case WriteHeader(code) => WriteHeader(code);
          case Write(b) => Write(b);
          case Flush => Flush();
        }
      }
      assert actions[..|actions|] == actions;
    }

    method SendError(code: int, text: Bytes)
      modifies this
      ensures View() == old(View()).Error(code, text)
    {
      PutHeader("Content-Type", ["application/json"]);
      WriteHeader(code);
      Write(text);
    }
  }

  /** Passes a response through to the client and keeps a copy of it. */
  class ResponseWriter {
    const underlying: Client
    var statusCode: int
    var wroteHeader: bool
    var body: Bytes

    ghost function View(): Wire
      reads this
    {
      Wire(statusCode, wroteHeader, body)
    }

    ghost predicate Valid()
      reads this, underlying
    {
      View().Valid() && underlying.View().wire.Valid() && (wroteHeader ==> underlying.wroteHeader)
    }

    constructor (client: Client)
      requires client.View().wire == FRESH
      ensures Valid() && underlying == client && View() == FRESH
    {
      underlying := client;
      statusCode, wroteHeader, body := 200, false, [];
    }

    /** The header map is the client's. */
    method PutHeader(name: string, values: seq<string>)
      requires Valid()
      modifies underlying
      ensures Valid() && underlying.View() == OnClient(underlying.flushes, old(underlying.View()), Action.PutHeader(name, values))
    {
      underlying.PutHeader(name, values);
    }

    method WriteHeader(code: int)
      requires Valid()
      modifies this, underlying
      ensures Valid() && View() == On(false, old(View()), Action.WriteHeader(code))
      ensures underlying.View() == OnClient(underlying.flushes, old(underlying.View()), Action.WriteHeader(code))
    {
      if !wroteHeader {
        statusCode := code;
        wroteHeader := true;
        underlying.WriteHeader(code);
      }
    }

    method Write(b: Bytes)
      requires Valid()
      modifies this, underlying
      ensures Valid() && View() == On(false, old(View()), Action.Write(b))
      ensures underlying.View() == OnClient(underlying.flushes, old(underlying.View()), Action.Write(b))
    {
      if !wroteHeader {
        WriteHeader(200);
      }
      body := body + b;
      underlying.Write(b);
    }

    /** Only the client learns of it. */
    method Flush()
      requires Valid()
      modifies underlying
      ensures Valid() && underlying.View() == OnClient(underlying.flushes, old(underlying.View()), Action.Flush)
    {
      underlying.Flush();
    }

    /** A handler that writes through this writer. */
    method Serve(actions: seq<Action>)
      requires Valid()
      modifies this, underlying
      ensures Valid() && View() == AllOn(false, old(View()), actions)
      ensures underlying.View() == AllOnClient(underlying.flushes, old(underlying.View()), actions)
    {
      for i := 0 to |actions|
        invariant Valid() && View() == AllOn(false, old(View()), actions[..i])
        invariant underlying.View() == AllOnClient(underlying.flushes, old(underlying.View()), actions[..i])
      {
        assert actions[..i + 1][..i] == actions[..i];
        match actions[i] {
          case PutHeader(name, values) => PutHeader(name, values);
          case WriteHeader(code) => WriteHeader(code);
          case Write(b) => Write(b);
          case Flush => Flush();
        }
      }
      assert actions[..|actions|] == actions;
    }
  }

  // ---- One request ----

  const DEFAULT_ORG := "00000000-0000-0000-0000-000000000001"
  const MAX_KEY_LENGTH := 256

  /** What the middleware makes of a handler that found the headers `h`: the response it has a copy of, or a panic. */
  function OutcomeOf(h: Headers, script: Script): P.Outcome {
    if script.panics then P.Panicked
    else
      var copy := Copied(script.actions);
      P.Responded(copy.statusCode, HeadersLeft(h, script.actions), copy.body)
  }

  /** The client of a request that ran the handler; after a panic an error is sent behind whatever went before. */
  function Ran(flushes: bool, h: Headers, script: Script, errorText: int -> Bytes): Response {
    var sent := AllOnClient(flushes, Fresh(h), script.actions);
    if script.panics then sent.Error(500, errorText(500)) else sent
  }

  /** The client of a request that is answered from the record. */
  function Told(h: Headers, reply: P.Reply, errorText: int -> Bytes): Response {
    match reply
    case Mismatch => Fresh(h).Error(422, errorText(422))
    case InProgressElsewhere => Fresh(h).Error(409, errorText(409))
    case Replayed(code, stored, body) =>
      Fresh(SetAll(h, stored)).Put(REPLAYED, ["true"]).With(FRESH.Status(code).Append(body))
    case ReplayFailed | StoreFailed => Fresh(h).Error(500, errorText(500))
  }

  /** The end of a request at the middleware. */
  datatype Served = PassedThrough | BadRequest | FromRecord(reply: P.Reply) | FromHandler

  /**
   * One request, with nothing of another request in between. `script` is what the handler does if it
   * runs, `hash` is None when the payload cannot be hashed, `nonce` comes from the random source, and
   * `errorText` gives the body of an error response.
   */
  method ServeHTTP(store: MemoryStore, sealer: Option<Aead>, orgID: string, key: string, hash: Option<string>,
                   client: Client, script: Script, errorText: int -> Bytes, nonce: Option<Bytes>, now: int)
    returns (served: Served)
    requires client.View() == Fresh(client.headers)
    modifies store, client
    ensures key == "" ==> served == PassedThrough && client.View() == AllOnClient(client.flushes, old(client.View()), script.actions)
    ensures key != "" && (|key| > 256 || hash.None?) ==>
      served == BadRequest && client.View() == old(client.View()).Error(400, errorText(400))
    ensures key == "" || |key| > 256 || hash.None? ==> store.records == old(store.records)
    ensures key != "" && |key| <= 256 && hash.Some? ==>
      var org := if orgID == "" then "00000000-0000-0000-0000-000000000001" else orgID;
      var k := StorageKey(org, key);
      var created := NewRecord(org, key, hash.value, now, 3_600_000_000_000);
      var (locked, rec, isNew) := Records.LockOrGet(Memory, old(store.records), k, created, now);
      if isNew then
        && served == FromHandler && client.View() == Ran(client.flushes, old(client.headers), script, errorText)
        && store.records == P.Conclude(sealer, locked, k, OutcomeOf(old(client.headers), script), nonce, true)
      else
        var reply := P.Answer(sealer, rec, hash.value);
        && served == FromRecord(reply) && client.View() == Told(old(client.headers), reply, errorText)
        && store.records == old(store.records)
  {
    if key == "" {
      client.Serve(script.actions);
      return PassedThrough;
    }
    if |key| > MAX_KEY_LENGTH || hash.None? {
      client.SendError(400, errorText(400));
      return BadRequest;
    }
    var org := if orgID == "" then DEFAULT_ORG else orgID;
    var answer := store.LockOrGet(org, key, hash.value, HOUR, now);
    if answer.isNew {
      RunHandler(store, sealer, org, key, client, script, errorText, nonce);
      return FromHandler;
    }
    var reply := Reply(sealer, answer.record, hash.value, client, errorText);
    return FromRecord(reply);
  }

  /** A request whose key was found. */
  method Reply(sealer: Option<Aead>, rec: Record, hash: string, client: Client, errorText: int -> Bytes) returns (reply: P.Reply)
    requires client.View() == Fresh(client.headers)
    modifies client
    ensures reply == P.Answer(sealer, rec, hash) && client.View() == Told(old(client.headers), reply, errorText)
  {
    if rec.requestHash != hash {
      client.SendError(422, errorText(422));
      return P.Mismatch;
    }
    if rec.status == InProgress {
      client.SendError(409, errorText(409));
      return P.InProgressElsewhere;
    }
    var plain := Open(sealer, rec.body);
    if plain.Err? {
      client.SendError(500, errorText(500));
      return P.ReplayFailed;
    }
    client.SetHeaders(rec.headers);
    client.PutHeader(REPLAYED, ["true"]);
    client.WriteHeader(rec.statusCode);
    client.Write(plain.value);
    return P.Replayed(rec.statusCode, rec.headers, plain.value);
  }

  /** A handler has answered: its response is kept, or the lock is given back. */
  method Persist(store: MemoryStore, sealer: Option<Aead>, org: string, key: string, statusCode: int, headers: Headers,
                 body: Bytes, nonce: Option<Bytes>)
    requires org != "" && key != ""
    modifies store
    ensures store.records
         == P.Conclude(sealer, old(store.records), StorageKey(org, key), P.Responded(statusCode, headers, body), nonce, true)
  {
    var error;
    if statusCode < 500 && statusCode != 429 {
      var sealed := Seal(sealer, nonce, body);
      if sealed.Err? {
        error := store.Release(org, key);
      } else {
        error := store.Complete(org, key, statusCode, FirstValues(headers), sealed.value);
      }
    } else {
      error := store.Release(org, key);
    }
  }

  /** A request that has taken the lock. */
  method RunHandler(store: MemoryStore, sealer: Option<Aead>, org: string, key: string, client: Client, script: Script,
                    errorText: int -> Bytes, nonce: Option<Bytes>)
    requires client.View() == Fresh(client.headers) && org != "" && key != ""
    modifies store, client
    ensures client.View() == Ran(client.flushes, old(client.headers), script, errorText)
    ensures store.records
         == P.Conclude(sealer, old(store.records), StorageKey(org, key), OutcomeOf(old(client.headers), script), nonce, true)
  {
    var rw := new ResponseWriter(client);
    rw.Serve(script.actions);
    ClientGets(client.flushes, old(client.View()), script.actions);
    if script.panics {
      var error := store.Release(org, key);
      client.SendError(500, errorText(500));
    } else {
      Persist(store, sealer, org, key, rw.statusCode, client.headers, rw.body, nonce);
    }
  }

  /** What the client of a replay receives. */
  lemma ReplayIs(sealer: Aead, rows: map<string, Record>, k: string, outcome: P.Outcome, h: Headers, nonce: Option<Bytes>,
                 errorText: int -> Bytes)
    requires sealer.OpensWhatItSeals() && (nonce.Some? ==> |nonce.value| == sealer.nonceSize)
    requires k in rows && P.Completes(Some(sealer), outcome, nonce)
    ensures
      var stored := P.Conclude(Some(sealer), rows, k, outcome, nonce, true)[k];
      var told := Told(h, P.Answer(Some(sealer), stored, rows[k].requestHash), errorText);
      && told.wire == FRESH.Status(outcome.code).Append(outcome.body)
      && told.Received() == SetAll(h, FirstValues(outcome.headers))[REPLAYED := ["true"]]
  {
    OpenAfterSeal(sealer, nonce, outcome.body);
  }

  /**
   * A replay sends the client of a later request the body that the first client received, and the status
   * as well exactly when the first connection could not be flushed or the handler did not flush too soon.
   * Every header that the handler left with a value has its first value again, and a header that it did not
   * change late the value that the first client received. `h` are the headers set before the first request
   * came here, `h'` before the later one.
   */
  lemma ReplayRepeatsTheResponse(sealer: Aead, rows: map<string, Record>, k: string, flushes: bool, h: Headers, h': Headers,
                                 script: Script, nonce: Option<Bytes>, errorText: int -> Bytes, name: string)
    requires sealer.OpensWhatItSeals() && (nonce.Some? ==> |nonce.value| == sealer.nonceSize)
    requires k in rows && P.Completes(Some(sealer), OutcomeOf(h, script), nonce)
    ensures
      var stored := P.Conclude(Some(sealer), rows, k, OutcomeOf(h, script), nonce, true)[k];
      var first := Ran(flushes, h, script, errorText);
      var later := Told(h', P.Answer(Some(sealer), stored, rows[k].requestHash), errorText);
      var left := HeadersLeft(h, script.actions);
      && later.wire.body == first.wire.body
      && (later.wire.statusCode == first.wire.statusCode <==> !(flushes && FlushedTooSoon(script.actions)))
      && "Idempotent-Replayed" in later.Received() && later.Received()["Idempotent-Replayed"] == ["true"]
      && (name != REPLAYED && name in left && left[name] != [] ==>
            && name in later.Received() && later.Received()[name] == [left[name][0]]
            && (!PutsLate(flushes, script.actions, name) ==> Get(later.Received(), name) == Get(first.Received(), name)))
  {
    ReplayIs(sealer, rows, k, OutcomeOf(h, script), h', nonce, errorText);
    CopyMirrorsExactly(flushes, script.actions);
    ClientGets(flushes, Fresh(h), script.actions);
    if !PutsLate(flushes, script.actions, name) {
      HeadersSettle(flushes, h, script.actions, name);
    }
  }

  /** The status that the first request's copy of its response ends with. */
  function KeptStatus(script: Script): int {
    Copied(script.actions).statusCode
  }

  /** The two requests with one key, on the store's own operations. */
  lemma SecondRequest(sealer: Option<Aead>, records: map<string, Record>, k: string, org: string, key: string,
                      hash: string, h: Headers, script: Script, nonce: Option<Bytes>, now: int,
                      hash': string, h': Headers, now': int, errorText: int -> Bytes)
    requires !(k in records && now <= records[k].expiresAt) && now' <= now + 3_600_000_000_000
    requires sealer.Some? ==> sealer.value.OpensWhatItSeals() && (nonce.Some? ==> |nonce.value| == sealer.value.nonceSize)
    requires sealer.None? ==> !HasMagic(Copied(script.actions).body)
    ensures
      var locked := Records.LockOrGet(Memory, records, k, NewRecord(org, key, hash, now, HOUR), now).0;
      var left := P.Conclude(sealer, locked, k, OutcomeOf(h, script), nonce, true);
      var (_, rec, isNew) := Records.LockOrGet(Memory, left, k, NewRecord(org, key, hash', now', HOUR), now');
      var told := Told(h', P.Answer(sealer, rec, hash'), errorText);
      && (isNew <==>
            || script.panics || KeptStatus(script) == 429 || KeptStatus(script) >= 500
            || R.CannotSeal(sealer, nonce, Copied(script.actions).body))
      && (!isNew ==>
            && told.wire.statusCode == (if hash' == hash then KeptStatus(script) else 422)
            && told.wire.body == (if hash' == hash then Copied(script.actions).body else errorText(422)))
  {
    if !script.panics && !R.CannotSeal(sealer, nonce, Copied(script.actions).body) {
      R.OpensAgain(sealer, nonce, Copied(script.actions).body);
    }
  }

  /** After a panic the client gets a 500, or, when the handler had sent something, the error behind that. */
  lemma PanicsAreTold(flushes: bool, h: Headers, script: Script, errorText: int -> Bytes)
    requires script.panics
    ensures
      var sent, r := Sent(flushes, script.actions), Ran(flushes, h, script, errorText);
      && r.wire.body == sent.body + errorText(500)
      && r.wire.statusCode == (if Commit(flushes, script.actions).Some? then sent.statusCode else 500)
  {
    ClientGets(flushes, Fresh(h), script.actions);
    StatusIsCommitted(flushes, script.actions);
  }

  /** While the first request is still at work the second is told so, and a body that does not open is an error. */
  lemma ErrorsAreTold(sealer: Option<Aead>, rec: Record, hash: string, h: Headers, errorText: int -> Bytes)
    requires rec.requestHash == hash
    ensures
      var told := Told(h, P.Answer(sealer, rec, hash), errorText);
      && (rec.status == InProgress ==> told.wire == Wire(409, true, errorText(409)))
      && (rec.status == Completed && Open(sealer, rec.body).Err? ==> told.wire == Wire(500, true, errorText(500)))
      && (rec.status == InProgress || Open(sealer, rec.body).Err? ==>
            "Content-Type" in told.Received() && told.Received()["Content-Type"] == ["application/json"])
  {
    assert forall b: Bytes :: [] + b == b;
  }
}
