// The asynchronous usage recorder: a bounded queue that drops when full, one worker, and a draining close.

module Recorders {
  import opened Options

  /**
   * - buffer: records in the channel
   * - hand: the record the worker is writing
   * - handled: records the worker is done with, whether or not the write succeeded
   * - accepted: records that entered the channel, in order
   * - dropped: records offered when the channel was full or closed
   * - exited: the worker's loop has ended
   */
  datatype Recorder<R> = Recorder(
    capacity: nat,
    closed: bool,
    buffer: seq<R>,
    hand: Option<R>,
    handled: seq<R>,
    accepted: seq<R>,
    dropped: seq<R>,
    exited: bool)
  {
    /** A closed channel is checked first; a full one drops. */
    predicate Accepts() {
      !closed && |buffer| < capacity
    }

    function Offer(rec: R): Recorder<R> {
      if Accepts() then this.(buffer := buffer + [rec], accepted := accepted + [rec])
      else this.(dropped := dropped + [rec])
    }

    predicate CanTake() {
      hand.None? && buffer != []
    }

    function Take(): Recorder<R>
      requires CanTake()
    {
      this.(hand := Some(buffer[0]), buffer := buffer[1..])
    }

    function Handle(): Recorder<R>
      requires hand.Some?
    {
      this.(hand := None, handled := handled + [hand.value])
    }

    function Close(): Recorder<R> {
      this.(closed := true)
    }

    /** The receive loop ends when the channel is closed and empty. */
    predicate CanExit() {
      closed && hand.None? && buffer == []
    }

    function Exit(): Recorder<R>
      requires CanExit()
    {
      this.(exited := true)
    }

    function InHand(): seq<R> {
      if hand.Some? then [hand.value] else []
    }

    ghost predicate Valid() {
      && accepted == handled + InHand() + buffer
      && |buffer| <= capacity
      && (exited ==> CanExit())
    }
  }

  function NewRecorder<R>(bufferSize: int): Recorder<R> {
    Recorder(if bufferSize <= 0 then 1024 else bufferSize, false, [], None, [], [], [], false)
  }

  datatype Event<R> = Offer(rec: R) | Take | Handle | Close | Exit

  predicate Enabled<R>(r: Recorder<R>, e: Event<R>) {
    match e
    case Offer(_) | Close => true
    case Take => r.CanTake()
    case Handle => r.hand.Some?
    case Exit => r.CanExit()
  }

  function Step<R>(r: Recorder<R>, e: Event<R>): Recorder<R>
    requires Enabled(r, e)
  {
    match e
    case Offer(rec) => r.Offer(rec)
    case Take => r.Take()
    case Handle => r.Handle()
    case Close => r.Close()
    case Exit => r.Exit()
  }

  predicate Legal<R>(r: Recorder<R>, es: seq<Event<R>>)
    decreases |es|
  {
    es == [] || (Enabled(r, es[0]) && Legal(Step(r, es[0]), es[1..]))
  }

  function Run<R>(r: Recorder<R>, es: seq<Event<R>>): Recorder<R>
    requires Legal(r, es)
    decreases |es|
  {
    if es == [] then r else Run(Step(r, es[0]), es[1..])
  }

  /** The records offered in a run. */
  function Offered<R>(es: seq<Event<R>>): seq<R> {
    if es == [] then [] else (if es[0].Offer? then [es[0].rec] else []) + Offered(es[1..])
  }

  lemma StepIsValid<R>(r: Recorder<R>, e: Event<R>)
    requires r.Valid() && Enabled(r, e)
    ensures Step(r, e).Valid()
  {
    match e
    case Offer(rec) =>
      assert r.handled + r.InHand() + (r.buffer + [rec]) == r.handled + r.InHand() + r.buffer + [rec];
    case Take =>
      assert r.handled + [] + r.buffer == r.handled + [r.buffer[0]] + r.buffer[1..];
    case Handle =>
      assert r.handled + [r.hand.value] + [] == r.handled + r.InHand();
    case Close =>
    case Exit =>
  }

  function OfferedBy<R>(e: Event<R>): seq<R> {
    if e.Offer? then [e.rec] else []
  }

  /** Every record ever offered, accepted or not. */
  ghost function Seen<R>(r: Recorder<R>): multiset<R> {
    multiset(r.accepted) + multiset(r.dropped)
  }

  lemma StepConserves<R>(r: Recorder<R>, e: Event<R>)
    requires Enabled(r, e)
    ensures Seen(Step(r, e)) == Seen(r) + multiset(OfferedBy(e))
    ensures r.closed ==> Step(r, e).closed && Step(r, e).accepted == r.accepted
  {
  }

  lemma {:induction false} RunConserves<R>(r: Recorder<R>, es: seq<Event<R>>)
    requires r.Valid() && Legal(r, es)
    ensures Run(r, es).Valid()
    ensures Seen(Run(r, es)) == Seen(r) + multiset(Offered(es))
    ensures r.closed ==> Run(r, es).closed && Run(r, es).accepted == r.accepted
    decreases |es|
  {
    if es != [] {
      StepIsValid(r, es[0]);
      StepConserves(r, es[0]);
      RunConserves(Step(r, es[0]), es[1..]);
      assert Offered(es) == OfferedBy(es[0]) + Offered(es[1..]);
    }
  }

  /**
   * In every run of a new recorder each offered record is either dropped or accepted. The accepted ones
   * are handled once each, in the order in which they were accepted: those handled, then the one in the
   * worker's hands, then those buffered. The buffer never exceeds its capacity.
   */
  lemma Conservation<R>(bufferSize: int, es: seq<Event<R>>)
    requires Legal(NewRecorder(bufferSize), es)
    ensures
      var r := Run(NewRecorder(bufferSize), es);
      && multiset(Offered(es)) == multiset(r.dropped) + multiset(r.handled) + multiset(r.InHand()) + multiset(r.buffer)
      && r.accepted == r.handled + r.InHand() + r.buffer
      && |r.buffer| <= r.capacity
  {
    RunConserves(NewRecorder(bufferSize), es);
    var r := Run(NewRecorder(bufferSize), es);
    assert Seen(NewRecorder<R>(bufferSize)) == multiset{};
    assert multiset(Offered(es)) == Seen(r);
    assert multiset(r.accepted) == multiset(r.handled) + multiset(r.InHand()) + multiset(r.buffer);
  }

  /** Nothing is sent after the close: from then on every offer is dropped and the accepted records stay the same. */
  lemma NoSendAfterClose<R>(r: Recorder<R>, es: seq<Event<R>>)
    requires r.Valid() && r.closed && Legal(r, es)
    ensures Run(r, es).accepted == r.accepted
    ensures multiset(Run(r, es).dropped) == multiset(r.dropped) + multiset(Offered(es))
  {
    RunConserves(r, es);
    assert multiset(Run(r, es).dropped) == Seen(Run(r, es)) - multiset(r.accepted);
  }

  /** Once the worker has exited, which is when Close returns nil, every accepted record has been handled. */
  lemma CloseDrains<R>(bufferSize: int, es: seq<Event<R>>)
    requires Legal(NewRecorder(bufferSize), es) && Run(NewRecorder(bufferSize), es).exited
    ensures
      var r := Run(NewRecorder(bufferSize), es);
      && r.closed && r.handled == r.accepted
      && multiset(Offered(es)) == multiset(r.dropped) + multiset(r.handled)
  {
    Conservation(bufferSize, es);
    RunConserves(NewRecorder(bufferSize), es);
  }

  /** The recorder of the source; the ghost fields only record what has happened. */
  class UsageRecorder<R> {
    const capacity: nat
    var recordChan: seq<R>
    var closed: bool
    var inHand: Option<R>
    var done: bool
    ghost var handled: seq<R>
    ghost var accepted: seq<R>
    ghost var dropped: seq<R>

    ghost function View(): Recorder<R>
      reads this
    {
      Recorder(capacity, closed, recordChan, inHand, handled, accepted, dropped, done)
    }

    constructor (bufferSize: int)
      ensures View() == NewRecorder(bufferSize) && capacity == if bufferSize <= 0 then 1024 else bufferSize
    {
      capacity := if bufferSize <= 0 then 1024 else bufferSize;
      recordChan, closed, inHand, done := [], false, None, false;
      handled, accepted, dropped := [], [], [];
    }

    /** A missing record is ignored. */
    method Record(rec: Option<R>)
      modifies this
      ensures View() == if rec.None? then old(View()) else old(View()).Offer(rec.value)
    {
      if rec.None? {
        return;
      }
      if closed {
        dropped := dropped + [rec.value];
        return;
      }
      if |recordChan| < capacity {
        recordChan := recordChan + [rec.value];
        accepted := accepted + [rec.value];
      } else {
        dropped := dropped + [rec.value];
      }
    }

    method Receive()
      requires View().CanTake()
      modifies this
      ensures View() == old(View()).Take()
    {
      inHand := Some(recordChan[0]);
      recordChan := recordChan[1..];
    }

    /** The write itself is the store's business; the worker goes on whether it fails or not. */
    method Write()
      requires inHand.Some?
      modifies this
      ensures View() == old(View()).Handle()
    {
      handled := handled + [inHand.value];
      inHand := None;
    }

    method CloseChannel()
      modifies this
      ensures View() == old(View()).Close()
    {
      if !closed {
        closed := true;
      }
    }

    /** What is left of the worker's loop once the channel is closed. */
    method Drain()
      requires View().Valid() && closed && inHand.None?
      modifies this
      ensures View() == old(View()).(buffer := [], handled := old(accepted), exited := true)
      ensures View().Valid()
    {
      ghost var before := View();
      while recordChan != []
        invariant View() == before.(buffer := recordChan, handled := handled)
        invariant handled + recordChan == accepted
        decreases |recordChan|
      {
        Receive();
        Write();
      }
      done := true;
    }
  }
}
