/** The browser's replica of the event history, fed by one subscription over one connection. */
module EventSocket {
  import opened Prelude
  import opened Events

  const MAX_BUFFER: nat := 200
  const FIRST_DELAY: nat := 1000
  const LAST_DELAY: nat := 8000

  /** onmessage: append, then keep the newest MAX_BUFFER. */
  function Push(buffer: seq<Event>, e: Event): seq<Event> {
    LastN(buffer + [e], MAX_BUFFER)
  }

  /**
   One connection end to end: the server-side feed, the messages in flight and
   the browser's buffer. `got` is everything the browser has received on it.
   */
  datatype Link = Link(feed: Feed, wire: seq<Event>, got: seq<Event>, buffer: seq<Event>)

  datatype LinkOp = Publish(e: Event) | Forward | Deliver

  function Connected(bufSize: nat, recent: seq<Event>): Link {
    Link(Opened(bufSize, recent), [], [], [])
  }

  function LinkStep(l: Link, op: LinkOp): Link {
    match op
    case Publish(e) => l.(feed := Offer(l.feed, e))
    case Forward =>
      if l.feed.queue == [] then l
      else l.(feed := Take(l.feed), wire := l.wire + [l.feed.queue[0]])
    case Deliver =>
      if l.wire == [] then l
      else l.(wire := l.wire[1..], got := l.got + [l.wire[0]], buffer := Push(l.buffer, l.wire[0]))
  }

  function LinkRun(l: Link, ops: seq<LinkOp>): Link
    decreases |ops|
  {
    if ops == [] then l else LinkStep(LinkRun(l, ops[..|ops| - 1]), ops[|ops| - 1])
  }

  /** How many events were accepted since the subscription's last loss (or since it opened). */
  function AcceptedSinceLoss(l: Link, ops: seq<LinkOp>): nat
    decreases |ops|
  {
    if ops == [] then 0
    else
      var before := AcceptedSinceLoss(l, ops[..|ops| - 1]);
      var at := LinkRun(l, ops[..|ops| - 1]);
      if !ops[|ops| - 1].Publish? then before
      else if |at.feed.queue| < at.feed.Cap() then before + 1
      else 0
  }

  function PublishedBy(ops: seq<LinkOp>): seq<Event>
    decreases |ops|
  {
    if ops == [] then []
    else PublishedBy(ops[..|ops| - 1]) + (match ops[|ops| - 1] case Publish(e) => [e] case _ => [])
  }

  ghost predicate LinkInv(l: Link, n: nat) {
    && FeedInv(l.feed)
    && l.got + l.wire == l.feed.read
    && l.buffer == LastN(l.got, MAX_BUFFER)
    && n <= |l.feed.later|
    && n <= |l.feed.Delivered()|
    && LastN(l.feed.Delivered(), n) == LastN(l.feed.Offered(), n)
  }

  lemma TailExtends<T>(a: seq<T>, b: seq<T>, n: nat, x: T)
    requires n <= |a| && n <= |b| && LastN(a, n) == LastN(b, n)
    ensures LastN(a + [x], n + 1) == LastN(b + [x], n + 1)
  {
    assert LastN(a + [x], n + 1) == LastN(a, n) + [x];
    assert LastN(b + [x], n + 1) == LastN(b, n) + [x];
  }

  lemma OfferKeepsLink(l: Link, n: nat, e: Event)
    requires LinkInv(l, n)
    ensures LinkInv(LinkStep(l, Publish(e)), if |l.feed.queue| < l.feed.Cap() then n + 1 else 0)
  {
    OfferInv(l.feed, e);
    assert Offer(l.feed, e).Offered() == l.feed.Offered() + [e];
    TailExtends(l.feed.Delivered(), l.feed.Offered(), n, e);
  }

  lemma DeliverKeepsLink(l: Link, n: nat)
    requires LinkInv(l, n)
    ensures LinkInv(LinkStep(l, Deliver), n)
  {
    if l.wire != [] {
      assert (l.got + [l.wire[0]]) + l.wire[1..] == l.got + l.wire;
      LastNAbsorbs(l.got, [l.wire[0]], MAX_BUFFER);
    }
  }

  lemma ForwardKeepsLink(l: Link, n: nat)
    requires LinkInv(l, n)
    ensures LinkInv(LinkStep(l, Forward), n)
  {
    TakeInv(l.feed);
    if l.feed.queue != [] {
      assert l.got + (l.wire + [l.feed.queue[0]]) == (l.got + l.wire) + [l.feed.queue[0]];
    }
  }

  lemma LinkStepInv(l: Link, n: nat, op: LinkOp)
    requires LinkInv(l, n)
    ensures LinkInv(LinkStep(l, op), match op
                                     case Publish(e) => if |l.feed.queue| < l.feed.Cap() then n + 1 else 0
                                     case _ => n)
  {
    match op
    case Publish(e) => OfferKeepsLink(l, n, e);
    case Forward => ForwardKeepsLink(l, n);
    case Deliver => DeliverKeepsLink(l, n);
  }

  lemma {:induction false} LinkRunInv(bufSize: nat, recent: seq<Event>, ops: seq<LinkOp>)
    requires |recent| <= RECENT_CAP
    ensures var l := LinkRun(Connected(bufSize, recent), ops);
            && LinkInv(l, AcceptedSinceLoss(Connected(bufSize, recent), ops))
            && l.feed.prefill == recent
            && l.feed.later == PublishedBy(ops)
            && (!l.feed.lossy ==> AcceptedSinceLoss(Connected(bufSize, recent), ops) == |l.feed.later|)
    decreases |ops|
  {
    if ops == [] {
      OpenedInv(bufSize, recent);
    } else {
      var init := ops[..|ops| - 1];
      LinkRunInv(bufSize, recent, init);
      var l := LinkRun(Connected(bufSize, recent), init);
      LinkStepInv(l, AcceptedSinceLoss(Connected(bufSize, recent), init), ops[|ops| - 1]);
    }
  }

  /**
   While nothing has been dropped, what the browser received, what is in flight
   and what still waits in the channel is the history at subscription followed
   by everything published since.
   */
  lemma NothingIsLostInFlight(bufSize: nat, recent: seq<Event>, ops: seq<LinkOp>)
    requires |recent| <= RECENT_CAP
    ensures var l := LinkRun(Connected(bufSize, recent), ops);
            !l.feed.lossy ==> l.got + l.wire + l.feed.queue == recent + PublishedBy(ops)
  {
    LinkRunInv(bufSize, recent, ops);
  }

  /**
   Whenever the browser has caught up, its buffer is the bus's history: after a
   run without losses, and again after any loss once 200 further events have
   been accepted.
   */
  lemma ReplicaAgreesWhenCaughtUp(bufSize: nat, past: seq<Event>, ops: seq<LinkOp>)
    ensures var l0 := Connected(bufSize, LastN(past, RECENT_CAP));
            var l := LinkRun(l0, ops);
            l.wire == [] && l.feed.queue == [] &&
            (!l.feed.lossy || AcceptedSinceLoss(l0, ops) >= RECENT_CAP) ==>
              l.buffer == LastN(past + PublishedBy(ops), RECENT_CAP)
  {
    var recent := LastN(past, RECENT_CAP);
    var l0 := Connected(bufSize, recent);
    var l := LinkRun(l0, ops);
    var n := AcceptedSinceLoss(l0, ops);
    LinkRunInv(bufSize, recent, ops);
    LastNAbsorbs(past, PublishedBy(ops), RECENT_CAP);
    if l.wire == [] && l.feed.queue == [] {
      assert l.got == l.feed.Delivered();
      if n >= RECENT_CAP {
        LastNOfLastN(l.feed.Delivered(), n, RECENT_CAP);
        LastNOfLastN(l.feed.Offered(), n, RECENT_CAP);
      }
    }
  }

  lemma LastNOfLastN<T>(s: seq<T>, n: nat, k: nat)
    requires k <= n
    ensures LastN(LastN(s, n), k) == LastN(s, k)
  {
  }

  /** A registered callback; `seen` is every event it has been called with. */
  class Listener {
    var seen: seq<Event>
    /** Length of `seen` when the present connection (or the registration) began. */
    ghost var mark: nat

    constructor ()
      ensures seen == [] && mark == 0
    {
      seen, mark := [], 0;
    }

    method Call(e: Event)
      modifies this`seen
      ensures seen == old(seen) + [e]
    {
      seen := seen + [e];
    }
  }

  class Socket {
    var buffer: seq<Event>
    var reconnectDelay: nat
    var closed: bool
    var reconnectTimer: Option<nat>
    var listeners: set<Listener>

    ghost predicate Valid()
      reads this, listeners
    {
      && |buffer| <= MAX_BUFFER
      && FIRST_DELAY <= reconnectDelay <= LAST_DELAY
      && forall l :: l in listeners ==> Mirrors(l.seen, l.mark, buffer)
    }

    /** The newest events a listener saw on this connection are exactly the buffer. */
    static ghost predicate Mirrors(seen: seq<Event>, mark: nat, buffer: seq<Event>) {
      mark <= |seen| && LastN(seen[mark..], MAX_BUFFER) == buffer
    }

    constructor ()
      ensures Valid() && buffer == [] && listeners == {} && !closed && reconnectDelay == FIRST_DELAY && reconnectTimer.None?
    {
      buffer, reconnectDelay, closed, listeners := [], FIRST_DELAY, false, {};
      reconnectTimer := None;
    }

    /** A new connection starts from an empty buffer: the server replays its history. */
    method Connect()
      requires Valid()
      modifies this, listeners
      ensures Valid() && buffer == [] && !closed
      ensures listeners == old(listeners) && reconnectDelay == old(reconnectDelay) && reconnectTimer == old(reconnectTimer)
      ensures forall l :: l in listeners ==> l.seen == old(l.seen)
    {
      closed := false;
      buffer := [];
      forall l | l in listeners {
        l.mark := |l.seen|;
      }
    }

    method OnOpen()
      requires Valid()
      modifies this`reconnectDelay
      ensures Valid() && reconnectDelay == FIRST_DELAY
    {
      reconnectDelay := FIRST_DELAY;
    }

    method OnMessage(event: Event)
      requires Valid()
      modifies this, listeners
      ensures Valid() && buffer == Push(old(buffer), event)
      ensures listeners == old(listeners) && closed == old(closed)
      ensures reconnectDelay == old(reconnectDelay) && reconnectTimer == old(reconnectTimer)
      ensures forall l :: l in listeners ==> l.seen == old(l.seen) + [event] && l.mark == old(l.mark)
    {
      buffer := buffer + [event];
      if |buffer| > MAX_BUFFER {
        buffer := buffer[|buffer| - MAX_BUFFER..];
      }
      Notify(event);
      forall l | l in listeners ensures Mirrors(l.seen, l.mark, buffer) {
        assert l.seen[l.mark..] == old(l.seen)[l.mark..] + [event];
        LastNAbsorbs(old(l.seen)[l.mark..], [event], MAX_BUFFER);
      }
    }

    method Notify(event: Event)
      modifies listeners
      ensures forall l :: l in listeners ==> l.seen == old(l.seen) + [event] && l.mark == old(l.mark)
    {
      var todo := listeners;
      while todo != {}
        invariant todo <= listeners
        invariant forall l :: l in listeners ==> l.mark == old(l.mark)
        invariant forall l :: l in todo ==> l.seen == old(l.seen)
        invariant forall l :: l in listeners && l !in todo ==> l.seen == old(l.seen) + [event]
      {
        var l :| l in todo;
        l.Call(event);
        todo := todo - {l};
      }
    }

    /** A reconnect is due after the present delay, unless the socket was closed on purpose. */
    method OnClose()
      requires Valid()
      modifies this`reconnectDelay, this`reconnectTimer
      ensures Valid()
      ensures reconnectTimer == if closed then old(reconnectTimer) else Some(old(reconnectDelay))
      ensures reconnectDelay == if closed then old(reconnectDelay) else Min(old(reconnectDelay) * 2, LAST_DELAY)
    {
      if closed {
        return;
      }
      reconnectTimer := Some(reconnectDelay);
      reconnectDelay := Min(reconnectDelay * 2, LAST_DELAY);
    }

    /** The timer has run out. */
    method OnTimer()
      requires Valid() && reconnectTimer.Some?
      modifies this, listeners
      ensures Valid() && buffer == [] && !closed && reconnectTimer.None?
      ensures listeners == old(listeners) && reconnectDelay == old(reconnectDelay)
      ensures forall l :: l in listeners ==> l.seen == old(l.seen)
    {
      reconnectTimer := None;
      Connect();
    }

    /** Registers a callback and replays the buffer to it. */
    method OnEvent(cb: Listener)
      requires Valid()
      modifies this`listeners, cb
      ensures Valid() && listeners == old(listeners) + {cb}
      ensures cb.seen == old(cb.seen) + buffer
    {
      listeners := listeners + {cb};
      cb.mark := |cb.seen|;
      var i := 0;
      while i < |buffer|
        invariant 0 <= i <= |buffer|
        invariant cb.seen == old(cb.seen) + buffer[..i]
        modifies cb`seen
      {
        cb.Call(buffer[i]);
        i := i + 1;
      }
      assert buffer[..i] == buffer;
      assert cb.seen[cb.mark..] == buffer;
    }

    /** What onEvent returns: the callback is not called any more, and keeps what it saw. */
    method Unsubscribe(cb: Listener)
      requires Valid()
      modifies this`listeners
      ensures Valid() && listeners == old(listeners) - {cb}
    {
      listeners := listeners - {cb};
    }

    /** Closing on purpose also calls off a reconnect that is due. */
    method CloseSocket()
      requires Valid()
      modifies this`closed, this`reconnectTimer
      ensures Valid() && closed && reconnectTimer.None?
    {
      closed := true;
      reconnectTimer := None;
    }
  }
}
