/** The event bus: a bounded history and one bounded, lossy queue per subscriber. */
module Events {
  import opened Prelude

  const RECENT_CAP: nat := 200
  const DEFAULT_BUFFER: nat := 64

  datatype Event = Event(kind: string, tunnelId: string, level: string, ts: Option<int>, message: string)

  /** Publish stamps events that carry no time of their own. */
  function Stamp(e: Event, now: int): Event {
    if e.ts.None? then e.(ts := Some(now)) else e
  }

  /**
   What one subscription has been offered and what became of it: `prefill` is
   the history at subscription, `later` every event published since, `read`
   what the subscriber has taken and `queue` what still waits.
   */
  datatype Feed = Feed(bufSize: nat, prefill: seq<Event>, later: seq<Event>,
                       read: seq<Event>, queue: seq<Event>, lossy: bool)
  {
    function Cap(): nat { bufSize + RECENT_CAP }

    function Offered(): seq<Event> { prefill + later }

    function Delivered(): seq<Event> { read + queue }
  }

  datatype FeedOp = Published(e: Event) | Taken

  function Opened(bufSize: nat, recent: seq<Event>): Feed {
    Feed(bufSize, recent, [], [], recent, false)
  }

  function Offer(f: Feed, e: Event): Feed {
    if |f.queue| < f.Cap() then f.(later := f.later + [e], queue := f.queue + [e])
    else f.(later := f.later + [e], lossy := true)
  }

  function Take(f: Feed): Feed {
    if f.queue == [] then f else f.(read := f.read + [f.queue[0]], queue := f.queue[1..])
  }

  function FeedStep(f: Feed, op: FeedOp): Feed {
    match op
    case Published(e) => Offer(f, e)
    case Taken => Take(f)
  }

  function FeedRun(f: Feed, ops: seq<FeedOp>): Feed
    decreases |ops|
  {
    if ops == [] then f else FeedStep(FeedRun(f, ops[..|ops| - 1]), ops[|ops| - 1])
  }

  /** What every step of a subscription keeps. */
  ghost predicate FeedInv(f: Feed) {
    && |f.prefill| <= RECENT_CAP
    && |f.queue| <= f.Cap()
    && IsSubsequence(f.Delivered(), f.Offered())
    && (!f.lossy ==> f.Delivered() == f.Offered())
    && (f.lossy ==> |f.later| > f.bufSize && f.prefill + f.later[..f.bufSize] <= f.Delivered())
  }

  lemma OpenedInv(bufSize: nat, recent: seq<Event>)
    requires |recent| <= RECENT_CAP
    ensures FeedInv(Opened(bufSize, recent))
  {
    var f := Opened(bufSize, recent);
    assert f.Delivered() == recent && f.Offered() == recent;
    SubsequenceRefl(recent);
  }

  lemma TakeInv(f: Feed)
    requires FeedInv(f)
    ensures FeedInv(Take(f))
    ensures Take(f).Delivered() == f.Delivered()
  {
    if f.queue != [] {
      assert Take(f).Delivered() == f.Delivered();
    }
  }

  lemma OfferInv(f: Feed, e: Event)
    requires FeedInv(f)
    ensures FeedInv(Offer(f, e))
    ensures Offer(f, e).Delivered() == if |f.queue| < f.Cap() then f.Delivered() + [e] else f.Delivered()
  {
    SubsequenceExtend(f.Delivered(), f.Offered(), e);
    var g := Offer(f, e);
    assert g.Offered() == f.Offered() + [e];
    assert g.Delivered() == if |f.queue| < f.Cap() then f.Delivered() + [e] else f.Delivered();
    if |f.later| >= f.bufSize {
      assert g.later[..g.bufSize] == f.later[..f.bufSize];
    }
    assert g.lossy ==> g.prefill + g.later[..g.bufSize] <= g.Delivered() by {
      if g.lossy && !f.lossy {
        assert f.prefill + f.later[..f.bufSize] <= f.Offered();
      }
    }
  }

  lemma FeedStepInv(f: Feed, op: FeedOp)
    requires FeedInv(f)
    ensures FeedInv(FeedStep(f, op))
  {
    match op
    case Taken => TakeInv(f);
    case Published(e) => OfferInv(f, e);
  }

  /**
   For every interleaving of publishes and reads: what was read plus what
   waits is an ordered selection of everything offered, the first `bufSize`
   later events survive even if nothing is ever read, and up to that many
   events nothing at all is lost.
   */
  lemma {:induction false} DeliveryIsOrderedAndKeepsTheFirstEvents(bufSize: nat, recent: seq<Event>, ops: seq<FeedOp>)
    requires |recent| <= RECENT_CAP
    ensures var f := FeedRun(Opened(bufSize, recent), ops);
            && FeedInv(f)
            && f.prefill == recent && f.bufSize == bufSize
            && IsSubsequence(f.Delivered(), f.Offered())
            && f.prefill + f.later[..Min(|f.later|, bufSize)] <= f.Delivered()
            && (|f.later| <= bufSize ==> f.Delivered() == f.Offered())
    decreases |ops|
  {
    if ops == [] {
      OpenedInv(bufSize, recent);
    } else {
      DeliveryIsOrderedAndKeepsTheFirstEvents(bufSize, recent, ops[..|ops| - 1]);
      var f := FeedRun(Opened(bufSize, recent), ops[..|ops| - 1]);
      FeedStepInv(f, ops[|ops| - 1]);
    }
    var g := FeedRun(Opened(bufSize, recent), ops);
    if |g.later| <= bufSize {
      assert g.later[..|g.later|] == g.later;
    }
  }

  /** Some event of the run arrived when the backlog was at bufSize + 200. */
  ghost predicate SomePublishMetAFullQueue(f: Feed, ops: seq<FeedOp>) {
    exists i :: 0 <= i < |ops| && ops[i].Published? && |FeedRun(f, ops[..i]).queue| >= f.Cap()
  }

  /**
   Delivery is exact precisely until an event meets a full backlog: that event
   is lost, and nothing else ever is.
   */
  lemma {:induction false} ExactUntilTheBacklogIsFull(bufSize: nat, recent: seq<Event>, ops: seq<FeedOp>)
    requires |recent| <= RECENT_CAP
    ensures var f0 := Opened(bufSize, recent);
            var f := FeedRun(f0, ops);
            && (f.lossy <==> SomePublishMetAFullQueue(f0, ops))
            && (f.Delivered() == f.Offered() <==> !SomePublishMetAFullQueue(f0, ops))
    decreases |ops|
  {
    LengthsOfARun(bufSize, recent, ops);
    LossMeansAFullQueue(bufSize, recent, ops);
  }

  lemma {:induction false} LossMeansAFullQueue(bufSize: nat, recent: seq<Event>, ops: seq<FeedOp>)
    requires |recent| <= RECENT_CAP
    ensures var f0 := Opened(bufSize, recent);
            FeedRun(f0, ops).lossy <==> SomePublishMetAFullQueue(f0, ops)
    decreases |ops|
  {
    var f0 := Opened(bufSize, recent);
    if ops != [] {
      var last := |ops| - 1;
      var init := ops[..last];
      LossMeansAFullQueue(bufSize, recent, init);
      LengthsOfARun(bufSize, recent, init);
      forall i | 0 <= i < last ensures ops[..i] == init[..i] && ops[i] == init[i] {}
      if SomePublishMetAFullQueue(f0, init) {
        var i :| 0 <= i < |init| && init[i].Published? && |FeedRun(f0, init[..i]).queue| >= f0.Cap();
        assert ops[i].Published? && |FeedRun(f0, ops[..i]).queue| >= f0.Cap();
      } else if SomePublishMetAFullQueue(f0, ops) {
        var i :| 0 <= i < |ops| && ops[i].Published? && |FeedRun(f0, ops[..i]).queue| >= f0.Cap();
        assert i == last by {
          if i < last {
            assert false;
          }
        }
      }
    }
  }

  /** Each loss leaves the delivered stream one event short for good. */
  lemma {:induction false} LengthsOfARun(bufSize: nat, recent: seq<Event>, ops: seq<FeedOp>)
    requires |recent| <= RECENT_CAP
    ensures var f := FeedRun(Opened(bufSize, recent), ops);
            && f.bufSize == bufSize
            && |f.Delivered()| <= |f.Offered()|
            && (f.lossy ==> |f.Delivered()| < |f.Offered()|)
            && (!f.lossy ==> f.Delivered() == f.Offered())
    decreases |ops|
  {
    if ops != [] {
      var init := ops[..|ops| - 1];
      LengthsOfARun(bufSize, recent, init);
      var f := FeedRun(Opened(bufSize, recent), init);
      var g := FeedRun(Opened(bufSize, recent), ops);
      if g.lossy == f.lossy && g.later != f.later {
        assert f.lossy || g.Delivered() == f.Delivered() + g.later[|f.later|..];
      }
    }
  }

  // ---------------------------------------------------------------- all subscribers together

  /** The bus with the feeds of its subscribers, whatever identifies these. */
  datatype Bus<S(==)> = Bus(recent: seq<Event>, feeds: map<S, Feed>)

  datatype BusOp<S> =
    | Publishing(event: Event, now: int)
    | Subscribing(sub: S, bufSize: int)
    | Reading(sub: S)
    | Cancelling(sub: S)

  /** The room for later events that a subscriber asks for. */
  function Room(bufSize: int): nat {
    if bufSize <= 0 then DEFAULT_BUFFER else bufSize
  }

  function OfferAll<S>(feeds: map<S, Feed>, e: Event): map<S, Feed> {
    map s | s in feeds :: Offer(feeds[s], e)
  }

  function BusStep<S>(b: Bus<S>, op: BusOp<S>): Bus<S> {
    match op
    case Publishing(event, now) =>
      Bus(LastN(b.recent + [Stamp(event, now)], RECENT_CAP), OfferAll(b.feeds, Stamp(event, now)))
    case Subscribing(sub, bufSize) => b.(feeds := b.feeds[sub := Opened(Room(bufSize), b.recent)])
    case Reading(sub) => if sub in b.feeds then b.(feeds := b.feeds[sub := Take(b.feeds[sub])]) else b
    case Cancelling(sub) => b.(feeds := b.feeds - {sub})
  }

  function BusRun<S>(b: Bus<S>, ops: seq<BusOp<S>>): Bus<S>
    decreases |ops|
  {
    if ops == [] then b else BusStep(BusRun(b, ops[..|ops| - 1]), ops[|ops| - 1])
  }

  /** A new bus after some ops. */
  function BusAfter<S>(ops: seq<BusOp<S>>): Bus<S> {
    BusRun(Bus([], map[]), ops)
  }

  lemma {:induction false} BusRunsCompose<S>(b: Bus<S>, early: seq<BusOp<S>>, late: seq<BusOp<S>>)
    ensures BusRun(b, early + late) == BusRun(BusRun(b, early), late)
    decreases |late|
  {
    if late == [] {
      assert early + late == early;
    } else {
      var init := late[..|late| - 1];
      BusRunsCompose(b, early, init);
      assert (early + late)[..|early + late| - 1] == early + init;
    }
  }

  /** Everything published, in order. */
  function Stream<S>(ops: seq<BusOp<S>>): seq<Event>
    decreases |ops|
  {
    if ops == [] then [] else Stream(ops[..|ops| - 1]) + Emitted(ops[|ops| - 1])
  }

  function Emitted<S>(op: BusOp<S>): seq<Event> {
    match op case Publishing(event, now) => [Stamp(event, now)] case _ => []
  }

  /** How many events the ops publish. */
  function Publishes<S>(ops: seq<BusOp<S>>): nat
    decreases |ops|
  {
    if ops == [] then 0 else Publishes(ops[..|ops| - 1]) + if ops[|ops| - 1].Publishing? then 1 else 0
  }

  /** Events arrive in order and as they were published, except that those without a time get one. */
  lemma {:induction false} EventsArriveAsPublished<S>(ops: seq<BusOp<S>>, i: nat)
    requires i < |ops| && ops[i].Publishing?
    ensures |Stream(ops)| == Publishes(ops) && Publishes(ops[..i]) < |Stream(ops)|
    ensures var sent, got := ops[i].event, Stream(ops)[Publishes(ops[..i])];
            && got.kind == sent.kind && got.tunnelId == sent.tunnelId && got.level == sent.level && got.message == sent.message
            && got.ts == if sent.ts == None then Some(ops[i].now) else sent.ts
    decreases |ops|
  {
    var n := |ops| - 1;
    StreamLength(ops[..n]);
    if i < n {
      EventsArriveAsPublished(ops[..n], i);
      assert ops[..n][..i] == ops[..i];
    }
  }

  lemma {:induction false} StreamLength<S>(ops: seq<BusOp<S>>)
    ensures |Stream(ops)| == Publishes(ops)
    decreases |ops|
  {
    if ops != [] {
      StreamLength(ops[..|ops| - 1]);
    }
  }

  /** What of it concerns one subscriber: every publish and its own reads, but not what others do. */
  function Share<S(==)>(ops: seq<BusOp<S>>, s: S): seq<FeedOp>
    decreases |ops|
  {
    if ops == [] then []
    else
      Share(ops[..|ops| - 1], s) +
      match ops[|ops| - 1]
      case Publishing(event, now) => [Published(Stamp(event, now))]
      case Reading(sub) => if sub == s then [Taken] else []
      case _ => []
  }

  /** The subscription of s is neither cancelled nor made anew. */
  predicate Stays<S(==)>(ops: seq<BusOp<S>>, s: S) {
    forall i :: 0 <= i < |ops| && (ops[i].Subscribing? || ops[i].Cancelling?) ==> ops[i].sub != s
  }

  /** The subscription of s made by the op at `at` is still there at the end. */
  predicate Lasts<S(==)>(ops: seq<BusOp<S>>, at: nat, s: S) {
    at < |ops| && ops[at].Subscribing? && ops[at].sub == s && Stays(ops[at + 1..], s)
  }

  lemma {:induction false} BusRemembersTheLast<S>(ops: seq<BusOp<S>>)
    ensures BusAfter(ops).recent == LastN(Stream(ops), RECENT_CAP)
    decreases |ops|
  {
    if ops != [] {
      var init, op := ops[..|ops| - 1], ops[|ops| - 1];
      BusRemembersTheLast(init);
      if op.Publishing? {
        LastNAbsorbs(Stream(init), [Stamp(op.event, op.now)], RECENT_CAP);
      }
    }
  }

  /** How an op moves the feed of s. */
  function Moved<S(==)>(f: Feed, op: BusOp<S>, s: S): Feed {
    match op
    case Publishing(event, now) => Offer(f, Stamp(event, now))
    case Reading(sub) => if sub == s then Take(f) else f
    case _ => f
  }

  lemma FeedMoves<S>(b: Bus<S>, op: BusOp<S>, s: S)
    requires s in b.feeds && (op.Subscribing? || op.Cancelling? ==> op.sub != s)
    ensures s in BusStep(b, op).feeds && BusStep(b, op).feeds[s] == Moved(b.feeds[s], op, s)
  {
  }

  lemma ShareMoves<S>(f0: Feed, ops: seq<BusOp<S>>, s: S)
    requires ops != []
    ensures var init, op := ops[..|ops| - 1], ops[|ops| - 1];
            FeedRun(f0, Share(ops, s)) == Moved(FeedRun(f0, Share(init, s)), op, s)
  {
    var init, op := ops[..|ops| - 1], ops[|ops| - 1];
    var own := Share(init, s);
    if op.Publishing? || (op.Reading? && op.sub == s) {
      assert Share(ops, s)[..|own|] == own;
    } else {
      assert Share(ops, s) == own;
    }
  }

  /**
   Subscribers do not get in each other's way: what one has been offered, has
   read and has waiting depends on the publishes and its own reads only.
   */
  lemma {:induction false} FeedsAreIndependent<S>(b: Bus<S>, ops: seq<BusOp<S>>, s: S)
    requires s in b.feeds && Stays(ops, s)
    ensures s in BusRun(b, ops).feeds && BusRun(b, ops).feeds[s] == FeedRun(b.feeds[s], Share(ops, s))
    decreases |ops|
  {
    if ops != [] {
      var init, op := ops[..|ops| - 1], ops[|ops| - 1];
      FeedsAreIndependent(b, init, s);
      FeedMoves(BusRun(b, init), op, s);
      ShareMoves(b.feeds[s], ops, s);
    }
  }

  /** Those on the bus are those with a subscription that lasts. */
  lemma {:induction false} SubscribedAt<S>(ops: seq<BusOp<S>>, s: S) returns (at: nat)
    requires s in BusAfter(ops).feeds
    ensures Lasts(ops, at, s)
    decreases |ops|
  {
    var n := |ops| - 1;
    if ops[n].Subscribing? && ops[n].sub == s {
      at := n;
    } else {
      at := SubscribedAt(ops[..n], s);
      assert ops[at + 1..] == ops[..n][at + 1..] + [ops[n]];
    }
  }

  lemma {:induction false} OfferedSince<S>(f0: Feed, ops: seq<BusOp<S>>, s: S)
    requires f0.later == []
    ensures FeedRun(f0, Share(ops, s)).later == Stream(ops)
    decreases |ops|
  {
    if ops != [] {
      OfferedSince(f0, ops[..|ops| - 1], s);
      ShareMoves(f0, ops, s);
      MovedLater(FeedRun(f0, Share(ops[..|ops| - 1], s)), ops[|ops| - 1], s);
    }
  }

  lemma MovedLater<S>(f: Feed, op: BusOp<S>, s: S)
    ensures Moved(f, op, s).later == f.later + Emitted(op)
  {
  }

  /** The feed a subscription starts with. */
  function Start<S>(ops: seq<BusOp<S>>, at: nat): Feed
    requires at < |ops| && ops[at].Subscribing?
  {
    Opened(Room(ops[at].bufSize), LastN(Stream(ops[..at]), RECENT_CAP))
  }

  lemma StartsThere<S>(ops: seq<BusOp<S>>, at: nat, s: S)
    requires at < |ops| && ops[at].Subscribing? && ops[at].sub == s
    ensures s in BusAfter(ops[..at + 1]).feeds && BusAfter(ops[..at + 1]).feeds[s] == Start(ops, at)
  {
    assert ops[..at + 1][..at] == ops[..at];
    BusRemembersTheLast(ops[..at]);
  }

  lemma OwnFeed<S>(ops: seq<BusOp<S>>, at: nat, s: S)
    requires Lasts(ops, at, s)
    ensures s in BusAfter(ops).feeds && BusAfter(ops).feeds[s] == FeedRun(Start(ops, at), Share(ops[at + 1..], s))
  {
    StartsThere(ops, at, s);
    assert ops == ops[..at + 1] + ops[at + 1..];
    BusRunsCompose(Bus([], map[]), ops[..at + 1], ops[at + 1..]);
    FeedsAreIndependent(BusAfter(ops[..at + 1]), ops[at + 1..], s);
  }

  /**
   Over every run of publishes, subscriptions, reads and cancellations, for
   every subscriber: what it read plus what waits is an ordered selection of
   the history it found and all events since, with that history and as many
   later events as it asked room for whole; and it has them all exactly when
   none met its own full queue.
   */
  lemma EverySubscriberIsServed<S>(ops: seq<BusOp<S>>, at: nat, s: S)
    requires Lasts(ops, at, s)
    ensures s in BusAfter(ops).feeds
    ensures var f, found, since := BusAfter(ops).feeds[s], LastN(Stream(ops[..at]), RECENT_CAP), Stream(ops[at + 1..]);
            && IsSubsequence(f.Delivered(), found + since)
            && found + since[..Min(|since|, Room(ops[at].bufSize))] <= f.Delivered()
            && (f.Delivered() == found + since <==>
                  !SomePublishMetAFullQueue(Start(ops, at), Share(ops[at + 1..], s)))
  {
    OwnFeed(ops, at, s);
    OfferedSince(Start(ops, at), ops[at + 1..], s);
    FeedIsServed(Room(ops[at].bufSize), LastN(Stream(ops[..at]), RECENT_CAP), Share(ops[at + 1..], s));
  }

  lemma FeedIsServed(bufSize: nat, found: seq<Event>, own: seq<FeedOp>)
    requires |found| <= RECENT_CAP
    ensures var f := FeedRun(Opened(bufSize, found), own);
            && IsSubsequence(f.Delivered(), found + f.later)
            && found + f.later[..Min(|f.later|, bufSize)] <= f.Delivered()
            && (f.Delivered() == found + f.later <==> !SomePublishMetAFullQueue(Opened(bufSize, found), own))
  {
    DeliveryIsOrderedAndKeepsTheFirstEvents(bufSize, found, own);
    ExactUntilTheBacklogIsFull(bufSize, found, own);
  }

  /** One channel handed out by Subscribe. */
  class Subscriber {
    var queue: seq<Event>
    var closed: bool
    const cap: nat
    ghost var feed: Feed

    ghost predicate Valid()
      reads this
    {
      FeedInv(feed) && feed.queue == queue && feed.Cap() == cap
    }

    constructor (bufSize: nat)
      ensures Valid() && !closed && feed == Opened(bufSize, []) && cap == bufSize + RECENT_CAP
    {
      queue, closed, cap := [], false, bufSize + RECENT_CAP;
      feed := Opened(bufSize, []);
      new;
      OpenedInv(bufSize, []);
    }

    /** The non-blocking send of Publish: a full channel drops the event. */
    method TrySend(e: Event)
      requires Valid() && !closed
      modifies this
      ensures Valid() && !closed && feed == Offer(old(feed), e)
    {
      FeedStepInv(feed, Published(e));
      feed := Offer(feed, e);
      if |queue| < cap {
        queue := queue + [e];
      }
    }

    /** A receive; an empty channel yields nothing. */
    method Receive() returns (e: Option<Event>)
      requires Valid()
      modifies this
      ensures Valid() && closed == old(closed) && feed == Take(old(feed))
      ensures e == if old(queue) == [] then None else Some(old(queue)[0])
    {
      FeedStepInv(feed, Taken);
      feed := Take(feed);
      if queue == [] {
        e := None;
      } else {
        e := Some(queue[0]);
        queue := queue[1..];
      }
    }

    method CloseAndDrain()
      modifies this`queue, this`closed
      ensures closed && queue == []
    {
      closed := true;
      while queue != []
        invariant closed
        decreases |queue|
      {
        queue := queue[1..];
      }
    }
  }

  class EventBus {
    var recent: seq<Event>
    var subs: set<Subscriber>

    ghost predicate Valid()
      reads this, subs
    {
      |recent| <= RECENT_CAP && forall s :: s in subs ==> s.Valid() && !s.closed
    }

    ghost function Feeds(): map<Subscriber, Feed>
      reads this, subs
    {
      map s | s in subs :: s.feed
    }

    ghost function View(): Bus<Subscriber>
      reads this, subs
    {
      Bus(recent, Feeds())
    }

    /** One feed is new or has moved. */
    twostate lemma FeedsWith(new sub: Subscriber)
      requires subs == old(subs) + {sub}
      requires forall s :: s in old(subs) && s != sub ==> s.feed == old(s.feed)
      ensures Feeds() == old(Feeds())[sub := sub.feed]
    {
    }

    twostate lemma FeedsWithout(sub: Subscriber)
      requires subs == old(subs) - {sub}
      requires forall s :: s in subs ==> s.feed == old(s.feed)
      ensures Feeds() == old(Feeds()) - {sub}
    {
    }

    twostate lemma StillWithout(sub: Subscriber)
      requires old(Valid()) && unchanged(this) && sub !in subs
      requires forall s :: s in subs ==> unchanged(s)
      ensures Valid() && Feeds() == old(Feeds())
    {
    }

    /** A receive from one of the channels, which needs no lock of the bus. */
    twostate lemma ReadingIsAStep(sub: Subscriber)
      requires old(Valid()) && unchanged(this) && sub in subs
      requires sub.Valid() && !sub.closed && sub.feed == Take(old(sub.feed))
      requires forall s :: s in subs && s != sub ==> unchanged(s)
      ensures Valid() && View() == BusStep(old(View()), Reading(sub))
    {
      FeedsWith(sub);
    }

    constructor ()
      ensures Valid() && View() == BusAfter([])
    {
      recent, subs := [], {};
    }

    /** The loop over the subscriber map, in whatever order the map yields. */
    method FanOut(e: Event)
      requires forall s :: s in subs ==> s.Valid() && !s.closed
      modifies subs
      ensures forall s :: s in subs ==> s.Valid() && !s.closed && s.feed == Offer(old(s.feed), e)
    {
      var todo := subs;
      while todo != {}
        invariant todo <= subs
        invariant forall s :: s in subs ==> s.Valid() && !s.closed
        invariant forall s :: s in todo ==> s.feed == old(s.feed)
        invariant forall s :: s in subs && s !in todo ==> s.feed == Offer(old(s.feed), e)
      {
        var sub :| sub in todo;
        sub.TrySend(e);
        todo := todo - {sub};
      }
    }

    /** The ring of recent events, one event further. */
    method Remember(e: Event)
      requires |recent| <= RECENT_CAP
      modifies this`recent
      ensures recent == LastN(old(recent) + [e], RECENT_CAP)
    {
      if |recent| >= RECENT_CAP {
        recent := recent[1..];
      }
      recent := recent + [e];
    }

    /** Each subscriber's feed moves exactly as `Offer` says, and nobody is waited for. */
    method Publish(event: Event, now: int)
      requires Valid()
      modifies this`recent, subs
      ensures Valid() && View() == BusStep(old(View()), Publishing(event, now))
    {
      var e := Stamp(event, now);
      Remember(e);
      FanOut(e);
      assert Feeds() == OfferAll(old(Feeds()), e);
    }

    /** A channel with the recent history in it. None of these sends can block: the capacity leaves room for all of it. */
    method Prefilled(size: nat) returns (sub: Subscriber)
      requires |recent| <= RECENT_CAP
      ensures fresh(sub) && sub.Valid() && !sub.closed && sub.feed == Opened(size, recent)
    {
      sub := new Subscriber(size);
      var i := 0;
      while i < |recent|
        invariant 0 <= i <= |recent|
        invariant sub.queue == recent[..i] && sub.cap == size + RECENT_CAP && !sub.closed
        modifies sub
      {
        assert |sub.queue| < sub.cap;
        sub.queue := sub.queue + [recent[i]];
        i := i + 1;
      }
      assert recent[..i] == recent;
      OpenedInv(size, recent);
      sub.feed := Opened(size, recent);
    }

    method Subscribe(bufSize: int) returns (sub: Subscriber)
      requires Valid()
      modifies this`subs
      ensures Valid() && fresh(sub) && subs == old(subs) + {sub}
      ensures View() == BusStep(old(View()), Subscribing(sub, bufSize))
    {
      var size: nat := if bufSize <= 0 then DEFAULT_BUFFER else bufSize;
      sub := Prefilled(size);
      subs := subs + {sub};
      FeedsWith(sub);
    }

    /** The cancel function: leave the bus, close the channel, drain it. */
    method Cancel(sub: Subscriber)
      requires Valid() && sub in subs
      modifies this`subs, sub
      ensures Valid() && subs == old(subs) - {sub}
      ensures View() == BusStep(old(View()), Cancelling(sub))
      ensures sub.closed && sub.queue == []
    {
      subs := subs - {sub};
      FeedsWithout(sub);
      label left:
      sub.CloseAndDrain();
      StillWithout@left(sub);
    }
  }
}
