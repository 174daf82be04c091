/** What every run of the supervisor loop keeps, whatever the world does to it. */
module SupervisorSafety {
  import opened Prelude
  import opened SupervisorMachine
  import RateLimit

  /** The open resources, oldest first: clients hop by hop, a raw connection, then forwarders. */
  function OpenStack(s: Sup): seq<Res> {
    s.clients + (if s.conn.Some? then [s.conn.value] else []) + s.forwards
  }

  /**
   Reads a trace as operations on a stack: only the newest open resource may be
   closed or upgraded. `None` means the trace is not well nested.
   */
  function Replay(trace: seq<Event>): Option<seq<Res>>
    decreases |trace|
  {
    if trace == [] then Some([])
    else
      match Replay(DropLast(trace))
      case None => None
      case Some(open) => ReplayEvent(open, trace[|trace| - 1])
  }

  function ReplayEvent(open: seq<Res>, e: Event): Option<seq<Res>> {
    match e
    case Open(r) => Some(open + [r])
    case Upgrade(id) =>
      if open != [] && open[|open| - 1] == Res(Conn, id) then Some(DropLast(open) + [Res(Client, id)]) else None
    case Close(r) => if open != [] && open[|open| - 1] == r then Some(DropLast(open)) else None
    case _ => Some(open)
  }

  lemma ReplaySnoc(trace: seq<Event>, e: Event, open: seq<Res>)
    requires Replay(trace) == Some(open)
    ensures Replay(trace + [e]) == ReplayEvent(open, e)
  {
    assert DropLast(trace + [e]) == trace;
  }

  // ---------------------------------------------------------------- shape

  /** Where the loop holds no resource at all. */
  predicate Idle(pc: Loc) {
    match pc
    case Begin | ChainErr(_) | ReportChainErr(_) | Detach | AfterRun | Retry(_) | Limited(_)
       | Pause(_) | Sleep(_, _) | Resume(_) | Halt(_) | Leave | Done => true
    case _ => false
  }

  /** Where the whole chain is up and all its clients are still open. */
  predicate ChainUp(pc: Loc) {
    match pc
    case StartForward | UnwindForwards(_) | ReportForwardErr(_) | GoLive | Wait | Degrade(_) => true
    case _ => false
  }

  predicate HoldsForwards(pc: Loc) {
    pc.StartForward? || pc.UnwindForwards? || pc.GoLive? || pc.Wait? || pc.Degrade? || pc.Cleanup?
  }

  /** How many forwarders a running tunnel has. */
  function Wanted(p: Params): nat {
    if p.knownMode then p.mappings else 0
  }

  /** What the loop itself holds at each location. */
  ghost predicate Holds(p: Params, s: Sup) {
    && (s.conn.Some? <==> s.pc.Handshake?)
    && (s.conn.Some? ==> s.conn.value.kind == Conn)
    && (Idle(s.pc) ==> s.clients == [])
    && (!HoldsForwards(s.pc) ==> s.forwards == [])
    && |s.clients| <= p.hops
    && ((ChainUp(s.pc) || s.pc.Attach?) ==> |s.clients| == p.hops)
    && (s.pc.Handshake? ==> |s.clients| < p.hops)
    && |s.forwards| <= Wanted(p)
    && (s.pc.GoLive? || s.pc.Wait? || s.pc.Degrade? ==> |s.forwards| == Wanted(p))
  }

  /** How the fields other goroutines read relate to what the loop holds. */
  ghost predicate Publishes(s: Sup) {
    && (ChainUp(s.pc) ==> s.chain == Some(s.clients))
    && (s.pc.Wait? || s.pc.Degrade? ==> s.fwds == s.forwards)
    && (s.pc.Cleanup? ==> s.chain.Some? && s.clients <= s.chain.value && s.forwards <= s.fwds)
    && (s.chain.Some? ==> ChainUp(s.pc) || s.pc.Cleanup? || s.pc.Detach?)
    && (s.fwds != [] ==> s.pc.Wait? || s.pc.Degrade? || s.pc.Cleanup? || s.pc.Detach?)
  }

  ghost predicate Shape(p: Params, s: Sup) {
    Holds(p, s) && Publishes(s)
  }

  lemma BuildKeepsHolds(p: Params, s: Sup, c: Choice)
    requires InBuild(s.pc) && Holds(p, s)
    ensures Holds(p, BuildStep(p, s, c))
  {
  }

  lemma BuildKeepsShape(p: Params, s: Sup, c: Choice)
    requires InBuild(s.pc) && Shape(p, s)
    ensures Shape(p, BuildStep(p, s, c))
  {
    BuildKeepsHolds(p, s, c);
  }

  lemma ServiceKeepsHolds(p: Params, s: Sup, c: Choice)
    requires InService(s.pc) && Holds(p, s)
    ensures Holds(p, ServiceStep(p, s, c))
  {
  }

  lemma CleanupKeepsPublishes(p: Params, s: Sup, c: Choice)
    requires s.pc.Cleanup? && Shape(p, s)
    ensures Publishes(ServiceStep(p, s, c))
  {
  }

  lemma UnwindingKeepsPublishes(p: Params, s: Sup, c: Choice)
    requires (s.pc.StartForward? || s.pc.UnwindForwards? || s.pc.CloseChain?) && Shape(p, s)
    ensures Publishes(ServiceStep(p, s, c))
  {
  }

  lemma ServiceKeepsPublishes(p: Params, s: Sup, c: Choice)
    requires InService(s.pc) && Shape(p, s)
    ensures Publishes(ServiceStep(p, s, c))
  {
    if s.pc.Cleanup? {
      CleanupKeepsPublishes(p, s, c);
    } else if s.pc.StartForward? || s.pc.UnwindForwards? || s.pc.CloseChain? {
      UnwindingKeepsPublishes(p, s, c);
    }
  }

  lemma RestartKeepsShape(p: Params, s: Sup, c: Choice)
    requires !InBuild(s.pc) && !InService(s.pc) && Shape(p, s)
    ensures Shape(p, RestartStep(p, s, c))
  {
  }

  lemma NextKeepsShape(p: Params, s: Sup, a: Act)
    requires Shape(p, s)
    ensures Shape(p, Next(p, s, a))
  {
    if a.Loop? {
      if InBuild(s.pc) {
        BuildKeepsShape(p, s, a.c);
      } else if InService(s.pc) {
        ServiceKeepsHolds(p, s, a.c);
        ServiceKeepsPublishes(p, s, a.c);
      } else {
        RestartKeepsShape(p, s, a.c);
      }
    }
  }

  lemma {:induction false} RunKeepsShape(p: Params, now: int, err: Option<Cause>, mm: Option<nat>, acts: seq<Act>)
    ensures Shape(p, Run(p, Started(now, err, mm), acts))
    decreases |acts|
  {
    if acts != [] {
      RunKeepsShape(p, now, err, mm, acts[..|acts| - 1]);
      NextKeepsShape(p, Run(p, Started(now, err, mm), acts[..|acts| - 1]), acts[|acts| - 1]);
    }
  }

  // ---------------------------------------------------------------- the trace

  lemma OneEventAtMost(p: Params, s: Sup, a: Act)
    ensures var t := Next(p, s, a);
            t.trace == s.trace || (|t.trace| == |s.trace| + 1 && t.trace == s.trace + [t.trace[|s.trace|]])
  {
    if a.Loop? {
      if InBuild(s.pc) {
        BuildAddsOne(p, s, a.c);
      } else if InService(s.pc) {
        ServiceAddsOne(p, s, a.c);
      }
    }
  }

  lemma BuildAddsOne(p: Params, s: Sup, c: Choice)
    requires InBuild(s.pc)
    ensures var t := BuildStep(p, s, c);
            t.trace == s.trace || (|t.trace| == |s.trace| + 1 && t.trace == s.trace + [t.trace[|s.trace|]])
  {
  }

  lemma ServiceAddsOne(p: Params, s: Sup, c: Choice)
    requires InService(s.pc)
    ensures var t := ServiceStep(p, s, c);
            t.trace == s.trace || (|t.trace| == |s.trace| + 1 && t.trace == s.trace + [t.trace[|s.trace|]])
  {
  }

  // ---------------------------------------------------------------- nesting

  ghost predicate Nested(s: Sup) {
    Replay(s.trace) == Some(OpenStack(s))
  }

  /** What one event does to the stack carries over to the whole trace. */
  lemma NestOn(s: Sup, t: Sup, e: Event)
    requires Nested(s) && t.trace == s.trace + [e]
    requires ReplayEvent(OpenStack(s), e) == Some(OpenStack(t))
    ensures Nested(t)
  {
    ReplaySnoc(s.trace, e, OpenStack(s));
  }

  lemma ClosingForwardNests(s: Sup)
    requires Nested(s) && s.forwards != []
    ensures Nested(CloseLastForward(s))
  {
    var t := CloseLastForward(s);
    assert OpenStack(t) == DropLast(OpenStack(s));
    NestOn(s, t, Close(s.forwards[|s.forwards| - 1]));
  }

  lemma ClosingClientNests(s: Sup)
    requires Nested(s) && s.clients != [] && s.conn.None? && s.forwards == []
    ensures Nested(CloseLastClient(s))
  {
    var t := CloseLastClient(s);
    assert OpenStack(s) == s.clients && OpenStack(t) == t.clients;
    NestOn(s, t, Close(s.clients[|s.clients| - 1]));
  }

  lemma BuildKeepsNesting(p: Params, s: Sup, c: Choice)
    requires InBuild(s.pc) && Shape(p, s) && Nested(s)
    ensures Nested(BuildStep(p, s, c))
  {
    var t := BuildStep(p, s, c);
    if t.trace == s.trace {
      assert OpenStack(t) == OpenStack(s);
    } else {
      match s.pc
      case Begin => NestOn(s, t, Attempt(s.now));
      case Dial =>
        assert OpenStack(t) == OpenStack(s) + [t.conn.value];
        NestOn(s, t, Open(t.conn.value));
      case Handshake =>
        assert DropLast(OpenStack(s)) == s.clients;
        assert OpenStack(t) == t.clients;
        NestOn(s, t, if c.ok then Upgrade(s.conn.value.id) else Close(s.conn.value));
      case Unwind(_) =>
        ClosingClientNests(s);
      case _ =>
    }
  }

  lemma StartingForwardNests(p: Params, s: Sup, c: Choice)
    requires s.pc.StartForward? && Shape(p, s) && Nested(s)
    ensures Nested(StartForwardStep(p, s, c))
  {
    var t := StartForwardStep(p, s, c);
    if t.nextId > s.nextId {
      var r := Res(Forwarder, s.nextId);
      assert OpenStack(t) == OpenStack(s) + [r];
      NestOn(s, t, Open(r));
    }
  }

  lemma ServiceKeepsNesting(p: Params, s: Sup, c: Choice)
    requires InService(s.pc) && Shape(p, s) && Nested(s)
    ensures Nested(ServiceStep(p, s, c))
  {
    var t := ServiceStep(p, s, c);
    match s.pc
    case GoLive => NestOn(s, t, Up);
    case StartForward => StartingForwardNests(p, s, c);
    case UnwindForwards(_) | CloseChain | Cleanup =>
      if s.forwards != [] {
        ClosingForwardNests(s);
      } else if s.clients != [] && !s.pc.UnwindForwards? {
        ClosingClientNests(s);
      }
    case _ =>
  }

  lemma RestartKeepsNesting(p: Params, s: Sup, c: Choice)
    requires !InBuild(s.pc) && !InService(s.pc) && Shape(p, s) && Nested(s)
    ensures Nested(RestartStep(p, s, c))
  {
    var t := RestartStep(p, s, c);
    assert OpenStack(s) == [] == OpenStack(t);
    match s.pc
    case Retry(_) =>
      if p.autoRestart {
        NestOn(s, t, Checked(s.now, !RateLimit.Exceeded(s.restartTimes, s.now, p.maxRestartsPerHour)));
      }
    case Pause(_) => NestOn(s, t, Slept(s.restartCount, p.delay(s.restartCount, c.jitter)));
    case Leave => NestOn(s, t, Returned);
    case _ =>
  }

  lemma NextKeepsNesting(p: Params, s: Sup, a: Act)
    requires Shape(p, s) && Nested(s)
    ensures Nested(Next(p, s, a))
  {
    if !a.Loop? {
      assert OpenStack(Next(p, s, a)) == OpenStack(s);
    } else if InBuild(s.pc) {
      BuildKeepsNesting(p, s, a.c);
    } else if InService(s.pc) {
      ServiceKeepsNesting(p, s, a.c);
    } else {
      RestartKeepsNesting(p, s, a.c);
    }
  }

  lemma IdleIsEmpty(p: Params, s: Sup)
    requires Shape(p, s)
    ensures Idle(s.pc) ==> OpenStack(s) == []
  {
  }

  /**
   For every run: the trace is well nested and what is open is exactly what the
   loop holds. Nothing is open while it backs off or once it has returned.
   */
  lemma {:induction false} EveryRunIsWellNested(p: Params, now: int, err: Option<Cause>, mm: Option<nat>, acts: seq<Act>)
    ensures var s := Run(p, Started(now, err, mm), acts);
            && Replay(s.trace) == Some(OpenStack(s))
            && (Idle(s.pc) ==> Replay(s.trace) == Some([]))
    decreases |acts|
  {
    RunKeepsShape(p, now, err, mm, acts);
    var s := Run(p, Started(now, err, mm), acts);
    if acts != [] {
      var init := acts[..|acts| - 1];
      EveryRunIsWellNested(p, now, err, mm, init);
      RunKeepsShape(p, now, err, mm, init);
      NextKeepsNesting(p, Run(p, Started(now, err, mm), init), acts[|acts| - 1]);
    }
    IdleIsEmpty(p, s);
  }

  // ---------------------------------------------------------------- reachability

  ghost predicate Closed(p: Params, q: Sup -> bool) {
    forall s: Sup, a: Act {:trigger q(Next(p, s, a))} :: q(s) ==> q(Next(p, s, a))
  }

  /** `s` has every property that `s0` has and that no act takes away. */
  ghost predicate Reached(p: Params, s0: Sup, s: Sup) {
    forall q: Sup -> bool :: q(s0) && Closed(p, q) ==> q(s)
  }

  lemma ReachedOneMore(p: Params, s0: Sup, s: Sup, a: Act)
    requires Reached(p, s0, s)
    ensures Reached(p, s0, Next(p, s, a))
  {
    forall q: Sup -> bool | q(s0) && Closed(p, q) ensures q(Next(p, s, a)) {
      assert q(s);
    }
  }

  ghost predicate EndsARun(p: Params, s0: Sup, s: Sup) {
    exists acts :: s == Run(p, s0, acts)
  }

  lemma OneMoreAct(p: Params, s0: Sup, s: Sup, a: Act)
    requires EndsARun(p, s0, s)
    ensures EndsARun(p, s0, Next(p, s, a))
  {
    var acts :| s == Run(p, s0, acts);
    assert (acts + [a])[..|acts|] == acts;
    assert Next(p, s, a) == Run(p, s0, acts + [a]);
  }

  /** Being reached is the same as being the end of a run. */
  lemma ReachedIsRun(p: Params, s0: Sup, s: Sup)
    ensures Reached(p, s0, s) <==> EndsARun(p, s0, s)
  {
    if Reached(p, s0, s) {
      var q: Sup -> bool := t => EndsARun(p, s0, t);
      forall t: Sup, a: Act | q(t) ensures q(Next(p, t, a)) {
        OneMoreAct(p, s0, t, a);
      }
      assert s0 == Run(p, s0, []);
      assert Closed(p, q) && q(s0);
      assert q(s);
    }
    if EndsARun(p, s0, s) {
      var acts :| s == Run(p, s0, acts);
      RunIsReached(p, s0, acts);
    }
  }

  lemma ReachedIsWellNested(p: Params, s0: Sup, s: Sup)
    requires s0.Fresh() && Reached(p, s0, s)
    ensures Replay(s.trace) == Some(OpenStack(s))
    ensures Idle(s.pc) ==> Replay(s.trace) == Some([])
  {
    ReachedIsRun(p, s0, s);
    var acts :| s == Run(p, s0, acts);
    EveryRunIsWellNested(p, s0.now, s0.lastErr, s0.mismatch, acts);
  }

  lemma ReachedHasShape(p: Params, s0: Sup, s: Sup)
    requires s0.Fresh() && Reached(p, s0, s)
    ensures Shape(p, s)
  {
    ReachedIsRun(p, s0, s);
    var acts :| s == Run(p, s0, acts);
    RunKeepsShape(p, s0.now, s0.lastErr, s0.mismatch, acts);
  }

  lemma {:induction false} RunIsReached(p: Params, s0: Sup, acts: seq<Act>)
    ensures Reached(p, s0, Run(p, s0, acts))
    decreases |acts|
  {
    if acts != [] {
      RunIsReached(p, s0, acts[..|acts| - 1]);
      ReachedOneMore(p, s0, Run(p, s0, acts[..|acts| - 1]), acts[|acts| - 1]);
    }
  }

  // ---------------------------------------------------------------- exactly once

  function OpensBy(e: Event, id: nat): nat {
    if e.Open? && e.r.id == id then 1 else 0
  }

  function ClosesBy(e: Event, id: nat): nat {
    if e.Close? && e.r.id == id then 1 else 0
  }

  function Opens(trace: seq<Event>, id: nat): nat
    decreases |trace|
  {
    if trace == [] then 0 else Opens(DropLast(trace), id) + OpensBy(trace[|trace| - 1], id)
  }

  function Closes(trace: seq<Event>, id: nat): nat
    decreases |trace|
  {
    if trace == [] then 0 else Closes(DropLast(trace), id) + ClosesBy(trace[|trace| - 1], id)
  }

  function Live(open: seq<Res>, id: nat): nat
    decreases |open|
  {
    if open == [] then 0 else Live(DropLast(open), id) + if open[|open| - 1].id == id then 1 else 0
  }

  lemma OpensSnoc(trace: seq<Event>, e: Event, id: nat)
    ensures Opens(trace + [e], id) == Opens(trace, id) + OpensBy(e, id)
  {
    assert DropLast(trace + [e]) == trace;
  }

  lemma LiveSnoc(open: seq<Res>, r: Res, id: nat)
    ensures Live(open + [r], id) == Live(open, id) + if r.id == id then 1 else 0
  {
    assert DropLast(open + [r]) == open;
  }

  lemma ReplayEventBalances(open: seq<Res>, e: Event, id: nat)
    requires ReplayEvent(open, e).Some?
    ensures Live(ReplayEvent(open, e).value, id) + ClosesBy(e, id) == Live(open, id) + OpensBy(e, id)
  {
    match e
    case Open(r) => LiveSnoc(open, r, id);
    case Upgrade(k) => LiveSnoc(DropLast(open), Res(Client, k), id);
    case _ =>
  }

  /** In a well-nested trace every opening is matched by a closing or is still live. */
  lemma {:induction false} OpeningsBalance(trace: seq<Event>, id: nat)
    requires Replay(trace).Some?
    ensures Opens(trace, id) == Closes(trace, id) + Live(Replay(trace).value, id)
    decreases |trace|
  {
    if trace != [] {
      OpeningsBalance(DropLast(trace), id);
      ReplayEventBalances(Replay(DropLast(trace)).value, trace[|trace| - 1], id);
    }
  }

  /** A loop region appends at most one event, and opens only what it has just numbered. */
  ghost predicate GrowsByOneEvent(s: Sup, t: Sup) {
    && s.nextId <= t.nextId
    && (t.trace == s.trace ||
        (exists e: Event :: t.trace == s.trace + [e] && (e.Open? ==> e.r.id == s.nextId < t.nextId)))
  }

  lemma OneEventPerRegion(p: Params, s: Sup, c: Choice)
    ensures GrowsByOneEvent(s, LoopStep(p, s, c))
  {
    if InBuild(s.pc) {
      OneEventPerBuildRegion(p, s, c);
    } else if InService(s.pc) {
      OneEventPerServiceRegion(p, s, c);
    } else {
      var t := RestartStep(p, s, c);
      assert t.trace == s.trace || t.trace == s.trace + [t.trace[|s.trace|]];
    }
  }

  lemma OneEventPerBuildRegion(p: Params, s: Sup, c: Choice)
    requires InBuild(s.pc)
    ensures GrowsByOneEvent(s, BuildStep(p, s, c))
  {
    var t := BuildStep(p, s, c);
    assert t.trace == s.trace || t.trace == s.trace + [t.trace[|s.trace|]];
  }

  lemma OneEventPerServiceRegion(p: Params, s: Sup, c: Choice)
    requires InService(s.pc)
    ensures GrowsByOneEvent(s, ServiceStep(p, s, c))
  {
    var t := ServiceStep(p, s, c);
    assert t.trace == s.trace || t.trace == s.trace + [t.trace[|s.trace|]];
  }

  lemma OpensOfGrown(s: Sup, t: Sup, id: nat)
    requires GrowsByOneEvent(s, t)
    requires Opens(s.trace, id) <= if id < s.nextId then 1 else 0
    ensures Opens(t.trace, id) <= if id < t.nextId then 1 else 0
  {
    if t.trace != s.trace {
      var e: Event :| t.trace == s.trace + [e] && (e.Open? ==> e.r.id == s.nextId < t.nextId);
      OpensSnoc(s.trace, e, id);
    }
  }

  lemma {:induction false} IdentitiesAreFresh(p: Params, now: int, err: Option<Cause>, mm: Option<nat>, acts: seq<Act>, id: nat)
    ensures var s := Run(p, Started(now, err, mm), acts);
            Opens(s.trace, id) <= if id < s.nextId then 1 else 0
    decreases |acts|
  {
    if acts != [] {
      var init := acts[..|acts| - 1];
      IdentitiesAreFresh(p, now, err, mm, init, id);
      if acts[|acts| - 1].Loop? {
        var s := Run(p, Started(now, err, mm), init);
        OneEventPerRegion(p, s, acts[|acts| - 1].c);
        OpensOfGrown(s, LoopStep(p, s, acts[|acts| - 1].c), id);
      }
    }
  }

  /**
   Every client and forwarder ever opened is opened once and, whenever the loop
   backs off or has returned, has been closed exactly once.
   */
  lemma EveryResourceIsClosedExactlyOnce(p: Params, now: int, err: Option<Cause>, mm: Option<nat>, acts: seq<Act>, id: nat)
    ensures var s := Run(p, Started(now, err, mm), acts);
            && Opens(s.trace, id) <= 1
            && Closes(s.trace, id) <= Opens(s.trace, id)
            && (Idle(s.pc) ==> Closes(s.trace, id) == Opens(s.trace, id))
  {
    EveryRunIsWellNested(p, now, err, mm, acts);
    IdentitiesAreFresh(p, now, err, mm, acts, id);
    OpeningsBalance(Run(p, Started(now, err, mm), acts).trace, id);
  }

  // ---------------------------------------------------------------- reported state

  /** The state a supervisor that nobody has cancelled reports at each location. */
  function Reported(pc: Loc): TunnelState {
    match pc
    case Begin | Dial | Handshake | Unwind(_) | ChainErr(_) | ReportChainErr(_) | Attach
       | StartForward | UnwindForwards(_) | ReportForwardErr(_) | GoLive => Starting
    case Wait | Degrade(_) => Running
    case Cleanup | Detach | AfterRun | Halt(_) => Degraded
    case Retry(ph) => AfterFailure(ph)
    case Limited(ph) => AfterFailure(ph)
    case Pause(ph) => AfterFailure(ph)
    case Sleep(ph, _) => AfterFailure(ph)
    case Resume(ph) => AfterFailure(ph)
    case CloseChain | Leave | Done => Error
  }

  function AfterFailure(ph: Phase): TunnelState {
    if ph.Serving? then Degraded else Error
  }

  /** Once a failure is on record, the host key detail is present exactly for a host key failure. */
  ghost predicate ErrorOnRecord(s: Sup) {
    && s.lastErr.Some?
    && (s.mismatch.Some? <==> s.lastErr.value.HostKeyRejected?)
    && (s.mismatch.Some? ==> s.mismatch.value == s.lastErr.value.hop)
  }

  /** The causes each location can be carrying. */
  ghost predicate Causes(s: Sup) {
    && (s.pc.ReportForwardErr? || s.pc.UnwindForwards? ==> s.pc.why.ForwardFailed?)
    && (s.pc.Unwind? || s.pc.ChainErr? || s.pc.ReportChainErr? ==>
          !s.pc.why.ForwardFailed? && !s.pc.why.KeepaliveFailed? && !s.pc.why.RateLimited?)
    && (s.pc.Degrade? && s.pc.msg.Some? ==> s.pc.msg.value.KeepaliveFailed?)
  }

  ghost predicate Honest(p: Params, s: Sup) {
    !s.cancelled ==>
      && s.waiting == 0
      && s.state == Reported(s.pc)
      && s.pc != Degrade(None)
      && (s.pc.Halt? ==> s.pc.to == Error && !p.autoRestart)
      && (s.state.Running? ==> s.lastErr == None && s.mismatch == None)
      && (s.state.Error? || s.state.Degraded? ==> ErrorOnRecord(s))
      && (s.pc.Leave? || s.pc.Done? ==>
            s.lastErr.value.HostKeyRejected? || s.lastErr.value.RateLimited? || !p.autoRestart)
      && (s.state.Error? && s.mismatch.Some? ==> s.pc.Leave? || s.pc.Done?)
      && (s.state.Degraded? ==> s.mismatch == None)
  }

  lemma BuildKeepsHonesty(p: Params, s: Sup, c: Choice)
    requires InBuild(s.pc) && Causes(s) && Honest(p, s)
    ensures Causes(BuildStep(p, s, c)) && Honest(p, BuildStep(p, s, c))
  {
  }

  lemma ServiceKeepsCauses(p: Params, s: Sup, c: Choice)
    requires InService(s.pc) && Causes(s)
    ensures Causes(ServiceStep(p, s, c))
  {
  }

  predicate Serves(pc: Loc) {
    pc.GoLive? || pc.Wait? || pc.Degrade? || pc.Cleanup?
  }

  lemma ServingKeepsHonesty(p: Params, s: Sup, c: Choice)
    requires Serves(s.pc) && Causes(s) && Honest(p, s)
    ensures Honest(p, ServiceStep(p, s, c))
  {
  }

  lemma ServiceKeepsHonesty(p: Params, s: Sup, c: Choice)
    requires InService(s.pc) && Causes(s) && Honest(p, s)
    ensures Honest(p, ServiceStep(p, s, c))
  {
    if Serves(s.pc) {
      ServingKeepsHonesty(p, s, c);
    }
  }

  lemma RetryKeepsHonesty(p: Params, s: Sup, c: Choice)
    requires s.pc.Retry? && Causes(s) && Honest(p, s)
    ensures Honest(p, RestartStep(p, s, c))
  {
  }

  lemma RestartKeepsHonesty(p: Params, s: Sup, c: Choice)
    requires !InBuild(s.pc) && !InService(s.pc) && Causes(s) && Honest(p, s)
    ensures Causes(RestartStep(p, s, c)) && Honest(p, RestartStep(p, s, c))
  {
    if s.pc.Retry? {
      RetryKeepsHonesty(p, s, c);
    }
  }

  lemma {:induction false} RunKeepsHonesty(p: Params, now: int, err: Option<Cause>, mm: Option<nat>, acts: seq<Act>)
    ensures var s := Run(p, Started(now, err, mm), acts);
            Causes(s) && Honest(p, s)
    decreases |acts|
  {
    if acts != [] {
      var init, a := acts[..|acts| - 1], acts[|acts| - 1];
      RunKeepsHonesty(p, now, err, mm, init);
      var s := Run(p, Started(now, err, mm), init);
      if a.Loop? {
        if InBuild(s.pc) {
          BuildKeepsHonesty(p, s, a.c);
        } else if InService(s.pc) {
          ServiceKeepsCauses(p, s, a.c);
          ServiceKeepsHonesty(p, s, a.c);
        } else {
          RestartKeepsHonesty(p, s, a.c);
        }
      }
    }
  }

  /**
   Until someone cancels it, a supervisor says Running exactly while it serves,
   and then every hop and every forwarder is open. When its loop has returned by
   itself it says Error, and for one of three reasons: a rejected host key, the
   rate limit, or a failure with automatic restart switched off.
   */
  lemma StatusIsHonestUntilCancelled(p: Params, now: int, err: Option<Cause>, mm: Option<nat>, acts: seq<Act>)
    ensures var s := Run(p, Started(now, err, mm), acts);
            !s.cancelled ==>
              && s.state == Reported(s.pc)
              && (s.state.Running? ==>
                    && s.chain.Some? && |s.chain.value| == p.hops && |s.fwds| == Wanted(p)
                    && Replay(s.trace) == Some(s.chain.value + s.fwds)
                    && s.lastErr.None? && s.mismatch.None?)
              && (s.pc.Done? ==>
                    && s.state.Error? && ErrorOnRecord(s)
                    && (s.lastErr.value.HostKeyRejected? || s.lastErr.value.RateLimited? || !p.autoRestart))
  {
    RunKeepsHonesty(p, now, err, mm, acts);
    RunKeepsShape(p, now, err, mm, acts);
    EveryRunIsWellNested(p, now, err, mm, acts);
    var s := Run(p, Started(now, err, mm), acts);
    if !s.cancelled && s.state.Running? {
      RunningMeansEverythingIsUp(p, s);
    }
  }

  lemma RunningMeansEverythingIsUp(p: Params, s: Sup)
    requires Shape(p, s) && Honest(p, s) && !s.cancelled && s.state.Running?
    ensures s.chain.Some? && |s.chain.value| == p.hops && |s.fwds| == Wanted(p)
    ensures OpenStack(s) == s.chain.value + s.fwds
    ensures s.lastErr.None? && s.mismatch.None?
  {
    assert s.pc.Wait? || s.pc.Degrade?;
    assert OpenStack(s) == s.clients + s.forwards;
  }
}
