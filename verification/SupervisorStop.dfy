/** Cancellation ends every run, and what a completed Stop leaves behind. */
module SupervisorStop {
  import opened Prelude
  import opened SupervisorMachine
  import opened SupervisorSafety
  import opened SupervisorReach
  import RateLimit

  function LoopActs(acts: seq<Act>): nat
    decreases |acts|
  {
    if acts == [] then 0 else LoopActs(acts[..|acts| - 1]) + if acts[|acts| - 1].Loop? then 1 else 0
  }

  /**
   An upper bound on the loop regions a cancelled supervisor still runs. A dial
   at the first hop must fail; at later hops the chain may still come up, the
   forwarders start, and everything be taken down again.
   */
  function Rank(p: Params, s: Sup): nat {
    var w, c, f := Wanted(p), |s.clients|, |s.forwards|;
    match s.pc
    case Done => 0
    case Leave => 1
    case Halt(_) | Limited(_) => 2
    case ChainErr(_) | AfterRun => 3
    case Detach => 4
    case Unwind(_) => 4 + c
    case Dial => if c == 0 && p.hops > 0 then 5 else 16 + p.hops + 2 * w + 2 * Gap(p.hops, c)
    case Begin => 6
    case Resume(_) => 7
    case Sleep(_, _) => 8
    case Pause(_) => 9
    case Retry(_) => 10
    case ReportChainErr(_) => 11
    case Cleanup => 5 + c + f
    case Degrade(_) => 6 + c + f
    case Wait => 7 + c + f
    case GoLive => 8 + c + f
    case CloseChain => 11 + c
    case ReportForwardErr(_) => 12 + c
    case UnwindForwards(_) => 13 + c + f
    case StartForward => 14 + c + w + Gap(w, f)
    case Attach => 15 + c + 2 * w
    case Handshake => 15 + p.hops + 2 * w + 2 * Gap(p.hops, c)
  }

  function Gap(whole: nat, part: nat): nat {
    if part <= whole then whole - part else 0
  }

  function Bound(p: Params): nat {
    16 + 3 * p.hops + 2 * Wanted(p)
  }

  lemma RankIsBounded(p: Params, s: Sup)
    requires Shape(p, s)
    ensures Rank(p, s) <= Bound(p)
  {
  }

  lemma RankIsPositive(p: Params, s: Sup)
    requires !s.pc.Done?
    ensures Rank(p, s) > 0
  {
  }

  lemma BuildDescends(p: Params, s: Sup, c: Choice)
    requires InBuild(s.pc) && Shape(p, s) && s.cancelled
    ensures Rank(p, BuildStep(p, s, c)) < Rank(p, s)
  {
  }

  lemma ServiceDescends(p: Params, s: Sup, c: Choice)
    requires InService(s.pc) && Shape(p, s) && s.cancelled
    ensures Rank(p, ServiceStep(p, s, c)) < Rank(p, s)
  {
  }

  lemma RestartDescends(p: Params, s: Sup, c: Choice)
    requires !InBuild(s.pc) && !InService(s.pc) && Shape(p, s) && s.cancelled && s.pc != Done
    ensures Rank(p, RestartStep(p, s, c)) < Rank(p, s)
  {
  }

  lemma NextDescends(p: Params, s: Sup, a: Act)
    requires Shape(p, s) && s.cancelled
    ensures var t := Next(p, s, a);
            && t.cancelled && Shape(p, t)
            && (s.pc.Done? ==> t.pc.Done?)
            && (!s.pc.Done? ==> Rank(p, t) + (if a.Loop? then 1 else 0) <= Rank(p, s))
  {
    NextKeepsShape(p, s, a);
    if a.Loop? && s.pc != Done {
      if InBuild(s.pc) {
        BuildDescends(p, s, a.c);
      } else if InService(s.pc) {
        ServiceDescends(p, s, a.c);
      } else {
        RestartDescends(p, s, a.c);
      }
    }
    CancelledStays(p, s, a);
  }

  lemma CancelledStays(p: Params, s: Sup, a: Act)
    requires s.cancelled
    ensures Next(p, s, a).cancelled
  {
  }

  lemma {:induction false} CancelledRunDescends(p: Params, s: Sup, acts: seq<Act>)
    requires Shape(p, s) && s.cancelled
    ensures var t := Run(p, s, acts);
            && Shape(p, t) && t.cancelled
            && (t.pc.Done? || Rank(p, t) + LoopActs(acts) <= Rank(p, s))
    decreases |acts|
  {
    if acts != [] {
      CancelledRunDescends(p, s, acts[..|acts| - 1]);
      NextDescends(p, Run(p, s, acts[..|acts| - 1]), acts[|acts| - 1]);
    }
  }

  lemma EnoughTurnsFinish(p: Params, s: Sup, acts: seq<Act>)
    requires Shape(p, s) && s.cancelled && LoopActs(acts) >= Rank(p, s)
    ensures Run(p, s, acts).pc == Done
  {
    CancelledRunDescends(p, s, acts);
    var t := Run(p, s, acts);
    if !t.pc.Done? {
      RankIsPositive(p, t);
    }
  }

  /**
   Once the loop's context is cancelled, at whatever point of whatever run, every
   schedule that gives the loop enough turns sees it return.
   */
  lemma CancelledLoopReturns(p: Params, now: int, err: Option<Cause>, mm: Option<nat>, before: seq<Act>, after: seq<Act>)
    requires Run(p, Started(now, err, mm), before).cancelled
    requires LoopActs(after) >= Bound(p)
    ensures Run(p, Started(now, err, mm), before + after).pc == Done
  {
    var s0 := Started(now, err, mm);
    var s := Run(p, s0, before);
    RunKeepsShape(p, now, err, mm, before);
    RunCompose(p, s0, before, after);
    RankIsBounded(p, s);
    EnoughTurnsFinish(p, s, after);
  }

  // ------------------------------------------------- no fresh chain after cancellation

  function Attempts(trace: seq<Event>): nat
    decreases |trace|
  {
    if trace == [] then 0 else Attempts(DropLast(trace)) + if trace[|trace| - 1].Attempt? then 1 else 0
  }

  /** Whether a cancelled loop can still come back to the top and build once more. */
  function AttemptsLeft(p: Params, s: Sup): nat {
    match s.pc
    case Done | Leave | Halt(_) | Limited(_) | ChainErr(_) | AfterRun | Detach | Cleanup | Degrade(_)
       | Wait | Unwind(_) | GoLive => 0
    case Dial => if s.clients == [] && p.hops > 0 then 0 else 1
    case _ => 1
  }

  lemma AttemptsSnoc(trace: seq<Event>, e: Event)
    ensures Attempts(trace + [e]) == Attempts(trace) + if e.Attempt? then 1 else 0
  {
    assert DropLast(trace + [e]) == trace;
  }

  /** Building a chain counts as an attempt when it is begun, and at no other point. */
  lemma BuildCountsOnce(p: Params, s: Sup, c: Choice)
    requires InBuild(s.pc) && Shape(p, s)
    ensures Attempts(BuildStep(p, s, c).trace) == Attempts(s.trace) + if s.pc.Begin? then 1 else 0
  {
    if s.pc.Begin? {
      AttemptsSnoc(s.trace, Attempt(s.now));
    } else if s.pc.Dial? {
      AttemptsSnoc(s.trace, Open(Res(Conn, s.nextId)));
    } else if s.pc.Handshake? {
      AttemptsSnoc(s.trace, if c.ok then Upgrade(s.conn.value.id) else Close(s.conn.value));
    } else if s.pc.Unwind? {
      ClosingIsNoAttempt(s);
    }
  }

  lemma BuildLeavesFewer(p: Params, s: Sup, c: Choice)
    requires InBuild(s.pc) && Shape(p, s) && s.cancelled
    ensures AttemptsLeft(p, BuildStep(p, s, c)) + (if s.pc.Begin? then 1 else 0) <= AttemptsLeft(p, s)
  {
  }

  lemma BuildSpendsAttempts(p: Params, s: Sup, c: Choice)
    requires InBuild(s.pc) && Shape(p, s) && s.cancelled
    ensures var t := BuildStep(p, s, c);
            Attempts(t.trace) + AttemptsLeft(p, t) <= Attempts(s.trace) + AttemptsLeft(p, s)
  {
    BuildCountsOnce(p, s, c);
    BuildLeavesFewer(p, s, c);
  }

  lemma ClosingIsNoAttempt(s: Sup)
    ensures s.clients != [] ==> Attempts(CloseLastClient(s).trace) == Attempts(s.trace)
    ensures s.forwards != [] ==> Attempts(CloseLastForward(s).trace) == Attempts(s.trace)
  {
    if s.clients != [] {
      AttemptsSnoc(s.trace, Close(s.clients[|s.clients| - 1]));
    }
    if s.forwards != [] {
      AttemptsSnoc(s.trace, Close(s.forwards[|s.forwards| - 1]));
    }
  }

  lemma ServiceSpendsAttempts(p: Params, s: Sup, c: Choice)
    requires InService(s.pc) && Shape(p, s) && s.cancelled
    ensures var t := ServiceStep(p, s, c);
            Attempts(t.trace) + AttemptsLeft(p, t) <= Attempts(s.trace) + AttemptsLeft(p, s)
  {
    match s.pc
    case GoLive => AttemptsSnoc(s.trace, Up);
    case StartForward => AttemptsSnoc(s.trace, Open(Res(Forwarder, s.nextId)));
    case UnwindForwards(_) | CloseChain | Cleanup => ClosingIsNoAttempt(s);
    case _ =>
  }

  lemma RestartSpendsAttempts(p: Params, s: Sup, c: Choice)
    requires !InBuild(s.pc) && !InService(s.pc) && Shape(p, s) && s.cancelled
    ensures var t := RestartStep(p, s, c);
            Attempts(t.trace) + AttemptsLeft(p, t) <= Attempts(s.trace) + AttemptsLeft(p, s)
  {
    match s.pc
    case Retry(_) =>
      AttemptsSnoc(s.trace, Checked(s.now, !RateLimit.Exceeded(s.restartTimes, s.now, p.maxRestartsPerHour)));
    case Pause(_) => AttemptsSnoc(s.trace, Slept(s.restartCount, p.delay(s.restartCount, c.jitter)));
    case Leave => AttemptsSnoc(s.trace, Returned);
    case _ =>
  }

  lemma NextSpendsAttempts(p: Params, s: Sup, a: Act)
    requires Shape(p, s) && s.cancelled
    ensures var t := Next(p, s, a);
            Attempts(t.trace) + AttemptsLeft(p, t) <= Attempts(s.trace) + AttemptsLeft(p, s)
  {
    if a.Loop? {
      if InBuild(s.pc) {
        BuildSpendsAttempts(p, s, a.c);
      } else if InService(s.pc) {
        ServiceSpendsAttempts(p, s, a.c);
      } else {
        RestartSpendsAttempts(p, s, a.c);
      }
    }
  }

  /** After cancellation BuildChain is entered at most once more. */
  lemma {:induction false} AtMostOneMoreAttempt(p: Params, s: Sup, acts: seq<Act>)
    requires Shape(p, s) && s.cancelled
    ensures Attempts(Run(p, s, acts).trace) + AttemptsLeft(p, Run(p, s, acts)) <= Attempts(s.trace) + AttemptsLeft(p, s)
    ensures Attempts(Run(p, s, acts).trace) <= Attempts(s.trace) + 1
    decreases |acts|
  {
    if acts != [] {
      var init, a := acts[..|acts| - 1], acts[|acts| - 1];
      AtMostOneMoreAttempt(p, s, init);
      CancelledRunDescends(p, s, init);
      NextSpendsAttempts(p, Run(p, s, init), a);
    }
  }

  /** Where a cancelled loop stays once it has come back to the top. */
  ghost predicate Doomed(p: Params, s: Sup) {
    && s.cancelled && s.clients == [] && s.conn == None && s.forwards == []
    && (s.pc.Begin? || (s.pc.Dial? && p.hops > 0) || s.pc.Unwind? || s.pc.ChainErr? || s.pc == Halt(Stopped)
        || s.pc.Leave? || s.pc.Done?)
  }

  lemma DoomedRegion(p: Params, s: Sup, c: Choice)
    requires Doomed(p, s)
    ensures var t := LoopStep(p, s, c);
            && Doomed(p, t)
            && (t.trace == s.trace || t.trace == s.trace + [Attempt(s.now)] || t.trace == s.trace + [Returned])
  {
  }

  lemma DoomStays(p: Params, s: Sup, a: Act, id: nat)
    requires Doomed(p, s)
    ensures Doomed(p, Next(p, s, a))
    ensures Opens(Next(p, s, a).trace, id) == Opens(s.trace, id)
  {
    if a.Loop? {
      DoomedRegion(p, s, a.c);
      OpensSnoc(s.trace, Attempt(s.now), id);
      OpensSnoc(s.trace, Returned, id);
    }
  }

  lemma {:induction false} DoomedOpensNothing(p: Params, s: Sup, acts: seq<Act>, id: nat)
    requires Doomed(p, s)
    ensures Doomed(p, Run(p, s, acts))
    ensures Opens(Run(p, s, acts).trace, id) == Opens(s.trace, id)
    decreases |acts|
  {
    if acts != [] {
      DoomedOpensNothing(p, s, acts[..|acts| - 1], id);
      DoomStays(p, Run(p, s, acts[..|acts| - 1]), acts[|acts| - 1], id);
    }
  }

  /** A cancelled loop that comes back to the top gets no further than its first dial: from there on nothing is opened. */
  lemma TheLastAttemptOpensNothing(
      p: Params, now: int, err: Option<Cause>, mm: Option<nat>, before: seq<Act>, after: seq<Act>, id: nat)
    requires Run(p, Started(now, err, mm), before).cancelled && Run(p, Started(now, err, mm), before).pc.Begin?
    ensures Opens(Run(p, Started(now, err, mm), before + after).trace, id) == Opens(Run(p, Started(now, err, mm), before).trace, id)
  {
    var s := Run(p, Started(now, err, mm), before);
    RunKeepsShape(p, now, err, mm, before);
    assert Doomed(p, s);
    DoomedOpensNothing(p, s, after, id);
    RunCompose(p, Started(now, err, mm), before, after);
  }

  // ------------------------------------------------- what Stop leaves behind

  lemma {:induction false} StoppedStaysStopped(p: Params, s: Sup, acts: seq<Act>)
    requires s.pc.Done? && s.state.Stopped?
    ensures Run(p, s, acts).pc.Done? && Run(p, s, acts).state.Stopped?
    ensures Run(p, s, acts).chain == s.chain && Run(p, s, acts).fwds == s.fwds
    decreases |acts|
  {
    if acts != [] {
      StoppedStaysStopped(p, s, acts[..|acts| - 1]);
    }
  }

  /**
   A Stop that has seen the loop return leaves the tunnel Stopped for good, with
   no chain, no forwarders and nothing open, whatever state the loop had written
   over Stopping in the meantime.
   */
  lemma StopLeavesNothingBehind(p: Params, now: int, err: Option<Cause>, mm: Option<nat>, acts: seq<Act>, later: seq<Act>)
    ensures var seen := Run(p, Started(now, err, mm), acts);
            var s := Run(p, Started(now, err, mm), acts + [Finish] + later);
            seen.pc.Done? && seen.waiting > 0 ==>
              s.state.Stopped? && s.chain == None && s.fwds == [] && Replay(s.trace) == Some([])
  {
    var s0 := Started(now, err, mm);
    var seen := Run(p, s0, acts);
    if seen.pc.Done? && seen.waiting > 0 {
      assert (acts + [Finish])[..|acts|] == acts;
      RunKeepsShape(p, now, err, mm, acts);
      RunCompose(p, s0, acts + [Finish], later);
      StoppedStaysStopped(p, FinishStep(seen), later);
      EveryRunIsWellNested(p, now, err, mm, acts + [Finish] + later);
    }
  }

  predicate OnlyLoopAndClock(acts: seq<Act>) {
    forall i :: 0 <= i < |acts| ==> acts[i].Loop? || acts[i].Tick?
  }

  lemma TheLoopLeavesWaitersAlone(p: Params, s: Sup, c: Choice)
    ensures LoopStep(p, s, c).waiting == s.waiting
  {
  }

  lemma {:induction false} WaitersWait(p: Params, s: Sup, acts: seq<Act>)
    requires OnlyLoopAndClock(acts)
    ensures Run(p, s, acts).waiting == s.waiting
    decreases |acts|
  {
    if acts != [] {
      var init, a := acts[..|acts| - 1], acts[|acts| - 1];
      WaitersWait(p, s, init);
      if a.Loop? {
        TheLoopLeavesWaitersAlone(p, Run(p, s, init), a.c);
      }
    }
  }

  /**
   Stop from start to end: issued at any moment of any run in which the tunnel is
   not already stopped or stopping, and waited for long enough, it succeeds.
   */
  lemma StopSucceeds(p: Params, now: int, err: Option<Cause>, mm: Option<nat>, before: seq<Act>, during: seq<Act>)
    requires var s := Run(p, Started(now, err, mm), before); !s.state.Stopped? && !s.state.Stopping?
    requires OnlyLoopAndClock(during) && LoopActs(during) >= Bound(p)
    ensures var s := Run(p, Started(now, err, mm), before + [Stop] + during + [Finish]);
            && s.pc.Done? && s.state.Stopped? && s.chain == None && s.fwds == [] && Replay(s.trace) == Some([])
  {
    var s0 := Started(now, err, mm);
    var issued := before + [Stop];
    assert issued[..|before|] == before;
    var s := Run(p, s0, issued);
    assert s == StopStep(Run(p, s0, before));
    CancelledLoopReturns(p, now, err, mm, issued, during);
    RunCompose(p, s0, issued, during);
    WaitersWait(p, s, during);
    StopLeavesNothingBehind(p, now, err, mm, issued + during, []);
    assert issued + during + [Finish] + [] == before + [Stop] + during + [Finish];
    assert (issued + during + [Finish])[..|issued + during|] == issued + during;
  }
}
