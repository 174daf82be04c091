/** That the loop goes on: failures are put on record, and another attempt follows. */
module SupervisorRetry {
  import opened Prelude
  import opened SupervisorMachine
  import opened SupervisorSafety
  import opened SupervisorReach
  import opened SupervisorStop
  import opened Backoff
  import RateLimit

  ghost predicate NoStop(acts: seq<Act>) {
    forall i :: 0 <= i < |acts| ==> !acts[i].Stop?
  }

  /** How far the clock moves. */
  function Elapsed(acts: seq<Act>): nat
    decreases |acts|
  {
    if acts == [] then 0
    else Elapsed(acts[..|acts| - 1]) + if acts[|acts| - 1].Tick? then acts[|acts| - 1].dt else 0
  }

  /** Restarts the limiter has refused. */
  function Refusals(trace: seq<Event>): nat
    decreases |trace|
  {
    if trace == [] then 0
    else Refusals(DropLast(trace)) + if trace[|trace| - 1].Checked? && !trace[|trace| - 1].admitted then 1 else 0
  }

  lemma RefusalsSnoc(trace: seq<Event>, e: Event)
    ensures Refusals(trace + [e]) == Refusals(trace) + if e.Checked? && !e.admitted then 1 else 0
  {
    assert DropLast(trace + [e]) == trace;
  }

  /** No delay is longer than that many milliseconds. */
  ghost predicate Within(p: Params, ms: int) {
    ms >= 0 && forall attempt: nat, jitter: Jitter :: p.delay(attempt, jitter) <= ms
  }

  lemma DelaysAreWithin(p: Params, b: BackoffCalc)
    requires BacksOffBy(p, b) && b.Valid()
    ensures Within(p, (1.1 * b.maxMs as real).Floor)
  {
    forall attempt: nat, jitter: Jitter ensures p.delay(attempt, jitter) <= (1.1 * b.maxMs as real).Floor {
      DelayWithinBounds(b, attempt, jitter);
    }
  }

  // ---------------------------------------------------------------- on the way back

  /** The cause a failure on its way to the record carries. */
  function Carried(pc: Loc): Option<Cause> {
    match pc
    case Unwind(why) => Some(why)
    case ChainErr(why) => Some(why)
    case ReportChainErr(why) => Some(why)
    case UnwindForwards(why) => Some(why)
    case ReportForwardErr(why) => Some(why)
    case Degrade(msg) => msg
    case _ => None
  }

  /** From a failure, unless it is a rejected host key, to the next attempt. */
  predicate Returning(pc: Loc) {
    match pc
    case Unwind(why) => !why.HostKeyRejected?
    case ChainErr(why) => !why.HostKeyRejected?
    case ReportChainErr(why) => !why.HostKeyRejected?
    case UnwindForwards(_) | ReportForwardErr(_) | CloseChain | Degrade(_) | Cleanup | Detach | AfterRun
       | Retry(_) | Pause(_) | Sleep(_, _) | Resume(_) | Begin => true
    case _ => false
  }

  /** How many turns of the loop it is to that attempt, not counting those that find it asleep. */
  function Ahead(s: Sup): nat {
    var c, f := |s.clients|, |s.forwards|;
    match s.pc
    case Begin => 1
    case Resume(_) => 2
    case Sleep(_, _) => 3
    case Pause(_) => 4
    case Retry(_) => 5
    case ReportChainErr(_) | AfterRun => 6
    case ChainErr(_) | Detach => 7
    case Unwind(_) | CloseChain => 8 + c
    case ReportForwardErr(_) => 9 + c
    case UnwindForwards(_) => 10 + c + f
    case Cleanup => 8 + c + f
    case Degrade(_) => 9 + c + f
    case _ => 0
  }

  /** A sleeping loop is woken at this instant at the latest. */
  predicate WokenBy(s: Sup, deadline: int) {
    s.pc.Sleep? ==> s.pc.until <= deadline
  }

  /** Asleep, and not yet due. */
  predicate Dozing(s: Sup) {
    s.pc.Sleep? && s.now < s.pc.until
  }

  lemma BuildReturns(p: Params, s: Sup, c: Choice)
    requires InBuild(s.pc) && !s.pc.Begin? && Returning(s.pc) && !s.cancelled
    ensures var t := BuildStep(p, s, c); Returning(t.pc) && !t.pc.Sleep? && Ahead(t) < Ahead(s)
  {
  }

  lemma ServiceReturns(p: Params, s: Sup, c: Choice)
    requires InService(s.pc) && Returning(s.pc) && !s.cancelled
    ensures var t := ServiceStep(p, s, c); Returning(t.pc) && !t.pc.Sleep? && Ahead(t) < Ahead(s)
  {
  }

  /** The check itself may refuse; after it the loop sleeps, wakes when due, and starts over. */
  lemma RestartReturns(p: Params, s: Sup, c: Choice, ms: int)
    requires !InBuild(s.pc) && !InService(s.pc) && Returning(s.pc) && !s.cancelled
    requires p.autoRestart && Within(p, ms) && WokenBy(s, s.now + Nanos(ms))
    ensures var t := RestartStep(p, s, c);
            || (s.pc.Retry? && Refusals(t.trace) == Refusals(s.trace) + 1)
            || (Returning(t.pc) && WokenBy(t, t.now + Nanos(ms)) && t.now == s.now
                && if Dozing(s) then t == s else Ahead(t) < Ahead(s))
  {
    if s.pc.Retry? {
      var over := RateLimit.Exceeded(s.restartTimes, s.now, p.maxRestartsPerHour);
      RefusalsSnoc(s.trace, Checked(s.now, !over));
    }
  }

  // ---------------------------------------------------------------- one act

  /** What is on the trace stays there. */
  lemma CountsGrow(p: Params, s: Sup, a: Act)
    ensures Attempts(Next(p, s, a).trace) >= Attempts(s.trace)
    ensures Refusals(Next(p, s, a).trace) >= Refusals(s.trace)
  {
    OneEventAtMost(p, s, a);
    var t := Next(p, s, a);
    if t.trace != s.trace {
      AttemptsSnoc(s.trace, t.trace[|s.trace|]);
      RefusalsSnoc(s.trace, t.trace[|s.trace|]);
    }
  }

  /** Uncancelled and on the way to the next attempt, asleep until the deadline at most. */
  ghost predicate OnTheWay(s: Sup, deadline: int) {
    !s.cancelled && Returning(s.pc) && WokenBy(s, deadline)
  }

  /** Another attempt was made since, or (where that still had to be asked) the limiter has refused one. */
  ghost predicate Settled(before: Sup, s: Sup, mayRefuse: bool) {
    Attempts(s.trace) > Attempts(before.trace) || (mayRefuse && Refusals(s.trace) > Refusals(before.trace))
  }

  lemma OneTurn(p: Params, s: Sup, c: Choice, ms: int)
    requires p.autoRestart && Within(p, ms) && OnTheWay(s, s.now + Nanos(ms))
    ensures var t := LoopStep(p, s, c);
            || Settled(s, t, s.pc.Retry?)
            || (Returning(t.pc) && WokenBy(t, s.now + Nanos(ms)) && if Dozing(s) then t == s else Ahead(t) < Ahead(s))
  {
    if s.pc.Begin? {
      AttemptsSnoc(s.trace, Attempt(s.now));
    } else if InBuild(s.pc) {
      BuildReturns(p, s, c);
    } else if InService(s.pc) {
      ServiceReturns(p, s, c);
    } else {
      RestartReturns(p, s, c, ms);
    }
  }

  /** Only Stop cancels, and only the clock moves the time. */
  lemma StaysUncancelled(p: Params, s: Sup, a: Act)
    requires !a.Stop?
    ensures Next(p, s, a).cancelled == s.cancelled
    ensures Next(p, s, a).now == s.now + if a.Tick? then a.dt else 0
  {
    if a.Loop? {
      LoopKeepsTheTime(p, s, a.c);
    }
  }

  lemma LoopKeepsTheTime(p: Params, s: Sup, c: Choice)
    ensures LoopStep(p, s, c).cancelled == s.cancelled && LoopStep(p, s, c).now == s.now
  {
  }

  lemma OneAct(p: Params, s: Sup, a: Act, ms: int)
    requires p.autoRestart && Within(p, ms) && OnTheWay(s, s.now + Nanos(ms)) && !a.Stop?
    ensures var t := Next(p, s, a);
            || Settled(s, t, s.pc.Retry?)
            || (OnTheWay(t, t.now + Nanos(ms)) && Ahead(t) <= Ahead(s)
                && (a.Loop? && !Dozing(s) ==> Ahead(t) < Ahead(s))
                && (Ahead(s) <= 3 && t.pc.Sleep? ==> t.pc == s.pc))
  {
    StaysUncancelled(p, s, a);
    if a.Loop? {
      OneTurn(p, s, a.c, ms);
    }
  }

  // ---------------------------------------------------------------- many acts

  lemma {:induction false} CountsGrowThroughout(p: Params, s: Sup, acts: seq<Act>)
    ensures Attempts(Run(p, s, acts).trace) >= Attempts(s.trace)
    ensures Refusals(Run(p, s, acts).trace) >= Refusals(s.trace)
    decreases |acts|
  {
    if acts != [] {
      CountsGrowThroughout(p, s, acts[..|acts| - 1]);
      CountsGrow(p, Run(p, s, acts[..|acts| - 1]), acts[|acts| - 1]);
    }
  }

  lemma {:induction false} TimePasses(p: Params, s: Sup, acts: seq<Act>)
    requires NoStop(acts)
    ensures Run(p, s, acts).now == s.now + Elapsed(acts) && Run(p, s, acts).cancelled == s.cancelled
    decreases |acts|
  {
    if acts != [] {
      TimePasses(p, s, acts[..|acts| - 1]);
      StaysUncancelled(p, Run(p, s, acts[..|acts| - 1]), acts[|acts| - 1]);
    }
  }

  /** With enough turns the loop is asleep or further. */
  ghost predicate FallenAsleep(s: Sup, t: Sup, turns: nat, ms: int) {
    || Settled(s, t, Ahead(s) >= 5)
    || (OnTheWay(t, t.now + Nanos(ms)) && Ahead(t) <= Ahead(s) && (Ahead(t) <= 3 || Ahead(t) + turns <= Ahead(s)))
  }

  lemma {:induction false} FallsAsleep(p: Params, s: Sup, acts: seq<Act>, ms: int)
    requires p.autoRestart && Within(p, ms) && OnTheWay(s, s.now + Nanos(ms)) && NoStop(acts)
    ensures FallenAsleep(s, Run(p, s, acts), LoopActs(acts), ms)
    decreases |acts|
  {
    if acts != [] {
      var init, a := acts[..|acts| - 1], acts[|acts| - 1];
      var t := Run(p, s, init);
      FallsAsleep(p, s, init, ms);
      CountsGrowThroughout(p, s, init);
      CountsGrow(p, t, a);
      if OnTheWay(t, t.now + Nanos(ms)) {
        OneAct(p, t, a, ms);
      }
    }
  }

  /** Once it is, it wakes at the deadline at the latest, and then each turn counts. */
  ghost predicate Woken(s: Sup, t: Sup, turns: nat, deadline: int) {
    || Settled(s, t, false)
    || (OnTheWay(t, deadline) && Ahead(t) <= Ahead(s) && (s.now >= deadline ==> Ahead(t) + turns <= Ahead(s)))
  }

  lemma {:induction false} WakesUp(p: Params, s: Sup, acts: seq<Act>, ms: int, deadline: int)
    requires p.autoRestart && Within(p, ms) && OnTheWay(s, deadline) && Ahead(s) <= 3 && NoStop(acts)
    requires deadline <= s.now + Nanos(ms)
    ensures Woken(s, Run(p, s, acts), LoopActs(acts), deadline)
    decreases |acts|
  {
    if acts != [] {
      var init, a := acts[..|acts| - 1], acts[|acts| - 1];
      var t := Run(p, s, init);
      WakesUp(p, s, init, ms, deadline);
      TimePasses(p, s, init);
      CountsGrowThroughout(p, s, init);
      CountsGrow(p, t, a);
      if OnTheWay(t, deadline) {
        OneAct(p, t, a, ms);
      }
    }
  }

  // ---------------------------------------------------------------- another attempt

  /** Turns enough to fall asleep, then time to wake up, then three turns more; and nobody stops the tunnel. */
  ghost predicate Patiently(p: Params, first: seq<Act>, wait: seq<Act>, late: seq<Act>, ms: int) {
    && NoStop(first) && NoStop(wait) && NoStop(late)
    && LoopActs(first) >= 10 + p.hops + Wanted(p) && Elapsed(wait) >= Nanos(ms) && LoopActs(late) >= 3
  }

  lemma AheadIsBounded(p: Params, s: Sup)
    requires Shape(p, s)
    ensures Ahead(s) <= 10 + p.hops + Wanted(p)
  {
  }

  lemma ComesBack(p: Params, s: Sup, first: seq<Act>, wait: seq<Act>, late: seq<Act>, ms: int)
    requires p.autoRestart && Within(p, ms) && OnTheWay(s, s.now + Nanos(ms)) && Shape(p, s) && Patiently(p, first, wait, late, ms)
    ensures Settled(s, Run(p, s, first + wait + late), Ahead(s) >= 5)
  {
    AheadIsBounded(p, s);
    var s1 := Run(p, s, first);
    var s2 := Run(p, s1, wait);
    var s3 := Run(p, s2, late);
    RunCompose(p, s, first, wait);
    RunCompose(p, s, first + wait, late);
    FallsAsleep(p, s, first, ms);
    CountsGrowThroughout(p, s, first);
    CountsGrowThroughout(p, s1, wait);
    CountsGrowThroughout(p, s2, late);
    if OnTheWay(s1, s1.now + Nanos(ms)) && Ahead(s1) <= 3 {
      var deadline := s1.now + Nanos(ms);
      WakesUp(p, s1, wait, ms, deadline);
      TimePasses(p, s1, wait);
      if OnTheWay(s2, deadline) && Ahead(s2) <= 3 {
        WakesUp(p, s2, late, ms, deadline);
        AheadIsPositive(s3);
      }
    }
  }

  lemma AheadIsPositive(s: Sup)
    ensures Returning(s.pc) ==> Ahead(s) > 0
  {
  }

  // ---------------------------------------------------------------- over runs

  lemma {:induction false} SleepsAreWithin(p: Params, now: int, err: Option<Cause>, mm: Option<nat>, acts: seq<Act>, ms: int)
    requires Within(p, ms)
    ensures var s := Run(p, Started(now, err, mm), acts); WokenBy(s, s.now + Nanos(ms))
    decreases |acts|
  {
    if acts != [] {
      var init, a := acts[..|acts| - 1], acts[|acts| - 1];
      SleepsAreWithin(p, now, err, mm, init, ms);
      NextSleepsWithin(p, Run(p, Started(now, err, mm), init), a, ms);
    }
  }

  lemma NextSleepsWithin(p: Params, s: Sup, a: Act, ms: int)
    requires Within(p, ms) && WokenBy(s, s.now + Nanos(ms))
    ensures WokenBy(Next(p, s, a), Next(p, s, a).now + Nanos(ms))
  {
    if a.Loop? {
      if InBuild(s.pc) {
      } else if InService(s.pc) {
      } else {
      }
    }
  }

  /**
   With automatic restart, whatever failed (unless it was a rejected host key) and
   wherever the loop is on its way from that failure, if nobody stops the tunnel
   then after enough turns, the longest delay and three turns more it has made
   another attempt, or the limiter has refused one. Once it is about to sleep, or
   asleep, it can only have made the attempt.
   */
  lemma AnotherAttemptFollows(
      p: Params, now: int, err: Option<Cause>, mm: Option<nat>, before: seq<Act>,
      first: seq<Act>, wait: seq<Act>, late: seq<Act>, ms: int)
    requires p.autoRestart && Within(p, ms)
    requires var s := Run(p, Started(now, err, mm), before);
             !s.cancelled && Returning(s.pc) && Patiently(p, first, wait, late, ms)
    ensures var s0 := Started(now, err, mm);
            var s, t := Run(p, s0, before), Run(p, s0, before + (first + wait + late));
            && (|| Attempts(t.trace) > Attempts(s.trace)
                || Refusals(t.trace) > Refusals(s.trace))
            && (s.pc.Pause? || s.pc.Sleep? || s.pc.Resume? || s.pc.Begin? ==> Attempts(t.trace) > Attempts(s.trace))
  {
    var s0 := Started(now, err, mm);
    SleepsAreWithin(p, now, err, mm, before, ms);
    RunKeepsShape(p, now, err, mm, before);
    ComesBack(p, Run(p, s0, before), first, wait, late, ms);
    RunCompose(p, s0, before, first + wait + late);
  }
}
