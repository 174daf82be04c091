/** What comes of an attempt: the tunnel is up, or what failed is on record. */
module SupervisorOutcomes {
  import opened Prelude
  import opened SupervisorMachine
  import opened SupervisorSafety
  import opened SupervisorReach
  import opened SupervisorStop
  import opened SupervisorRetry
  import RateLimit

  // ---------------------------------------------------------------- failures are put on record

  /** What fails at this point with this answer, and what that is called. */
  function Failing(p: Params, s: Sup, c: Choice): Option<Cause> {
    var hop, j := |s.clients|, |s.forwards|;
    match s.pc
    case Begin => if |p.keepalive| == 0 then Some(EmptyChain) else None
    case Dial =>
      if hop >= |p.keepalive| then None
      else if !c.authOk then Some(AuthFailed(hop))
      else if !c.ok then Some(DialFailed(hop))
      else None
    case Handshake =>
      if c.ok then None
      else if c.keyMismatch then Some(HostKeyRejected(hop))
      else Some(HandshakeFailed(hop))
    case StartForward => if p.knownMode && j < p.mappings && !c.ok then Some(ForwardFailed(j)) else None
    case Wait =>
      if c.channel < |Channels(p.keepalive)| && !c.ok then Some(KeepaliveFailed(c.channel, Channels(p.keepalive)[c.channel]))
      else None
    case _ => None
  }

  /** How many turns of the loop a failure still takes to the record. */
  function ToRecord(s: Sup): nat {
    match s.pc
    case Unwind(_) => |s.clients| + 3
    case ChainErr(_) => 2
    case UnwindForwards(_) => |s.forwards| + 2
    case _ => 1
  }

  /** The failure is on record, with the host key detail exactly if it was about a host key. */
  ghost predicate OnRecord(s: Sup, why: Cause, state: TunnelState) {
    && s.lastErr == Some(why) && s.state == state
    && s.mismatch == if why.HostKeyRejected? then Some(why.hop) else None
  }

  /** A tunnel that served is degraded by a failure; before that it is in error. */
  function StateAfter(why: Cause): TunnelState {
    if why.KeepaliveFailed? then Degraded else Error
  }

  /** The causes match the places they are carried at, and a tunnel that serves has no host key on record. */
  ghost predicate Proper(s: Sup) {
    Causes(s) && (s.pc.Degrade? ==> s.mismatch == None)
  }

  lemma BuildRecords(p: Params, s: Sup, c: Choice)
    requires InBuild(s.pc) && !s.cancelled && Carried(s.pc).Some? && Proper(s)
    ensures var t, why := BuildStep(p, s, c), Carried(s.pc).value;
            if ToRecord(s) > 1 then Carried(t.pc) == Some(why) && Proper(t) && ToRecord(t) == ToRecord(s) - 1
            else OnRecord(t, why, StateAfter(why)) && !t.pc.Done?
  {
  }

  lemma ServiceRecords(p: Params, s: Sup, c: Choice)
    requires InService(s.pc) && !s.cancelled && Carried(s.pc).Some? && Proper(s)
    ensures var t, why := ServiceStep(p, s, c), Carried(s.pc).value;
            if ToRecord(s) > 1 then Carried(t.pc) == Some(why) && Proper(t) && ToRecord(t) == ToRecord(s) - 1
            else OnRecord(t, why, StateAfter(why)) && !t.pc.Done?
  {
  }

  /** A failure is on its way to the record, or there. */
  ghost predicate Recording(s: Sup, why: Cause, turnsLeft: int) {
    && !s.cancelled && !s.pc.Done?
    && if turnsLeft > 0 then Carried(s.pc) == Some(why) && Proper(s) && ToRecord(s) == turnsLeft
       else OnRecord(s, why, StateAfter(why))
  }

  lemma RecordsOn(p: Params, s: Sup, a: Act, why: Cause, turnsLeft: nat)
    requires Recording(s, why, turnsLeft) && !a.Stop? && (a.Loop? ==> turnsLeft > 0)
    ensures Recording(Next(p, s, a), why, turnsLeft - if a.Loop? then 1 else 0)
  {
    StaysUncancelled(p, s, a);
    if a.Loop? {
      if InBuild(s.pc) {
        BuildRecords(p, s, a.c);
      } else {
        ServiceRecords(p, s, a.c);
      }
    }
  }

  lemma {:induction false} Records(p: Params, s: Sup, acts: seq<Act>, why: Cause, turnsLeft: nat)
    requires Recording(s, why, turnsLeft) && NoStop(acts) && LoopActs(acts) <= turnsLeft
    ensures Recording(Run(p, s, acts), why, turnsLeft - LoopActs(acts))
    decreases |acts|
  {
    if acts != [] {
      var init, a := acts[..|acts| - 1], acts[|acts| - 1];
      Records(p, s, init, why, turnsLeft);
      RecordsOn(p, Run(p, s, init), a, why, turnsLeft - LoopActs(init));
    }
  }

  lemma FailingStarts(p: Params, s: Sup, c: Choice)
    requires !s.cancelled && Shape(p, s) && Proper(s) && Failing(p, s, c).Some? && (s.pc.Wait? ==> s.mismatch == None)
    ensures var t := LoopStep(p, s, c); Recording(t, Failing(p, s, c).value, ToRecord(t))
  {
  }

  /**
   Whatever fails in a run that nobody stops: as soon as the loop had turns enough
   to clean up behind it, just that is on record and the tunnel says so.
   */
  lemma FailuresAreReported(
      p: Params, now: int, err: Option<Cause>, mm: Option<nat>, before: seq<Act>, c: Choice, after: seq<Act>)
    requires var s := Run(p, Started(now, err, mm), before);
             && !s.cancelled && Failing(p, s, c).Some? && NoStop(after)
             && LoopActs(after) == ToRecord(LoopStep(p, s, c))
    ensures var s0 := Started(now, err, mm);
            var why := Failing(p, Run(p, s0, before), c).value;
            OnRecord(Run(p, s0, before + ([Loop(c)] + after)), why, StateAfter(why))
  {
    var s0 := Started(now, err, mm);
    var s := Run(p, s0, before);
    RunKeepsShape(p, now, err, mm, before);
    RunKeepsHonesty(p, now, err, mm, before);
    FailingStarts(p, s, c);
    var t := LoopStep(p, s, c);
    Records(p, t, after, Failing(p, s, c).value, ToRecord(t));
    FirstAct(p, s, Loop(c), after);
    RunCompose(p, s0, before, [Loop(c)] + after);
  }

  // ---------------------------------------------------------------- no further attempt

  lemma NoAttempt(p: Params, s: Sup, a: Act)
    requires !(a.Loop? && s.pc.Begin?)
    ensures Attempts(Next(p, s, a).trace) == Attempts(s.trace)
  {
    OneEventAtMost(p, s, a);
    NoAttemptEvent(p, s, a);
    var t := Next(p, s, a);
    if t.trace != s.trace {
      AttemptsSnoc(s.trace, t.trace[|s.trace|]);
    }
  }

  lemma NoAttemptEvent(p: Params, s: Sup, a: Act)
    requires !(a.Loop? && s.pc.Begin?)
    ensures var t := Next(p, s, a);
            t.trace != s.trace && |t.trace| == |s.trace| + 1 ==> !t.trace[|s.trace|].Attempt?
  {
    if a.Loop? {
      if InBuild(s.pc) {
      } else if InService(s.pc) {
        NoAttemptInService(p, s, a.c);
      }
    }
  }

  lemma NoAttemptInService(p: Params, s: Sup, c: Choice)
    requires InService(s.pc)
    ensures var t := ServiceStep(p, s, c);
            t.trace != s.trace && |t.trace| == |s.trace| + 1 ==> !t.trace[|s.trace|].Attempt?
  {
  }

  /** The loop is on its way out because a host key was rejected, or is out. */
  predicate Ending(pc: Loc) {
    match pc
    case Unwind(why) => why.HostKeyRejected?
    case ChainErr(why) => why.HostKeyRejected?
    case ReportChainErr(why) => why.HostKeyRejected?
    case Halt(_) | Leave | Done => true
    case _ => false
  }

  lemma EndingStays(p: Params, s: Sup, a: Act)
    requires Ending(s.pc)
    ensures Ending(Next(p, s, a).pc)
  {
  }

  /** A rejected host key is never tried again, whatever else happens. */
  lemma {:induction false} RejectedHostKeysAreFinal(p: Params, s: Sup, acts: seq<Act>)
    requires Ending(s.pc)
    ensures Ending(Run(p, s, acts).pc) && Attempts(Run(p, s, acts).trace) == Attempts(s.trace)
    decreases |acts|
  {
    if acts != [] {
      var init, a := acts[..|acts| - 1], acts[|acts| - 1];
      RejectedHostKeysAreFinal(p, s, init);
      EndingStays(p, Run(p, s, init), a);
      NoAttempt(p, Run(p, s, init), a);
    }
  }

  /** Without automatic restart: before the first attempt, or never back to the top. */
  ghost predicate OnlyOnce(s: Sup) {
    && Attempts(s.trace) <= 1
    && (s.pc.Begin? ==> Attempts(s.trace) == 0)
    && !Further(s.pc)
  }

  lemma OnlyOnceStays(p: Params, s: Sup, a: Act)
    requires !p.autoRestart && OnlyOnce(s)
    ensures OnlyOnce(Next(p, s, a))
  {
    if a.Loop? && s.pc.Begin? {
      AttemptsSnoc(s.trace, Attempt(s.now));
    } else {
      NoAttempt(p, s, a);
      NotBackToTheTop(p, s, a);
    }
  }

  predicate Further(pc: Loc) {
    pc.Pause? || pc.Sleep? || pc.Resume? || pc.Limited?
  }

  lemma NotBackToTheTop(p: Params, s: Sup, a: Act)
    requires !p.autoRestart && !(a.Loop? && s.pc.Begin?) && !Further(s.pc)
    ensures (Next(p, s, a).pc.Begin? ==> s.pc.Begin?) && !Further(Next(p, s, a).pc)
  {
    if a.Loop? {
      if InBuild(s.pc) {
        NotBackFromBuild(p, s, a.c);
      } else if InService(s.pc) {
        NotBackFromService(p, s, a.c);
      }
    }
  }

  lemma NotBackFromBuild(p: Params, s: Sup, c: Choice)
    requires InBuild(s.pc)
    ensures BuildStep(p, s, c).pc.Begin? ==> s.pc.Begin?
    ensures !Further(BuildStep(p, s, c).pc)
  {
  }

  lemma NotBackFromService(p: Params, s: Sup, c: Choice)
    requires InService(s.pc)
    ensures !ServiceStep(p, s, c).pc.Begin? && !Further(ServiceStep(p, s, c).pc)
  {
  }

  /** Without automatic restart there is one attempt at most, over every run. */
  lemma {:induction false} OneAttemptWithoutRestart(p: Params, now: int, err: Option<Cause>, mm: Option<nat>, acts: seq<Act>)
    requires !p.autoRestart
    ensures OnlyOnce(Run(p, Started(now, err, mm), acts))
    decreases |acts|
  {
    if acts != [] {
      OneAttemptWithoutRestart(p, now, err, mm, acts[..|acts| - 1]);
      OnlyOnceStays(p, Run(p, Started(now, err, mm), acts[..|acts| - 1]), acts[|acts| - 1]);
    }
  }

  // ---------------------------------------------------------------- no retry without leave

  /** Restarts the limiter has admitted. */
  function Admissions(trace: seq<Event>): nat
    decreases |trace|
  {
    if trace == [] then 0
    else Admissions(DropLast(trace)) + if trace[|trace| - 1].Checked? && trace[|trace| - 1].admitted then 1 else 0
  }

  lemma AdmissionsSnoc(trace: seq<Event>, e: Event)
    ensures Admissions(trace + [e]) == Admissions(trace) + if e.Checked? && e.admitted then 1 else 0
  {
    assert DropLast(trace + [e]) == trace;
  }

  /** Whether an attempt is about to be made. */
  function Owed(pc: Loc): nat {
    if pc.Begin? || pc.Pause? || pc.Sleep? || pc.Resume? then 1 else 0
  }

  lemma OwedInBuild(p: Params, s: Sup, c: Choice)
    requires InBuild(s.pc)
    ensures Owed(BuildStep(p, s, c).pc) == 0
  {
  }

  lemma OwedInService(p: Params, s: Sup, c: Choice)
    requires InService(s.pc)
    ensures Owed(ServiceStep(p, s, c).pc) == 0
  {
  }

  lemma OwedAfterTheCheck(p: Params, s: Sup, phase: Phase)
    ensures var t := RetryStep(p, s, phase);
            Owed(t.pc) == 0 || Admissions(t.trace) == Admissions(s.trace) + 1
  {
    AdmissionsSnoc(s.trace, Checked(s.now, !RateLimit.Exceeded(s.restartTimes, s.now, p.maxRestartsPerHour)));
  }

  lemma OwedInRestart(p: Params, s: Sup, c: Choice)
    requires !InBuild(s.pc) && !InService(s.pc) && !s.pc.Retry?
    ensures Owed(RestartStep(p, s, c).pc) <= Owed(s.pc)
  {
  }

  lemma NextOwes(p: Params, s: Sup, a: Act)
    ensures var t := Next(p, s, a);
            && Admissions(t.trace) >= Admissions(s.trace)
            && (Owed(t.pc) <= Owed(s.pc) || Admissions(t.trace) == Admissions(s.trace) + 1)
            && (a.Loop? && s.pc.Begin? ==> Owed(t.pc) == 0)
  {
    OneEventAtMost(p, s, a);
    var t := Next(p, s, a);
    if t.trace != s.trace {
      AdmissionsSnoc(s.trace, t.trace[|s.trace|]);
    }
    if a.Loop? {
      if InBuild(s.pc) {
        OwedInBuild(p, s, a.c);
      } else if InService(s.pc) {
        OwedInService(p, s, a.c);
      } else if s.pc.Retry? {
        OwedAfterTheCheck(p, s, s.pc.phase);
      } else {
        OwedInRestart(p, s, a.c);
      }
    }
  }

  /** Over every run, the limiter was asked for each attempt but the first, and said yes. */
  lemma {:induction false} EveryRetryIsAdmitted(p: Params, now: int, err: Option<Cause>, mm: Option<nat>, acts: seq<Act>)
    ensures var s := Run(p, Started(now, err, mm), acts);
            Attempts(s.trace) + Owed(s.pc) <= 1 + Admissions(s.trace)
    decreases |acts|
  {
    if acts != [] {
      var init, a := acts[..|acts| - 1], acts[|acts| - 1];
      var s := Run(p, Started(now, err, mm), init);
      EveryRetryIsAdmitted(p, now, err, mm, init);
      NextOwes(p, s, a);
      if a.Loop? && s.pc.Begin? {
        AttemptsSnoc(s.trace, Attempt(s.now));
      } else {
        NoAttempt(p, s, a);
      }
    }
  }

  // ---------------------------------------------------------------- success

  /** Every answer the loop gets is that it worked. */
  ghost predicate AllGoesWell(acts: seq<Act>) {
    NoStop(acts) && forall i :: 0 <= i < |acts| && acts[i].Loop? ==> acts[i].c.authOk && acts[i].c.ok
  }

  function Ups(trace: seq<Event>): nat
    decreases |trace|
  {
    if trace == [] then 0 else Ups(DropLast(trace)) + if trace[|trace| - 1].Up? then 1 else 0
  }

  lemma UpsSnoc(trace: seq<Event>, e: Event)
    ensures Ups(trace + [e]) == Ups(trace) + if e.Up? then 1 else 0
  {
    assert DropLast(trace + [e]) == trace;
  }

  lemma UpsGrow(p: Params, s: Sup, a: Act)
    ensures Ups(Next(p, s, a).trace) >= Ups(s.trace)
  {
    OneEventAtMost(p, s, a);
    var t := Next(p, s, a);
    if t.trace != s.trace {
      UpsSnoc(s.trace, t.trace[|s.trace|]);
    }
  }

  predicate Climbing(pc: Loc) {
    pc.Begin? || pc.Dial? || pc.Handshake? || pc.Attach? || pc.StartForward? || pc.GoLive?
  }

  /** How many turns it is until the tunnel is up. */
  function ToUp(p: Params, s: Sup): int {
    var hops, w := p.hops - |s.clients|, Wanted(p) - |s.forwards|;
    match s.pc
    case Begin => 2 * hops + w + 5
    case Dial => 2 * hops + w + 4
    case Handshake => 2 * hops + w + 3
    case Attach => w + 3
    case StartForward => w + 2
    case _ => 1
  }

  lemma GoodTurn(p: Params, s: Sup, c: Choice)
    requires Shape(p, s) && Climbing(s.pc) && !s.cancelled && p.hops > 0 && c.authOk && c.ok
    ensures var t := LoopStep(p, s, c);
            if s.pc.GoLive? then t.pc.Wait? && Ups(t.trace) == Ups(s.trace) + 1
            else Climbing(t.pc) && ToUp(p, t) < ToUp(p, s)
  {
    if s.pc.GoLive? {
      UpsSnoc(s.trace, Up);
    } else if InBuild(s.pc) {
      GoodBuild(p, s, c);
    }
  }

  lemma GoodBuild(p: Params, s: Sup, c: Choice)
    requires InBuild(s.pc) && Shape(p, s) && Climbing(s.pc) && !s.cancelled && p.hops > 0 && c.authOk && c.ok
    ensures var t := BuildStep(p, s, c); Climbing(t.pc) && ToUp(p, t) < ToUp(p, s)
  {
  }

  lemma ToUpIsPositive(p: Params, s: Sup)
    requires Shape(p, s) && Climbing(s.pc)
    ensures 1 <= ToUp(p, s) <= 2 * p.hops + Wanted(p) + 5
  {
  }

  lemma OthersDoNotClimb(p: Params, s: Sup, a: Act)
    requires !a.Loop? && Climbing(s.pc)
    ensures Next(p, s, a).pc == s.pc && ToUp(p, Next(p, s, a)) == ToUp(p, s)
  {
  }

  lemma {:induction false} Climbs(p: Params, s: Sup, acts: seq<Act>)
    requires Shape(p, s) && Climbing(s.pc) && !s.cancelled && p.hops > 0 && AllGoesWell(acts)
    ensures var t := Run(p, s, acts);
            && Shape(p, t) && !t.cancelled && Ups(t.trace) >= Ups(s.trace)
            && (Ups(t.trace) > Ups(s.trace) || (Climbing(t.pc) && ToUp(p, t) + LoopActs(acts) <= ToUp(p, s)))
    decreases |acts|
  {
    if acts != [] {
      var init, a := acts[..|acts| - 1], acts[|acts| - 1];
      var t := Run(p, s, init);
      Climbs(p, s, init);
      NextKeepsShape(p, t, a);
      StaysUncancelled(p, t, a);
      UpsGrow(p, t, a);
      if Climbing(t.pc) {
        if a.Loop? {
          GoodTurn(p, t, a.c);
        } else {
          OthersDoNotClimb(p, t, a);
        }
      }
    }
  }

  /** From the top, or anywhere on the way up, a tunnel for which all goes well and that nobody stops comes up. */
  lemma ComesUp(p: Params, now: int, err: Option<Cause>, mm: Option<nat>, before: seq<Act>, after: seq<Act>)
    requires p.hops > 0 && AllGoesWell(after) && LoopActs(after) >= 2 * p.hops + Wanted(p) + 5
    requires var s := Run(p, Started(now, err, mm), before); !s.cancelled && Climbing(s.pc)
    ensures var s0 := Started(now, err, mm);
            Ups(Run(p, s0, before + after).trace) > Ups(Run(p, s0, before).trace)
  {
    var s0 := Started(now, err, mm);
    var s := Run(p, s0, before);
    RunKeepsShape(p, now, err, mm, before);
    Climbs(p, s, after);
    ToUpIsPositive(p, s);
    if Climbing(Run(p, s, after).pc) {
      ToUpIsPositive(p, Run(p, s, after));
    }
    RunCompose(p, s0, before, after);
  }
}
