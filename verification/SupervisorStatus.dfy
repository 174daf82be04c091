/** When the reported state can be trusted although somebody stops the tunnel. */
module SupervisorStatus {
  import opened Prelude
  import opened SupervisorMachine
  import opened SupervisorSafety
  import opened SupervisorReach

  /** Running is not merely said: the whole chain and all forwarders are there, and nobody has cancelled. */
  ghost predicate RunningIsUp(p: Params, s: Sup) {
    s.state.Running? ==>
      !s.cancelled && s.chain.Some? && |s.chain.value| == p.hops && |s.fwds| == Wanted(p)
  }

  /** No Stop of a run is issued while the reported state is one of these. */
  ghost predicate StopsAvoid(p: Params, s0: Sup, acts: seq<Act>, avoided: set<TunnelState>) {
    forall i :: 0 <= i < |acts| && acts[i].Stop? ==> Run(p, s0, acts[..i]).state !in avoided
  }

  // ---------------------------------------------------------------- stopping at a good moment

  /** Once cancelled, the tunnel neither says Running nor can come to say it. */
  ghost predicate Calm(p: Params, s: Sup) {
    && (s.cancelled ==> !s.state.Running? && !CanRise(p, s))
    && (s.pc.Halt? ==> !s.pc.to.Running?)
  }

  /** Without hops the loop gets nowhere. */
  ghost predicate Grounded(p: Params, s: Sup) {
    p.hops == 0 ==> !CanRise(p, s)
  }

  lemma NoWayUpInService(p: Params, s: Sup, c: Choice)
    requires InService(s.pc) && Shape(p, s) && !CanRise(p, s)
    ensures !CanRise(p, ServiceStep(p, s, c))
    ensures ServiceStep(p, s, c).state.Running? ==> s.state.Running?
  {
  }

  lemma NoWayBackUp(p: Params, s: Sup, c: Choice)
    requires Shape(p, s) && !CanRise(p, s) && (s.cancelled || p.hops == 0)
    ensures !CanRise(p, LoopStep(p, s, c))
    ensures !LoopStep(p, s, c).state.Running? || s.state.Running? || (s.pc.Halt? && s.pc.to.Running?)
  {
    if InService(s.pc) {
      NoWayUpInService(p, s, c);
    }
  }

  lemma HaltsAreOther(p: Params, s: Sup, c: Choice)
    requires s.pc.Halt? ==> !s.pc.to.Running?
    ensures LoopStep(p, s, c).pc.Halt? ==> !LoopStep(p, s, c).pc.to.Running?
  {
    if InBuild(s.pc) || InService(s.pc) {
      HaltsOnlyWhenCancelled(p, s, c);
    }
  }

  lemma HaltsOnlyWhenCancelled(p: Params, s: Sup, c: Choice)
    requires InBuild(s.pc) || InService(s.pc)
    ensures LoopStep(p, s, c).pc.Halt? ==> LoopStep(p, s, c).pc.to.Stopped?
  {
  }

  lemma CalmStays(p: Params, s: Sup, a: Act)
    requires Shape(p, s) && Honest(p, s) && Calm(p, s) && Grounded(p, s)
    requires a.Stop? && !s.cancelled ==> !CanRise(p, s)
    ensures Calm(p, Next(p, s, a)) && Grounded(p, Next(p, s, a))
  {
    if a.Loop? {
      HaltsAreOther(p, s, a.c);
      if !CanRise(p, s) && (s.cancelled || p.hops == 0) {
        NoWayBackUp(p, s, a.c);
      }
    }
  }

  lemma {:induction false} RunStaysCalm(p: Params, now: int, err: Option<Cause>, mm: Option<nat>, acts: seq<Act>)
    requires StopsAvoid(p, Started(now, err, mm), acts, {Starting}) || p.hops == 0
    ensures Calm(p, Run(p, Started(now, err, mm), acts)) && Grounded(p, Run(p, Started(now, err, mm), acts))
    decreases |acts|
  {
    if acts != [] {
      var init, a := acts[..|acts| - 1], acts[|acts| - 1];
      var s := Run(p, Started(now, err, mm), init);
      assert forall i :: 0 <= i < |init| ==> init[..i] == acts[..i];
      RunStaysCalm(p, now, err, mm, init);
      RunKeepsShape(p, now, err, mm, init);
      RunKeepsHonesty(p, now, err, mm, init);
      CalmStays(p, s, a);
    }
  }

  /**
   If nobody issues a Stop while the tunnel says Starting, then over every run
   Running means that it is up.
   */
  lemma RunningIsUpUnlessStoppedWhileStarting(p: Params, now: int, err: Option<Cause>, mm: Option<nat>, acts: seq<Act>)
    requires StopsAvoid(p, Started(now, err, mm), acts, {Starting}) || p.hops == 0
    ensures RunningIsUp(p, Run(p, Started(now, err, mm), acts))
  {
    RunStaysCalm(p, now, err, mm, acts);
    StatusIsHonestUntilCancelled(p, now, err, mm, acts);
  }

  // ---------------------------------------------------------------- stopping at a bad one

  /** From the moment it is up, a cancelled tunnel may lose its chain and still say Running. */
  lemma LiveSinks(p: Params, live: Sup) returns (acts: seq<Act>)
    requires Shape(p, live) && live.pc.GoLive? && live.cancelled
    ensures OnlyGoes(acts)
    ensures var t := Run(p, live, acts); t.cancelled && t.state.Running? && t.chain.None? && !t.pc.Done?
  {
    var rest := Sink(p, Next(p, live, Go()));
    FirstAct(p, live, Go(), rest);
    acts := [Go()] + rest;
  }

  /** A cancelled tunnel that can still come up may say Running when its chain is gone again. */
  lemma RiseAndSink(p: Params, s: Sup) returns (acts: seq<Act>)
    requires Shape(p, s) && CanRise(p, s) && s.cancelled
    ensures OnlyGoes(acts)
    ensures var t := Run(p, s, acts); t.cancelled && t.state.Running? && t.chain.None? && !t.pc.Done?
  {
    var up := Rise(p, s);
    var down := LiveSinks(p, Run(p, s, up));
    acts := up + down;
    RunCompose(p, s, up, down);
  }

  /** For every tunnel with a hop there is a run, with one Stop and that while Starting, that says Running without a chain. */
  lemma RunningWithoutAChainDuringStop(p: Params) returns (acts: seq<Act>)
    requires p.hops > 0
    ensures StopsAvoid(p, Started(0, None, None), acts, AllButStarting())
    ensures var s := Run(p, Started(0, None, None), acts);
            s.cancelled && s.state.Running? && s.chain.None? && !s.pc.Done?
  {
    var s0 := Started(0, None, None);
    var first := [Go(), Go()];
    TwoRegionsIn(p, s0);
    var s := Run(p, s0, first);
    RunKeepsShape(p, 0, None, None, first);
    NextKeepsShape(p, s, Stop);
    var after := RiseAndSink(p, Next(p, s, Stop));
    FirstAct(p, s, Stop, after);
    RunCompose(p, s0, first, [Stop] + after);
    acts := first + ([Stop] + after);
    assert acts[..2] == first;
    assert forall i :: 0 <= i < |acts| && acts[i].Stop? ==> i == 2;
  }

  ghost predicate Trusty(p: Params, avoided: set<TunnelState>, now: int, err: Option<Cause>, mm: Option<nat>, acts: seq<Act>) {
    var s0 := Started(now, err, mm);
    StopsAvoid(p, s0, acts, avoided) ==> RunningIsUp(p, Run(p, s0, acts))
  }

  /**
   So Running can be trusted in all runs whose Stops avoid certain reported
   states exactly when Starting is one of those (or there is no hop to connect).
   */
  lemma RunningIsUpExactlyWhenStopsAvoidStarting(p: Params, avoided: set<TunnelState>)
    ensures (forall now, err, mm, acts :: Trusty(p, avoided, now, err, mm, acts)) <==> Starting in avoided || p.hops == 0
  {
    if Starting in avoided || p.hops == 0 {
      forall now, err, mm, acts ensures Trusty(p, avoided, now, err, mm, acts) {
        GoodMomentsAreTrusty(p, avoided, now, err, mm, acts);
      }
    } else {
      var acts := BadMomentsAreNot(p, avoided);
    }
  }

  lemma GoodMomentsAreTrusty(p: Params, avoided: set<TunnelState>, now: int, err: Option<Cause>, mm: Option<nat>, acts: seq<Act>)
    requires Starting in avoided || p.hops == 0
    ensures Trusty(p, avoided, now, err, mm, acts)
  {
    if StopsAvoid(p, Started(now, err, mm), acts, avoided) {
      RunningIsUpUnlessStoppedWhileStarting(p, now, err, mm, acts);
    }
  }

  lemma BadMomentsAreNot(p: Params, avoided: set<TunnelState>) returns (acts: seq<Act>)
    requires Starting !in avoided && p.hops > 0
    ensures !Trusty(p, avoided, 0, None, None, acts)
  {
    acts := RunningWithoutAChainDuringStop(p);
    OtherStatesAreOthers(avoided);
    AvoidingFewer(p, Started(0, None, None), acts, AllButStarting(), avoided);
  }

  function AllButStarting(): set<TunnelState> {
    {Stopped, Running, Degraded, Error, Stopping}
  }

  lemma OtherStatesAreOthers(states: set<TunnelState>)
    requires Starting !in states
    ensures states <= AllButStarting()
  {
    forall x | x in states ensures x in AllButStarting() {
      assert !x.Starting?;
    }
  }

  lemma AvoidingFewer(p: Params, s0: Sup, acts: seq<Act>, more: set<TunnelState>, fewer: set<TunnelState>)
    requires StopsAvoid(p, s0, acts, more) && fewer <= more
    ensures StopsAvoid(p, s0, acts, fewer)
  {
  }

  // ---------------------------------------------------------------- one Stop, exactly

  ghost predicate SaysRunning(s: Sup) {
    s.state.Running?
  }

  lemma CancelledStaysCalm(p: Params, s: Sup, a: Act)
    requires Shape(p, s) && s.cancelled && Calm(p, s)
    ensures Next(p, s, a).cancelled && Calm(p, Next(p, s, a))
  {
    if a.Loop? {
      NoWayBackUp(p, s, a.c);
      HaltsAreOther(p, s, a.c);
    }
  }

  lemma {:induction false} CalmForGood(p: Params, s: Sup, acts: seq<Act>)
    requires Shape(p, s) && s.cancelled && Calm(p, s)
    ensures var t := Run(p, s, acts); Shape(p, t) && t.cancelled && Calm(p, t)
    decreases |acts|
  {
    if acts != [] {
      var init, a := acts[..|acts| - 1], acts[|acts| - 1];
      CalmForGood(p, s, init);
      NextKeepsShape(p, Run(p, s, init), a);
      CancelledStaysCalm(p, Run(p, s, init), a);
    }
  }

  /**
   The first Stop of a run may be followed by the state Running exactly when it
   was issued between the first successful dial and the moment the tunnel is up.
   */
  lemma StopIsOverwrittenExactlyWhenRising(p: Params, now: int, err: Option<Cause>, mm: Option<nat>, before: seq<Act>)
    requires !Run(p, Started(now, err, mm), before).cancelled
    ensures var s := Run(p, Started(now, err, mm), before);
            (exists after: seq<Act> :: SaysRunning(Run(p, Next(p, s, Stop), after))) <==> CanRise(p, s)
  {
    var s := Run(p, Started(now, err, mm), before);
    RunKeepsShape(p, now, err, mm, before);
    RunKeepsHonesty(p, now, err, mm, before);
    var t := Next(p, s, Stop);
    NextKeepsShape(p, s, Stop);
    if CanRise(p, s) {
      var after := RiseAndSink(p, t);
      assert SaysRunning(Run(p, t, after));
    } else {
      forall after: seq<Act> ensures !SaysRunning(Run(p, t, after)) {
        CalmForGood(p, t, after);
      }
    }
  }
}
