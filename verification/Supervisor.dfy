/**
 The supervisor in the form of its source: fields updated by the run loop and its
 helpers, with Stop and the clock free to act at every point where the loop holds
 no lock. The ghost machine `m` takes the step each region claims to be, so
 everything proved of the machine's runs holds of this code.
 */
module Supervisor {
  import opened Prelude
  import opened SupervisorMachine
  import opened SupervisorSafety
  import RateLimit

  /** What may happen between two regions of the loop. */
  type World = a: Act | !a.Loop? witness Stop

  datatype Outcome = HasReturned | Parked

  datatype Wake = Woken | Cancelled | StillAsleep

  lemma ChannelsOneMore(keepalive: seq<bool>, hop: nat)
    requires hop < |keepalive|
    ensures Channels(keepalive[..hop + 1])
         == Channels(keepalive[..hop]) + (if keepalive[hop] then [hop] else [])
  {
    assert keepalive[..hop + 1][..hop] == keepalive[..hop];
  }

  class TunnelSupervisor {
    const p: Params
    /** The environment: before the k-th region, what the others do and what the region meets. */
    const env: nat -> (seq<World>, Choice)
    var tick: nat

    var state: TunnelState
    var lastErr: Option<Cause>
    var mismatch: Option<nat>
    var chain: Option<seq<Res>>
    var fwds: seq<Res>
    var loopCancelled: bool
    var loopDone: bool
    var restartCount: nat
    const window: RateLimit.RestartWindow
    var now: int
    var nextId: nat

    ghost var trace: seq<Event>
    ghost var m: Sup
    ghost const started: Sup

    /** The ghost machine is where some run from Start has led. */
    ghost predicate Simulates()
      reads this
    {
      started.Fresh() && Reached(p, started, m)
    }

    ghost predicate Matches()
      reads this, window, window.times
    {
      && m.state == state && m.lastErr == lastErr && m.mismatch == mismatch
      && m.chain == chain && m.fwds == fwds
      && m.cancelled == loopCancelled && (m.pc.Done? <==> loopDone)
      && m.restartCount == restartCount
      && window.Valid() && m.restartTimes == window.contents
      && m.now == now && m.nextId == nextId && m.trace == trace
    }

    ghost predicate Valid()
      reads this, window, window.times
    {
      Simulates() && Matches()
    }

    /** A supervisor just started; the error and mismatch of an earlier loop are still on record. */
    constructor (p: Params, env: nat -> (seq<World>, Choice), now: int, lastErr: Option<Cause>, mismatch: Option<nat>)
      ensures Valid() && m == Started(now, lastErr, mismatch)
      ensures this.p == p && this.env == env && fresh(window) && fresh(window.times)
    {
      this.p, this.env, this.tick := p, env, 0;
      this.lastErr, this.mismatch := lastErr, mismatch;
      state, chain, fwds := Starting, None, [];
      loopCancelled, loopDone, restartCount := false, false, 0;
      window := new RateLimit.RestartWindow();
      this.now, nextId := now, 0;
      trace := [];
      started := Started(now, lastErr, mismatch);
      m := Started(now, lastErr, mismatch);
    }

    /** The ghost machine takes one act. */
    ghost method Advance(a: Act)
      requires Simulates()
      modifies this`m
      ensures Simulates() && m == Next(p, old(m), a)
    {
      ReachedOneMore(p, started, m, a);
      m := Next(p, m, a);
    }

    /** The same, for a region of the first section of the loop, of the middle ones, and of the last. */
    ghost method AdvanceBuild(c: Choice)
      requires Simulates() && InBuild(m.pc)
      modifies this`m
      ensures Simulates() && m == BuildStep(p, old(m), c)
    {
      Advance(Loop(c));
    }

    ghost method AdvanceService(c: Choice)
      requires Simulates() && InService(m.pc)
      modifies this`m
      ensures Simulates() && m == ServiceStep(p, old(m), c)
    {
      Advance(Loop(c));
    }

    ghost method AdvanceRestart(c: Choice)
      requires Simulates() && !InBuild(m.pc) && !InService(m.pc)
      modifies this`m
      ensures Simulates() && m == RestartStep(p, old(m), c)
    {
      Advance(Loop(c));
    }

    /** And for closing the newest client or forwarder, wherever that is done. */
    ghost method AdvanceCloseClient(c: Choice)
      requires Simulates() && m.clients != []
      requires m.pc.Unwind? || m.pc.CloseChain? || (m.pc.Cleanup? && m.forwards == [])
      modifies this`m
      ensures Simulates() && m == CloseLastClient(old(m))
    {
      Advance(Loop(c));
    }

    ghost method AdvanceCloseForward(c: Choice)
      requires Simulates() && m.forwards != [] && (m.pc.UnwindForwards? || m.pc.Cleanup?)
      modifies this`m
      ensures Simulates() && m == CloseLastForward(old(m))
    {
      Advance(Loop(c));
    }

    ghost method AdvancePause(phase: Phase, c: Choice, ms: int)
      requires Simulates() && m.pc == Pause(phase) && ms == p.delay(m.restartCount, c.jitter)
      modifies this`m
      ensures Simulates()
      ensures m == Emit(old(m), Slept(old(m).restartCount, ms)).(
                     restartCount := old(m).restartCount + 1, pc := Sleep(phase, old(m).now + Nanos(ms)))
    {
      Advance(Loop(c));
    }

    ghost method AdvanceLive(c: Choice)
      requires Simulates() && m.pc.GoLive?
      modifies this`m
      ensures Simulates()
      ensures m == Emit(old(m), Up).(fwds := old(m).forwards, lastErr := None, mismatch := None,
                                     restartCount := 0, state := Running, pc := Wait)
    {
      Advance(Loop(c));
    }

    // -------------------------------------------------------------- the others

    /** Stop, up to waiting for loopDone. */
    method StopEnter() returns (waits: bool)
      requires Valid()
      modifies this
      ensures Valid() && m == StopStep(old(m)) && waits == !(old(state).Stopped? || old(state).Stopping?)
    {
      Advance(Stop);
      if state.Stopped? || state.Stopping? {
        return false;
      }
      state := Stopping;
      loopCancelled := true;
      waits := true;
    }

    /** Stop, after loopDone was seen closed. */
    method StopFinish()
      requires Valid() && loopDone && m.waiting > 0
      modifies this
      ensures Valid() && state.Stopped? && m == FinishStep(old(m))
    {
      Advance(Finish);
      if !state.Stopped? {
        state := Stopped;
      }
    }

    /** Only what the others can change has changed, and cancellation is never taken back. */
    ghost predicate Interfered(was: Sup)
      reads this`m
    {
      && m == was.(state := m.state, cancelled := m.cancelled, waiting := m.waiting, now := m.now)
      && (was.cancelled ==> m.cancelled)
    }

    /** One point where the loop holds no lock: the others act, then the region gets its answer. */
    method Yield() returns (c: Choice)
      requires Valid() && !loopDone
      modifies this
      ensures Valid() && Interfered(old(m))
    {
      var (others, choice) := env(tick);
      tick := tick + 1;
      c := choice;
      var i := 0;
      while i < |others|
        invariant 0 <= i <= |others|
        invariant Valid() && !loopDone && Interfered(old(m))
      {
        match others[i] {
          case Stop =>
            var _ := StopEnter();
          case Finish => // not before loopDone
          case GiveUp =>
            Advance(GiveUp);
          case Tick(dt) =>
            Advance(Tick(dt));
            now := now + dt;
        }
        i := i + 1;
      }
    }

    // -------------------------------------------------------------- BuildChain

    /** ChainResult.Close: all clients, last hop first. */
    method CloseClients(clients: seq<Res>)
      requires Valid() && m.clients == clients
      requires m.pc.Unwind? || m.pc.CloseChain? || (m.pc.Cleanup? && m.forwards == [])
      modifies this
      ensures Valid() && m.pc == old(m.pc) && m.clients == [] && m.forwards == old(m.forwards)
    {
      var i := |clients|;
      while i > 0
        invariant 0 <= i <= |clients|
        invariant Valid() && m.pc == old(m.pc) && m.clients == clients[..i] && m.forwards == old(m.forwards)
      {
        i := i - 1;
        var c := Yield();
        trace := trace + [Close(clients[i])];
        AdvanceCloseClient(c);
        assert DropLast(clients[..i + 1]) == clients[..i];
      }
    }

    /** A failed hop: everything built so far is closed before the error is returned. */
    method GiveUpChain(clients: seq<Res>, why: Cause)
      requires Valid() && m.pc == Unwind(why) && m.clients == clients
      modifies this
      ensures Valid() && m.pc == ChainErr(why)
    {
      CloseClients(clients);
      var c := Yield();
      AdvanceBuild(c);
    }

    method DialHop(hop: nat) returns (conn: Option<Res>, why: Cause)
      requires Valid() && m.pc == Dial && |m.clients| == hop < p.hops
      modifies this
      ensures Valid() && m.clients == old(m.clients)
      ensures conn.Some? ==> m.pc == Handshake && m.conn == conn
      ensures conn.None? ==> m.pc == Unwind(why)
    {
      var c := Yield();
      if !c.authOk {
        conn, why := None, AuthFailed(hop);
      } else if !c.ok || (hop == 0 && loopCancelled) {
        conn, why := None, DialFailed(hop);
      } else {
        conn, why := Some(Res(Conn, nextId)), DialFailed(hop);
        nextId := nextId + 1;
        trace := trace + [Open(conn.value)];
      }
      AdvanceBuild(c);
    }

    method ShakeHands(hop: nat, conn: Res) returns (client: Option<Res>, why: Cause)
      requires Valid() && m.pc == Handshake && m.conn == Some(conn) && |m.clients| == hop
      modifies this
      ensures Valid()
      ensures client.Some? ==> m.pc == Dial && m.clients == old(m.clients) + [client.value]
      ensures client.None? ==> m.pc == Unwind(why) && m.clients == old(m.clients)
    {
      var c := Yield();
      if !c.ok {
        trace := trace + [Close(conn)];
        client, why := None, if c.keyMismatch then HostKeyRejected(hop) else HandshakeFailed(hop);
      } else {
        trace := trace + [Upgrade(conn.id)];
        client, why := Some(Res(Client, conn.id)), HandshakeFailed(hop);
      }
      AdvanceBuild(c);
    }

    /** One hop: dial it, then shake hands. */
    method AddHop(hop: nat) returns (client: Option<Res>, why: Cause)
      requires Valid() && m.pc == Dial && |m.clients| == hop < p.hops
      modifies this
      ensures Valid()
      ensures client.Some? ==> m.pc == Dial && m.clients == old(m.clients) + [client.value]
      ensures client.None? ==> m.pc == Unwind(why) && m.clients == old(m.clients)
    {
      client := None;
      var conn;
      conn, why := DialHop(hop);
      if conn.Some? {
        client, why := ShakeHands(hop, conn.value);
      }
    }

    /** The clients, and for each keepalive channel the hop it watches. */
    method BuildChain() returns (clients: seq<Res>, kaErrors: seq<nat>, err: Option<Cause>)
      requires Valid() && m.pc == Begin
      modifies this
      ensures Valid()
      ensures err.None? ==> m.pc == Attach && m.clients == clients && kaErrors == Channels(p.keepalive)
      ensures err.Some? ==> m.pc == ChainErr(err.value)
    {
      ReachedHasShape(p, started, m);
      var c := Yield();
      trace := trace + [Attempt(now)];
      AdvanceBuild(c);
      clients, kaErrors := [], [];
      if p.hops == 0 {
        return [], [], Some(EmptyChain);
      }
      var hop := 0;
      while hop < p.hops
        invariant Valid() && m.pc == Dial && m.clients == clients && |clients| == hop <= p.hops
        invariant kaErrors == Channels(p.keepalive[..hop])
      {
        var client, why := AddHop(hop);
        if client.None? {
          GiveUpChain(clients, why);
          return [], [], Some(why);
        }
        clients := clients + [client.value];
        ChannelsOneMore(p.keepalive, hop);
        if p.keepalive[hop] {
          kaErrors := kaErrors + [hop];
        }
        hop := hop + 1;
      }
      assert p.keepalive[..hop] == p.keepalive;
      c := Yield();
      AdvanceBuild(c);
      err := None;
    }

    // -------------------------------------------------------------- startForwards, cleanup

    /** Stops forwarders from the last to the first. */
    method StopForwards(open: seq<Res>)
      requires Valid() && m.forwards == open && (m.pc.UnwindForwards? || m.pc.Cleanup?)
      modifies this
      ensures Valid() && m.pc == old(m.pc) && m.forwards == [] && m.clients == old(m.clients)
    {
      var j := |open|;
      while j > 0
        invariant 0 <= j <= |open|
        invariant Valid() && m.pc == old(m.pc) && m.forwards == open[..j] && m.clients == old(m.clients)
      {
        j := j - 1;
        var c := Yield();
        trace := trace + [Close(open[j])];
        AdvanceCloseForward(c);
        assert DropLast(open[..j + 1]) == open[..j];
      }
    }

    /** One forwarder, in the order of the mappings. */
    method StartForwarder(j: nat) returns (fwd: Option<Res>)
      requires Valid() && m.pc == StartForward && |m.forwards| == j < p.mappings && p.knownMode
      modifies this
      ensures Valid() && m.clients == old(m.clients)
      ensures fwd.Some? ==> m.pc == StartForward && m.forwards == old(m.forwards) + [fwd.value]
      ensures fwd.None? ==> m.pc == UnwindForwards(ForwardFailed(j)) && m.forwards == old(m.forwards)
    {
      var c := Yield();
      fwd := None;
      if c.ok {
        fwd := Some(Res(Forwarder, nextId));
        nextId := nextId + 1;
        trace := trace + [Open(fwd.value)];
      }
      AdvanceService(c);
    }

    /** A failed forwarder: those started before it are stopped, last first. */
    method GiveUpForwards(open: seq<Res>, why: Cause)
      requires Valid() && m.pc == UnwindForwards(why) && m.forwards == open
      modifies this
      ensures Valid() && m.pc == ReportForwardErr(why) && m.clients == old(m.clients)
    {
      StopForwards(open);
      var c := Yield();
      AdvanceService(c);
    }

    method StartForwards() returns (open: seq<Res>, err: Option<Cause>)
      requires Valid() && m.pc == StartForward && m.forwards == []
      modifies this
      ensures Valid() && m.clients == old(m.clients)
      ensures err.None? ==> m.pc == GoLive && m.forwards == open
      ensures err.Some? ==> m.pc == ReportForwardErr(err.value)
    {
      open, err := [], None;
      if p.knownMode {
        while |open| < p.mappings
          invariant Valid() && m.pc == StartForward && m.forwards == open && m.clients == old(m.clients)
          invariant |open| <= p.mappings
          decreases p.mappings - |open|
        {
          var fwd := StartForwarder(|open|);
          if fwd.None? {
            var why := ForwardFailed(|open|);
            GiveUpForwards(open, why);
            return [], Some(why);
          }
          open := open + [fwd.value];
        }
      }
      var c := Yield();
      AdvanceService(c);
    }

    /** Forwarders first, then the chain, each in reverse; afterwards the fields are cleared. */
    method CleanUp()
      requires Valid() && m.pc == Cleanup && m.forwards == fwds && chain == Some(m.clients)
      modifies this
      ensures Valid() && m.pc == AfterRun && chain == None && fwds == []
    {
      var clients := chain.value;
      StopForwards(fwds);
      CloseClients(clients);
      var c := Yield();
      AdvanceService(c);
      ClearFields();
    }

    method ClearFields()
      requires Valid() && m.pc == Detach
      modifies this
      ensures Valid() && m.pc == AfterRun && chain == None && fwds == []
    {
      var c := Yield();
      chain := None;
      fwds := [];
      AdvanceService(c);
    }

    // -------------------------------------------------------------- waiting

    /** Blocks until a keepalive fails or the loop is cancelled; Parked when neither has happened yet. */
    method WaitForError(kaErrors: seq<nat>) returns (outcome: Outcome, msg: Option<Cause>)
      requires Valid() && m.pc == Wait && kaErrors == Channels(p.keepalive)
      modifies this
      ensures Valid() && m.clients == old(m.clients) && m.forwards == old(m.forwards)
      ensures outcome.HasReturned? ==> m.pc == Degrade(msg)
      ensures outcome.Parked? ==> m.pc == Wait
    {
      var c := Yield();
      msg := None;
      if c.channel < |kaErrors| && !c.ok {
        outcome, msg := HasReturned, Some(KeepaliveFailed(c.channel, kaErrors[c.channel]));
      } else if loopCancelled {
        outcome := HasReturned;
      } else {
        outcome := Parked;
      }
      AdvanceService(c);
    }

    // -------------------------------------------------------------- retrying

    method RateLimitExceeded(phase: Phase) returns (over: bool)
      requires Valid() && m.pc == Retry(phase) && p.autoRestart
      modifies this, window, window.times
      ensures Valid() && m.pc == if over then Limited(phase) else Pause(phase)
      ensures window.times == old(window.times) || fresh(window.times)
    {
      var c := Yield();
      over := window.Exceeds(now, p.maxRestartsPerHour);
      trace := trace + [Checked(now, !over)];
      AdvanceRestart(c);
    }

    /** backoffSleep, up to the select: compute the delay and count the attempt. */
    method StartTimer(phase: Phase) returns (until: int)
      requires Valid() && m.pc == Pause(phase)
      modifies this
      ensures Valid() && m.pc == Sleep(phase, until)
    {
      var c := Yield();
      var delay := p.delay(restartCount, c.jitter);
      until := now + Nanos(delay);
      CountAttempt(delay);
      AdvancePause(phase, c, delay);
    }

    method CountAttempt(delay: int)
      modifies this`trace, this`restartCount
      ensures restartCount == old(restartCount) + 1 && trace == old(trace) + [Slept(old(restartCount), delay)]
    {
      trace := trace + [Slept(restartCount, delay)];
      restartCount := restartCount + 1;
    }

    /** backoffSleep's select between the timer and the cancelled context. */
    method Doze(phase: Phase, until: int) returns (wake: Wake)
      requires Valid() && m.pc == Sleep(phase, until)
      modifies this
      ensures Valid()
      ensures m.pc == match wake
                      case Woken => Resume(phase)
                      case Cancelled => Halt(Stopped)
                      case StillAsleep => Sleep(phase, until)
    {
      var c := Yield();
      if now >= until && (c.ok || !loopCancelled) {
        wake := Woken;
      } else if loopCancelled {
        wake := Cancelled;
      } else {
        wake := StillAsleep;
      }
      AdvanceRestart(c);
    }

    method BackoffSleep(phase: Phase) returns (wake: Wake)
      requires Valid() && m.pc == Pause(phase)
      modifies this
      ensures Valid()
      ensures wake.Woken? ==> m.pc == Resume(phase)
      ensures wake.Cancelled? ==> m.pc == Leave && state.Stopped?
      ensures wake.StillAsleep? ==> m.pc.Sleep?
    {
      var until := StartTimer(phase);
      wake := Doze(phase, until);
      if wake.Cancelled? {
        SetState(Stopped);
      }
    }

    /** A locked region that only sets the state. */
    method SetState(to: TunnelState)
      requires Valid() && (m.pc == Halt(to) || (m.pc.Resume? && to == Starting))
      modifies this
      ensures Valid() && state == to && m.pc == if old(m.pc).Resume? then Begin else Leave
    {
      var c := Yield();
      state := to;
      AdvanceRestart(c);
    }

    /** Without automatic restart the loop ends; a tunnel that was serving reports Error first. */
    method EndForGood(phase: Phase)
      requires Valid() && m.pc == Retry(phase) && !p.autoRestart
      modifies this
      ensures Valid() && m.pc == Leave
    {
      var c := Yield();
      AdvanceRestart(c);
      if phase.Serving? {
        SetState(Error);
      }
    }

    method LimitReached(phase: Phase)
      requires Valid() && m.pc == Limited(phase)
      modifies this
      ensures Valid() && m.pc == Leave
    {
      var c := Yield();
      lastErr := Some(RateLimited);
      if phase.Serving? {
        state := Error;
      }
      AdvanceRestart(c);
    }

    /** From a failure to the next attempt, or out of the loop. */
    method RetryAfter(phase: Phase) returns (wake: Wake)
      requires Valid() && m.pc == Retry(phase)
      modifies this, window, window.times
      ensures Valid() && (window.times == old(window.times) || fresh(window.times))
      ensures wake.Woken? ==> m.pc == Begin
      ensures wake.Cancelled? ==> m.pc == Leave
      ensures wake.StillAsleep? ==> m.pc.Sleep?
    {
      if !p.autoRestart {
        EndForGood(phase);
        return Cancelled;
      }
      var over := RateLimitExceeded(phase);
      if over {
        LimitReached(phase);
        return Cancelled;
      }
      wake := SleepAndRetry(phase);
    }

    method SleepAndRetry(phase: Phase) returns (wake: Wake)
      requires Valid() && m.pc == Pause(phase)
      modifies this
      ensures Valid()
      ensures wake.Woken? ==> m.pc == Begin
      ensures wake.Cancelled? ==> m.pc == Leave
      ensures wake.StillAsleep? ==> m.pc.Sleep?
    {
      wake := BackoffSleep(phase);
      if wake.Woken? {
        SetState(Starting);
      }
    }

    // -------------------------------------------------------------- the loop

    /** The state to report, with the error and the host key mismatch on record. */
    method Blame(err: Option<Cause>, host: Option<nat>, to: TunnelState)
      modifies this`lastErr, this`mismatch, this`state
      ensures lastErr == err && mismatch == host && state == to
    {
      lastErr, mismatch, state := err, host, to;
    }

    /** The error path of BuildChain: Stopped when cancelled, otherwise Error with the cause. */
    method ChainFailed(why: Cause) returns (retry: bool)
      requires Valid() && m.pc == ChainErr(why)
      modifies this
      ensures Valid() && m.pc == if retry then Retry(Building) else Leave
    {
      var c := Yield();
      var stop := loopCancelled;
      AdvanceBuild(c);
      if stop {
        SetState(Stopped);
        return false;
      }
      ReportChainError(why);
      retry := !why.HostKeyRejected?;
    }

    method ReportChainError(why: Cause)
      requires Valid() && m.pc == ReportChainErr(why)
      modifies this
      ensures Valid() && m.pc == if why.HostKeyRejected? then Leave else Retry(Building)
    {
      var c := Yield();
      Blame(Some(why), if why.HostKeyRejected? then Some(why.hop) else None, Error);
      AdvanceBuild(c);
    }

    /** The error path of startForwards: report, then close the chain. */
    method ForwardsFailed(clients: seq<Res>, why: Cause)
      requires Valid() && m.pc == ReportForwardErr(why) && m.clients == clients
      modifies this
      ensures Valid() && m.pc == Retry(Forwarding)
    {
      ReportForwardError(why);
      CloseClients(clients);
      var c := Yield();
      AdvanceService(c);
    }

    method ReportForwardError(why: Cause)
      requires Valid() && m.pc == ReportForwardErr(why)
      modifies this
      ensures Valid() && m.pc == CloseChain && m.clients == old(m.clients)
    {
      var c := Yield();
      Blame(Some(why), None, Error);
      chain := None;
      AdvanceService(c);
    }

    method PublishRunning(open: seq<Res>)
      requires Valid() && m.pc == GoLive && m.forwards == open
      modifies this
      ensures Valid() && m.pc == Wait
    {
      var c := Yield();
      SetRunning(open);
      AdvanceLive(c);
    }

    /** What is assigned under the lock when the tunnel is up. */
    method SetRunning(open: seq<Res>)
      modifies this`fwds, this`lastErr, this`mismatch, this`restartCount, this`state, this`trace
      ensures fwds == open && lastErr == None && mismatch == None && restartCount == 0 && state == Running
      ensures trace == old(trace) + [Up]
    {
      fwds, lastErr, mismatch, restartCount, state := open, None, None, 0, Running;
      trace := trace + [Up];
    }

    method PublishDegraded(msg: Option<Cause>)
      requires Valid() && m.pc == Degrade(msg)
      modifies this
      ensures Valid() && m.pc == Cleanup && m.forwards == fwds && chain == Some(m.clients)
    {
      ReachedHasShape(p, started, m);
      var c := Yield();
      if msg.Some? {
        lastErr := msg;
        state := Degraded;
      }
      AdvanceService(c);
    }

    /** Sections 3 to 5: publish, serve until something ends it, take everything down. */
    method Serve(open: seq<Res>, kaErrors: seq<nat>) returns (outcome: Outcome)
      requires Valid() && m.pc == GoLive && m.forwards == open && kaErrors == Channels(p.keepalive)
      modifies this
      ensures Valid() && m.pc == if outcome.Parked? then Wait else AfterRun
    {
      PublishRunning(open);
      var msg;
      outcome, msg := WaitForError(kaErrors);
      if outcome.HasReturned? {
        PublishDegraded(msg);
        CleanUp();
      }
    }

    /** The deferred close of loopDone. */
    method LeaveLoop()
      requires Valid() && m.pc == Leave
      modifies this
      ensures Valid() && m.pc == Done && loopDone
    {
      var c := Yield();
      trace := trace + [Returned];
      loopDone := true;
      AdvanceRestart(c);
    }

    /** Publishes the chain the forwarders are about to use. */
    method PublishChain(clients: seq<Res>)
      requires Valid() && m.pc == Attach && m.clients == clients
      modifies this
      ensures Valid() && m.pc == StartForward && m.clients == clients && m.forwards == []
    {
      ReachedHasShape(p, started, m);
      var c := Yield();
      chain := Some(clients);
      AdvanceBuild(c);
    }

    /** After cleaning up: Stopped when cancelled, otherwise on to the next attempt. */
    method AfterServing() returns (wake: Wake)
      requires Valid() && m.pc == AfterRun
      modifies this, window, window.times
      ensures Valid() && (window.times == old(window.times) || fresh(window.times))
      ensures wake.Woken? ==> m.pc == Begin
      ensures wake.Cancelled? ==> m.pc == Leave
      ensures wake.StillAsleep? ==> m.pc.Sleep?
    {
      var c := Yield();
      var stop := loopCancelled;
      AdvanceService(c);
      if stop {
        SetState(Stopped);
        return Cancelled;
      }
      wake := RetryAfter(Serving);
    }

    /** One turn of the loop: build, start forwarders, serve, clean up, and decide how to go on. */
    method Turn() returns (wake: Wake)
      requires Valid() && m.pc == Begin
      modifies this, window, window.times
      ensures Valid() && (window.times == old(window.times) || fresh(window.times))
      ensures wake.Woken? ==> m.pc == Begin
      ensures wake.Cancelled? ==> m.pc == Leave
      ensures wake.StillAsleep? ==> m.pc.Sleep? || m.pc.Wait?
    {
      var clients, kaErrors, err := BuildChain();
      if err.Some? {
        var retry := ChainFailed(err.value);
        if !retry {
          return Cancelled;
        }
        wake := RetryAfter(Building);
        return;
      }
      PublishChain(clients);
      var open;
      open, err := StartForwards();
      if err.Some? {
        ForwardsFailed(clients, err.value);
        wake := RetryAfter(Forwarding);
        return;
      }
      var served := Serve(open, kaErrors);
      if served.Parked? {
        return StillAsleep;
      }
      wake := AfterServing();
    }

    /**
     The run loop, for at most `rounds` turns. It either returns, or is left
     parked in an execution that goes on. Either way its trace is that of a
     machine run, and when it has returned nothing is left open.
     */
    method RunLoop(rounds: nat) returns (outcome: Outcome)
      requires Valid() && m.pc == Begin
      modifies this, window, window.times
      ensures Valid() && (window.times == old(window.times) || fresh(window.times))
      ensures Replay(trace) == Some(OpenStack(m))
      ensures outcome.HasReturned? ==> loopDone && Replay(trace) == Some([])
    {
      var n := rounds;
      var wake := Woken;
      while n > 0 && wake.Woken?
        invariant Valid() && (window.times == old(window.times) || fresh(window.times))
        invariant wake.Woken? ==> m.pc == Begin
        invariant wake.Cancelled? ==> m.pc == Leave
        decreases n
      {
        n := n - 1;
        wake := Turn();
      }
      if wake.Cancelled? {
        LeaveLoop();
        outcome := HasReturned;
      } else {
        outcome := Parked;
      }
      ReachedIsWellNested(p, started, m);
    }
  }
}
