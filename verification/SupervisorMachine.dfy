/**
 The tunnel supervisor's run loop as a state machine. One `Loop` act is one
 region of the loop between two points where the world can interfere; `Stop`,
 `Finish`, `GiveUp` and `Tick` are what other goroutines and the clock do.
 Acts that are not possible where they are tried change nothing.
 */
module SupervisorMachine {
  import opened Prelude
  import opened Backoff
  import RateLimit

  /** Milliseconds as nanoseconds. */
  function Nanos(ms: int): int {
    1_000_000 * ms
  }

  datatype TunnelState = Stopped | Starting | Running | Degraded | Error | Stopping

  datatype Cause =
    | EmptyChain
    | AuthFailed(hop: nat)
    | DialFailed(hop: nat)
    | HandshakeFailed(hop: nat)
    | HostKeyRejected(hop: nat)
    | ForwardFailed(mapping: nat)
    | KeepaliveFailed(reported: nat, hop: nat)
    | RateLimited

  type Jitter = r: real | 0.0 <= r < 1.0 witness 0.0

  /**
   The parts of a tunnel and its resolved chain the loop depends on: for each hop
   whether it runs a keepalive, mappings, and the restart policy. `delay` is the
   policy's backoff as a function of the attempt and the jitter drawn.
   */
  datatype Params = Params(
    keepalive: seq<bool>, mappings: nat, knownMode: bool,
    autoRestart: bool, maxRestartsPerHour: int, delay: (nat, Jitter) -> int)
  {
    const hops: nat := |keepalive|
  }

  /** The hop behind each keepalive channel: hops without a keepalive get none. */
  function Channels(keepalive: seq<bool>): seq<nat> {
    if keepalive == [] then []
    else
      var last := |keepalive| - 1;
      Channels(keepalive[..last]) + (if keepalive[last] then [last] else [])
  }

  ghost predicate BacksOffBy(p: Params, b: BackoffCalc) {
    forall attempt: nat, jitter: Jitter :: p.delay(attempt, jitter) == b.Delay(attempt, jitter)
  }

  datatype Kind = Conn | Client | Forwarder

  datatype Res = Res(kind: Kind, id: nat)

  datatype Event =
    | Attempt(at: int)
    | Open(r: Res)
    | Upgrade(id: nat)
    | Close(r: Res)
    | Up
    | Checked(at: int, admitted: bool)
    | Slept(attempt: nat, ms: int)
    | Returned

  datatype Phase = Building | Forwarding | Serving

  datatype Loc =
    | Begin
    | Dial
    | Handshake
    | Unwind(why: Cause)
    | ChainErr(why: Cause)
    | ReportChainErr(why: Cause)
    | Attach
    | StartForward
    | UnwindForwards(why: Cause)
    | ReportForwardErr(why: Cause)
    | CloseChain
    | GoLive
    | Wait
    | Degrade(msg: Option<Cause>)
    | Cleanup
    | Detach
    | AfterRun
    | Retry(phase: Phase)
    | Limited(phase: Phase)
    | Pause(phase: Phase)
    | Sleep(phase: Phase, until: int)
    | Resume(phase: Phase)
    | Halt(to: TunnelState)
    | Leave
    | Done

  /**
   The supervisor while one loop is alive. `clients`, `conn` and `forwards` are the
   loop's own open resources; `chain` and `fwds` are the fields others can see.
   */
  datatype Sup = Sup(
    pc: Loc,
    state: TunnelState, lastErr: Option<Cause>, mismatch: Option<nat>,
    chain: Option<seq<Res>>, fwds: seq<Res>,
    restartCount: nat, restartTimes: seq<int>,
    clients: seq<Res>, conn: Option<Res>, forwards: seq<Res>,
    cancelled: bool, waiting: nat, now: int, nextId: nat, trace: seq<Event>)
  {
    /** The state of a supervisor that has just been started. */
    predicate Fresh() {
      this == Started(now, lastErr, mismatch)
    }
  }

  /** What the environment answers to one loop region. */
  datatype Choice = Choice(authOk: bool, ok: bool, keyMismatch: bool, channel: nat, jitter: Jitter)

  datatype Act = Loop(c: Choice) | Stop | Finish | GiveUp | Tick(dt: nat)

  /** The state Start leaves behind; the previous error and mismatch are not cleared. */
  function Started(now: int, lastErr: Option<Cause>, mismatch: Option<nat>): Sup {
    Sup(Begin, Starting, lastErr, mismatch, None, [], 0, [], [], None, [], false, 0, now, 0, [])
  }

  function Emit(s: Sup, e: Event): Sup {
    s.(trace := s.trace + [e])
  }

  function DropLast<T>(s: seq<T>): seq<T>
    requires s != []
  {
    s[..|s| - 1]
  }

  function CloseLastClient(s: Sup): Sup
    requires s.clients != []
  {
    Emit(s, Close(s.clients[|s.clients| - 1])).(clients := DropLast(s.clients))
  }

  function CloseLastForward(s: Sup): Sup
    requires s.forwards != []
  {
    Emit(s, Close(s.forwards[|s.forwards| - 1])).(forwards := DropLast(s.forwards))
  }

  /** BuildChain: authenticate and dial the next hop. A cancelled context fails the first dial. */
  function DialStep(p: Params, s: Sup, c: Choice): Sup {
    var hop := |s.clients|;
    if hop >= p.hops then s.(pc := Attach)
    else if !c.authOk then s.(pc := Unwind(AuthFailed(hop)))
    else if !c.ok || (hop == 0 && s.cancelled) then s.(pc := Unwind(DialFailed(hop)))
    else
      var r := Res(Conn, s.nextId);
      Emit(s, Open(r)).(conn := Some(r), nextId := s.nextId + 1, pc := Handshake)
  }

  function HandshakeStep(s: Sup, c: Choice): Sup
    requires s.conn.Some?
  {
    var hop := |s.clients|;
    var r := s.conn.value;
    if c.ok then
      Emit(s, Upgrade(r.id)).(conn := None, clients := s.clients + [Res(Client, r.id)], pc := Dial)
    else
      Emit(s, Close(r)).(conn := None, pc := Unwind(if c.keyMismatch then HostKeyRejected(hop) else HandshakeFailed(hop)))
  }

  function ReportChainErrStep(s: Sup, why: Cause): Sup {
    s.(lastErr := Some(why), state := Error,
       mismatch := if why.HostKeyRejected? then Some(why.hop) else None,
       pc := if why.HostKeyRejected? then Leave else Retry(Building))
  }

  function StartForwardStep(p: Params, s: Sup, c: Choice): Sup {
    var j := |s.forwards|;
    if !p.knownMode || j >= p.mappings then s.(pc := GoLive)
    else if !c.ok then s.(pc := UnwindForwards(ForwardFailed(j)))
    else
      var r := Res(Forwarder, s.nextId);
      Emit(s, Open(r)).(forwards := s.forwards + [r], nextId := s.nextId + 1)
  }

  function RetryStep(p: Params, s: Sup, phase: Phase): Sup {
    if !p.autoRestart then s.(pc := if phase.Serving? then Halt(Error) else Leave)
    else
      var over := RateLimit.Exceeded(s.restartTimes, s.now, p.maxRestartsPerHour);
      Emit(s, Checked(s.now, !over)).(
        restartTimes := RateLimit.Note(s.restartTimes, s.now),
        pc := if over then Limited(phase) else Pause(phase))
  }

  function PauseStep(p: Params, s: Sup, phase: Phase, c: Choice): Sup {
    var ms := p.delay(s.restartCount, c.jitter);
    Emit(s, Slept(s.restartCount, ms)).(
      restartCount := s.restartCount + 1,
      pc := Sleep(phase, s.now + Nanos(ms)))
  }

  /** Both select branches may be ready; then either may be taken. */
  function SleepStep(s: Sup, phase: Phase, until: int, c: Choice): Sup {
    if s.now >= until && (c.ok || !s.cancelled) then s.(pc := Resume(phase))
    else if s.cancelled then s.(pc := Halt(Stopped))
    else s
  }

  /** A failure is reported under the number of its channel, whichever hop that belongs to. */
  function WaitStep(p: Params, s: Sup, c: Choice): Sup {
    var channels := Channels(p.keepalive);
    if c.channel < |channels| && !c.ok then s.(pc := Degrade(Some(KeepaliveFailed(c.channel, channels[c.channel]))))
    else if s.cancelled then s.(pc := Degrade(None))
    else s
  }

  /** Section 1 of the loop: build the chain, or unwind and report why not. */
  predicate InBuild(pc: Loc) {
    match pc
    case Begin | Dial | Handshake | Unwind(_) | ChainErr(_) | ReportChainErr(_) | Attach => true
    case _ => false
  }

  /** Sections 2 to 5: start forwarders, serve, clean up. */
  predicate InService(pc: Loc) {
    match pc
    case StartForward | UnwindForwards(_) | ReportForwardErr(_) | CloseChain | GoLive | Wait
       | Degrade(_) | Cleanup | Detach | AfterRun => true
    case _ => false
  }

  function BuildStep(p: Params, s: Sup, c: Choice): Sup {
    match s.pc
    case Begin => Emit(s, Attempt(s.now)).(pc := if p.hops == 0 then ChainErr(EmptyChain) else Dial)
    case Dial => DialStep(p, s, c)
    case Handshake => if s.conn.None? then s else HandshakeStep(s, c)
    case Unwind(why) => if s.clients == [] then s.(pc := ChainErr(why)) else CloseLastClient(s)
    case ChainErr(why) => s.(pc := if s.cancelled then Halt(Stopped) else ReportChainErr(why))
    case ReportChainErr(why) => ReportChainErrStep(s, why)
    case Attach => s.(chain := Some(s.clients), pc := StartForward)
    case _ => s
  }

  function ServiceStep(p: Params, s: Sup, c: Choice): Sup {
    match s.pc
    case StartForward => StartForwardStep(p, s, c)
    case UnwindForwards(why) => if s.forwards == [] then s.(pc := ReportForwardErr(why)) else CloseLastForward(s)
    case ReportForwardErr(why) =>
      s.(lastErr := Some(why), mismatch := None, chain := None, state := Error, pc := CloseChain)
    case CloseChain => if s.clients == [] then s.(pc := Retry(Forwarding)) else CloseLastClient(s)
    case GoLive =>
      Emit(s, Up).(fwds := s.forwards, lastErr := None, mismatch := None, restartCount := 0, state := Running, pc := Wait)
    case Wait => WaitStep(p, s, c)
    case Degrade(None) => s.(pc := Cleanup)
    case Degrade(Some(why)) => s.(lastErr := Some(why), state := Degraded, pc := Cleanup)
    case Cleanup =>
      if s.forwards != [] then CloseLastForward(s)
      else if s.clients != [] then CloseLastClient(s)
      else s.(pc := Detach)
    case Detach => s.(chain := None, fwds := [], pc := AfterRun)
    case AfterRun => s.(pc := if s.cancelled then Halt(Stopped) else Retry(Serving))
    case _ => s
  }

  function RestartStep(p: Params, s: Sup, c: Choice): Sup {
    match s.pc
    case Retry(phase) => RetryStep(p, s, phase)
    case Limited(phase) =>
      s.(lastErr := Some(RateLimited), state := if phase.Serving? then Error else s.state, pc := Leave)
    case Pause(phase) => PauseStep(p, s, phase, c)
    case Sleep(phase, until) => SleepStep(s, phase, until, c)
    case Resume(_) => s.(state := Starting, pc := Begin)
    case Halt(to) => s.(state := to, pc := Leave)
    case Leave => Emit(s, Returned).(pc := Done)
    case _ => s
  }

  function LoopStep(p: Params, s: Sup, c: Choice): Sup {
    if InBuild(s.pc) then BuildStep(p, s, c)
    else if InService(s.pc) then ServiceStep(p, s, c)
    else RestartStep(p, s, c)
  }

  /** The first critical section of Stop; it returns at once when already stopped or stopping. */
  function StopStep(s: Sup): Sup {
    if s.state.Stopped? || s.state.Stopping? then s
    else s.(state := Stopping, cancelled := true, waiting := s.waiting + 1)
  }

  /** The last critical section of Stop, after it has seen the loop return. */
  function FinishStep(s: Sup): Sup {
    if s.waiting == 0 || s.pc != Done then s
    else s.(state := Stopped, waiting := s.waiting - 1)
  }

  function Next(p: Params, s: Sup, a: Act): Sup {
    match a
    case Loop(c) => LoopStep(p, s, c)
    case Stop => StopStep(s)
    case Finish => FinishStep(s)
    case GiveUp => if s.waiting == 0 then s else s.(waiting := s.waiting - 1)
    case Tick(dt) => s.(now := s.now + dt)
  }

  function Run(p: Params, s: Sup, acts: seq<Act>): Sup
    decreases |acts|
  {
    if acts == [] then s else Next(p, Run(p, s, acts[..|acts| - 1]), acts[|acts| - 1])
  }
}
