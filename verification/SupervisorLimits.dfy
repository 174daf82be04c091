/** How often and how fast the supervisor loop may try again. */
module SupervisorLimits {
  import opened Prelude
  import opened Backoff
  import opened SupervisorMachine
  import opened SupervisorSafety
  import RateLimit

  // ---------------------------------------------------------------- quiet regions

  /** Events that concern neither the rate limit nor the pace of retries. */
  predicate IsQuiet(e: Event) {
    e.Open? || e.Upgrade? || e.Close? || e.Returned?
  }

  ghost predicate Quietly(s: Sup, t: Sup) {
    && t.restartTimes == s.restartTimes && t.now == s.now && t.restartCount == s.restartCount
    && (t.pc.Sleep? ==> t.pc == s.pc)
    && (t.pc.Begin? ==> s.pc.Resume?)
    && (t.pc.Resume? ==> s.pc.Sleep? && s.now >= s.pc.until)
    && (t.trace == s.trace || exists e: Event :: IsQuiet(e) && t.trace == s.trace + [e])
  }

  lemma BuildIsQuiet(p: Params, s: Sup, c: Choice)
    requires InBuild(s.pc) && !s.pc.Begin?
    ensures Quietly(s, BuildStep(p, s, c))
  {
    var t := BuildStep(p, s, c);
    assert t.trace == s.trace || t.trace == s.trace + [t.trace[|s.trace|]];
  }

  lemma ServiceIsQuiet(p: Params, s: Sup, c: Choice)
    requires InService(s.pc) && !s.pc.GoLive?
    ensures Quietly(s, ServiceStep(p, s, c))
  {
    var t := ServiceStep(p, s, c);
    assert t.trace == s.trace || t.trace == s.trace + [t.trace[|s.trace|]];
  }

  lemma RestartIsQuiet(p: Params, s: Sup, c: Choice)
    requires !InBuild(s.pc) && !InService(s.pc) && !s.pc.Retry? && !s.pc.Pause?
    ensures Quietly(s, RestartStep(p, s, c))
  {
    var t := RestartStep(p, s, c);
    assert t.trace == s.trace || t.trace == s.trace + [t.trace[|s.trace|]];
  }

  /** All regions but four are quiet: entering BuildChain, coming up, the check and the sleep. */
  lemma LoopIsQuiet(p: Params, s: Sup, c: Choice)
    requires !s.pc.Begin? && !s.pc.GoLive? && !s.pc.Retry? && !s.pc.Pause?
    ensures Quietly(s, LoopStep(p, s, c))
  {
    if InBuild(s.pc) {
      BuildIsQuiet(p, s, c);
    } else if InService(s.pc) {
      ServiceIsQuiet(p, s, c);
    } else {
      RestartIsQuiet(p, s, c);
    }
  }

  // ---------------------------------------------------------------- rate limit

  /** The instants of all rate-limit checks of a trace, in order. */
  function Checks(trace: seq<Event>): seq<int>
    decreases |trace|
  {
    if trace == [] then []
    else Checks(DropLast(trace)) + match trace[|trace| - 1] case Checked(at, _) => [at] case _ => []
  }

  /** How many restarts the trace shows as admitted at instants from lo to hi. */
  function AdmittedRestarts(trace: seq<Event>, lo: int, hi: int): nat
    decreases |trace|
  {
    if trace == [] then 0
    else AdmittedRestarts(DropLast(trace), lo, hi) +
         match trace[|trace| - 1] case Checked(at, ok) => (if ok && lo <= at <= hi then 1 else 0) case _ => 0
  }

  /** The limiter's field is a function of the checks made, and so is every verdict. */
  ghost predicate Limits(p: Params, s: Sup, lo: int, hi: int) {
    var checks := Checks(s.trace);
    && s.restartTimes == RateLimit.Window(checks)
    && (checks != [] ==> checks[|checks| - 1] <= s.now)
    && AdmittedRestarts(s.trace, lo, hi) == RateLimit.AdmittedWithin(checks, p.maxRestartsPerHour, lo, hi)
  }

  lemma Quiet(trace: seq<Event>, e: Event, lo: int, hi: int)
    requires !e.Checked?
    ensures Checks(trace + [e]) == Checks(trace)
    ensures AdmittedRestarts(trace + [e], lo, hi) == AdmittedRestarts(trace, lo, hi)
  {
    assert DropLast(trace + [e]) == trace;
  }

  lemma NoCheckKeepsLimits(p: Params, s: Sup, t: Sup, e: Event, lo: int, hi: int)
    requires Limits(p, s, lo, hi)
    requires t.restartTimes == s.restartTimes && t.now == s.now
    requires t.trace == s.trace || (!e.Checked? && t.trace == s.trace + [e])
    ensures Limits(p, t, lo, hi)
  {
    if t.trace != s.trace {
      Quiet(s.trace, e, lo, hi);
    }
  }

  lemma CheckedSnoc(trace: seq<Event>, now: int, ok: bool, lo: int, hi: int)
    ensures Checks(trace + [Checked(now, ok)]) == Checks(trace) + [now]
    ensures AdmittedRestarts(trace + [Checked(now, ok)], lo, hi) ==
            AdmittedRestarts(trace, lo, hi) + if ok && lo <= now <= hi then 1 else 0
  {
    assert DropLast(trace + [Checked(now, ok)]) == trace;
  }

  /** A check whose verdict and window are the limiter's. */
  lemma CheckingKeepsLimits(p: Params, s: Sup, t: Sup, ok: bool, lo: int, hi: int)
    requires Limits(p, s, lo, hi)
    requires ok == !RateLimit.Exceeded(s.restartTimes, s.now, p.maxRestartsPerHour)
    requires t.trace == s.trace + [Checked(s.now, ok)] && t.now == s.now
    requires t.restartTimes == RateLimit.Note(s.restartTimes, s.now)
    ensures Limits(p, t, lo, hi)
  {
    CheckedSnoc(s.trace, s.now, ok, lo, hi);
    RateLimit.CheckSnoc(Checks(s.trace), s.now, p.maxRestartsPerHour, lo, hi);
  }

  lemma CheckKeepsLimits(p: Params, s: Sup, phase: Phase, lo: int, hi: int)
    requires Limits(p, s, lo, hi)
    ensures Limits(p, RetryStep(p, s, phase), lo, hi)
  {
    if p.autoRestart {
      var over := RateLimit.Exceeded(s.restartTimes, s.now, p.maxRestartsPerHour);
      CheckingKeepsLimits(p, s, RetryStep(p, s, phase), !over, lo, hi);
    }
  }

  lemma {:induction false} RunKeepsLimits(p: Params, now: int, err: Option<Cause>, mm: Option<nat>, acts: seq<Act>, lo: int, hi: int)
    ensures Limits(p, Run(p, Started(now, err, mm), acts), lo, hi)
    decreases |acts|
  {
    if acts != [] {
      var init, a := acts[..|acts| - 1], acts[|acts| - 1];
      RunKeepsLimits(p, now, err, mm, init, lo, hi);
      NextKeepsLimits(p, Run(p, Started(now, err, mm), init), a, lo, hi);
    }
  }

  lemma NextKeepsLimits(p: Params, s: Sup, a: Act, lo: int, hi: int)
    requires Limits(p, s, lo, hi)
    ensures Limits(p, Next(p, s, a), lo, hi)
  {
    if a.Loop? {
      if s.pc.Retry? {
        CheckKeepsLimits(p, s, s.pc.phase, lo, hi);
      } else if s.pc.Begin? || s.pc.GoLive? || s.pc.Pause? {
        MilestoneKeepsLimits(p, s, a.c, lo, hi);
      } else {
        LoopIsQuiet(p, s, a.c);
        QuietKeepsLimits(p, s, Next(p, s, a), lo, hi);
      }
    }
  }

  lemma MilestoneKeepsLimits(p: Params, s: Sup, c: Choice, lo: int, hi: int)
    requires s.pc.Begin? || s.pc.GoLive? || s.pc.Pause?
    requires Limits(p, s, lo, hi)
    ensures Limits(p, LoopStep(p, s, c), lo, hi)
  {
    var e := match s.pc
             case Begin => Attempt(s.now)
             case GoLive => Up
             case _ => Slept(s.restartCount, p.delay(s.restartCount, c.jitter));
    NoCheckKeepsLimits(p, s, LoopStep(p, s, c), e, lo, hi);
  }

  lemma QuietKeepsLimits(p: Params, s: Sup, t: Sup, lo: int, hi: int)
    requires Limits(p, s, lo, hi) && Quietly(s, t)
    ensures Limits(p, t, lo, hi)
  {
    if t.trace != s.trace {
      var e: Event :| IsQuiet(e) && t.trace == s.trace + [e];
      NoCheckKeepsLimits(p, s, t, e, lo, hi);
    }
  }

  /** What the limiter guarantees of a supervisor's history. */
  ghost predicate WithinLimits(p: Params, s: Sup, lo: int, hi: int) {
    var checks := Checks(s.trace);
    && (AdmittedRestarts(s.trace, lo, hi) < p.maxRestartsPerHour || AdmittedRestarts(s.trace, lo, hi) == 0)
    && (checks != [] ==> s.restartTimes == RateLimit.After(checks, checks[|checks| - 1] - RateLimit.HOUR))
  }

  lemma LimitsBoundRestarts(p: Params, s: Sup, lo: int, hi: int)
    requires Limits(p, s, lo, hi) && hi - lo < RateLimit.HOUR
    ensures WithinLimits(p, s, lo, hi)
  {
    var checks := Checks(s.trace);
    RateLimit.AdmissionsPerHour(checks, p.maxRestartsPerHour, lo, hi);
  }

  /**
   Over every run from one Start: any stretch of less than an hour contains
   fewer admitted restarts than MaxRestartsPerHour, and the window the limiter
   keeps is exactly the checks made within the hour before the latest.
   */
  lemma RestartsPerHour(p: Params, now: int, err: Option<Cause>, mm: Option<nat>, acts: seq<Act>, lo: int, hi: int)
    requires hi - lo < RateLimit.HOUR
    ensures WithinLimits(p, Run(p, Started(now, err, mm), acts), lo, hi)
  {
    RunKeepsLimits(p, now, err, mm, acts, lo, hi);
    LimitsBoundRestarts(p, Run(p, Started(now, err, mm), acts), lo, hi);
  }

  /** A restart is admitted exactly when it is fewer than `limit` checks, itself included, into the hour. */
  ghost predicate Just(trace: seq<Event>, limit: int)
    requires trace != []
  {
    var e := trace[|trace| - 1];
    e.Checked? ==> (e.admitted <==> RateLimit.CountAfter(Checks(trace), e.at - RateLimit.HOUR) < limit)
  }

  lemma CheckIsJust(p: Params, s: Sup, phase: Phase)
    requires p.autoRestart && Limits(p, s, 0, 0)
    ensures var t := RetryStep(p, s, phase); t.trace != [] && Just(t.trace, p.maxRestartsPerHour)
  {
    var checks := Checks(s.trace);
    CheckedSnoc(s.trace, s.now, !RateLimit.Exceeded(s.restartTimes, s.now, p.maxRestartsPerHour), 0, 0);
    RateLimit.NoteKeepsTheWindow(checks, s.now);
    RateLimit.AfterCounts(checks + [s.now], s.now - RateLimit.HOUR);
  }

  lemma OnlyTheCheckChecks(p: Params, s: Sup, a: Act)
    requires !(a.Loop? && s.pc.Retry? && p.autoRestart)
    ensures var t := Next(p, s, a); t.trace != s.trace ==> t.trace != [] && !t.trace[|t.trace| - 1].Checked?
  {
    if a.Loop? && !s.pc.Begin? && !s.pc.GoLive? && !s.pc.Retry? && !s.pc.Pause? {
      LoopIsQuiet(p, s, a.c);
    }
  }

  ghost predicate AllJust(trace: seq<Event>, limit: int) {
    forall n :: 0 < n <= |trace| ==> Just(trace[..n], limit)
  }

  lemma AllJustOneMore(trace: seq<Event>, e: Event, limit: int)
    requires AllJust(trace, limit) && Just(trace + [e], limit)
    ensures AllJust(trace + [e], limit)
  {
    forall n | 0 < n <= |trace| + 1 ensures Just((trace + [e])[..n], limit) {
      if n <= |trace| {
        assert (trace + [e])[..n] == trace[..n];
      } else {
        assert (trace + [e])[..n] == trace + [e];
      }
    }
  }

  lemma NextIsJust(p: Params, s: Sup, a: Act)
    requires Limits(p, s, 0, 0)
    ensures var t := Next(p, s, a); t.trace != s.trace ==> t.trace != [] && Just(t.trace, p.maxRestartsPerHour)
  {
    if a.Loop? && s.pc.Retry? && p.autoRestart {
      CheckIsJust(p, s, s.pc.phase);
    } else {
      OnlyTheCheckChecks(p, s, a);
    }
  }

  /** Over every run, every verdict of the limiter is just, and so it never refuses without a reason. */
  lemma {:induction false} EveryVerdictIsJust(p: Params, now: int, err: Option<Cause>, mm: Option<nat>, acts: seq<Act>)
    ensures AllJust(Run(p, Started(now, err, mm), acts).trace, p.maxRestartsPerHour)
    decreases |acts|
  {
    if acts != [] {
      var init, a := acts[..|acts| - 1], acts[|acts| - 1];
      var s := Run(p, Started(now, err, mm), init);
      var t := Next(p, s, a);
      EveryVerdictIsJust(p, now, err, mm, init);
      RunKeepsLimits(p, now, err, mm, init, 0, 0);
      OneEventAtMost(p, s, a);
      NextIsJust(p, s, a);
      if t.trace != s.trace {
        AllJustOneMore(s.trace, t.trace[|s.trace|], p.maxRestartsPerHour);
      }
    }
  }

  // ---------------------------------------------------------------- pacing

  /** Consecutive failures: sleeps since the tunnel last came up. */
  function FailuresInARow(trace: seq<Event>): nat
    decreases |trace|
  {
    if trace == [] then 0
    else
      match trace[|trace| - 1]
      case Up => 0
      case Slept(_, _) => FailuresInARow(DropLast(trace)) + 1
      case _ => FailuresInARow(DropLast(trace))
  }

  function LastAttempt(trace: seq<Event>): Option<int>
    decreases |trace|
  {
    if trace == [] then None
    else if trace[|trace| - 1].Attempt? then Some(trace[|trace| - 1].at)
    else LastAttempt(DropLast(trace))
  }

  /**
   Every sleep of the trace is for the right attempt number, with a delay of
   that attempt, and attempts are at least `gap` milliseconds apart.
   */
  ghost predicate Paced(p: Params, trace: seq<Event>, gap: int)
    decreases |trace|
  {
    trace == [] ||
    (var init, e := DropLast(trace), trace[|trace| - 1];
     && Paced(p, init, gap)
     && (e.Slept? ==> e.attempt == FailuresInARow(init) && exists j: Jitter :: e.ms == p.delay(e.attempt, j))
     && (e.Attempt? && LastAttempt(init).Some? ==> e.at >= LastAttempt(init).value + Nanos(gap)))
  }

  /** Where another attempt is near, the minimum gap to the last one is on its way or over. */
  ghost predicate Due(s: Sup, gap: int) {
    LastAttempt(s.trace).Some? ==>
      var last := LastAttempt(s.trace).value;
      && last <= s.now
      && (s.pc.Sleep? ==> s.pc.until >= last + Nanos(gap))
      && (s.pc.Resume? || s.pc.Begin? ==> s.now >= last + Nanos(gap))
  }

  ghost predicate Pacing(p: Params, s: Sup, gap: int) {
    Paced(p, s.trace, gap) && s.restartCount == FailuresInARow(s.trace) && Due(s, gap)
  }

  lemma PacedSnoc(p: Params, trace: seq<Event>, e: Event, gap: int)
    requires Paced(p, trace, gap)
    requires e.Slept? ==> e.attempt == FailuresInARow(trace) && exists j: Jitter :: e.ms == p.delay(e.attempt, j)
    requires e.Attempt? && LastAttempt(trace).Some? ==> e.at >= LastAttempt(trace).value + Nanos(gap)
    ensures Paced(p, trace + [e], gap)
    ensures FailuresInARow(trace + [e]) ==
            match e case Up => 0 case Slept(_, _) => FailuresInARow(trace) + 1 case _ => FailuresInARow(trace)
    ensures LastAttempt(trace + [e]) == if e.Attempt? then Some(e.at) else LastAttempt(trace)
  {
    assert DropLast(trace + [e]) == trace;
  }

  lemma QuietKeepsPacing(p: Params, s: Sup, t: Sup, gap: int)
    requires Pacing(p, s, gap) && Quietly(s, t)
    ensures Pacing(p, t, gap)
  {
    if t.trace != s.trace {
      var e: Event :| IsQuiet(e) && t.trace == s.trace + [e];
      PacedSnoc(p, s.trace, e, gap);
    }
  }

  lemma PauseKeepsPacing(p: Params, s: Sup, phase: Phase, c: Choice, gap: int)
    requires s.pc == Pause(phase) && Pacing(p, s, gap)
    requires p.delay(s.restartCount, c.jitter) >= gap
    ensures Pacing(p, PauseStep(p, s, phase, c), gap)
  {
    PacedSnoc(p, s.trace, Slept(s.restartCount, p.delay(s.restartCount, c.jitter)), gap);
  }

  lemma BeginKeepsPacing(p: Params, s: Sup, c: Choice, gap: int)
    requires s.pc.Begin? && Pacing(p, s, gap)
    ensures Pacing(p, BuildStep(p, s, c), gap)
  {
    PacedSnoc(p, s.trace, Attempt(s.now), gap);
  }

  lemma GoLiveKeepsPacing(p: Params, s: Sup, c: Choice, gap: int)
    requires s.pc.GoLive? && Pacing(p, s, gap)
    ensures Pacing(p, ServiceStep(p, s, c), gap)
  {
    PacedSnoc(p, s.trace, Up, gap);
  }

  lemma RetryKeepsPacing(p: Params, s: Sup, phase: Phase, gap: int)
    requires s.pc == Retry(phase) && Pacing(p, s, gap)
    ensures Pacing(p, RetryStep(p, s, phase), gap)
  {
    PacedSnoc(p, s.trace, Checked(s.now, !RateLimit.Exceeded(s.restartTimes, s.now, p.maxRestartsPerHour)), gap);
  }

  lemma LoopKeepsPacing(p: Params, s: Sup, c: Choice, gap: int)
    requires Pacing(p, s, gap)
    requires forall n: nat, j: Jitter :: p.delay(n, j) >= gap
    ensures Pacing(p, LoopStep(p, s, c), gap)
  {
    if s.pc.Begin? {
      BeginKeepsPacing(p, s, c, gap);
    } else if s.pc.GoLive? {
      GoLiveKeepsPacing(p, s, c, gap);
    } else if s.pc.Retry? {
      RetryKeepsPacing(p, s, s.pc.phase, gap);
    } else if s.pc.Pause? {
      PauseKeepsPacing(p, s, s.pc.phase, c, gap);
    } else {
      LoopIsQuiet(p, s, c);
      QuietKeepsPacing(p, s, LoopStep(p, s, c), gap);
    }
  }

  lemma NextKeepsPacing(p: Params, s: Sup, a: Act, gap: int)
    requires Pacing(p, s, gap)
    requires forall n: nat, j: Jitter :: p.delay(n, j) >= gap
    ensures Pacing(p, Next(p, s, a), gap)
  {
    if a.Loop? {
      LoopKeepsPacing(p, s, a.c, gap);
    }
  }

  lemma {:induction false} RunKeepsPacing(p: Params, now: int, err: Option<Cause>, mm: Option<nat>, acts: seq<Act>, gap: int)
    requires forall n: nat, j: Jitter :: p.delay(n, j) >= gap
    ensures Pacing(p, Run(p, Started(now, err, mm), acts), gap)
    decreases |acts|
  {
    if acts != [] {
      var init, a := acts[..|acts| - 1], acts[|acts| - 1];
      RunKeepsPacing(p, now, err, mm, init, gap);
      NextKeepsPacing(p, Run(p, Started(now, err, mm), init), a, gap);
    }
  }

  /** Each sleep in the trace obeys the backoff policy at its own place in the failure streak. */
  ghost predicate SleepsFollow(trace: seq<Event>, b: BackoffCalc) {
    forall i :: 0 <= i < |trace| && trace[i].Slept? ==>
      && trace[i].attempt == FailuresInARow(trace[..i])
      && b.minMs <= trace[i].ms
      && trace[i].ms as real <= 1.1 * b.maxMs as real
      && (b.Base(trace[i].attempt) == b.maxMs as real ==> trace[i].ms >= b.maxMs)
  }

  lemma {:induction false} PacedSleepsFollow(p: Params, trace: seq<Event>, b: BackoffCalc)
    requires BacksOffBy(p, b) && b.Valid() && Paced(p, trace, b.minMs)
    ensures SleepsFollow(trace, b)
    decreases |trace|
  {
    if trace != [] {
      var init, e := DropLast(trace), trace[|trace| - 1];
      PacedSleepsFollow(p, init, b);
      if e.Slept? {
        var j: Jitter :| e.ms == p.delay(e.attempt, j);
        DelayWithinBounds(b, e.attempt, j);
        if b.Base(e.attempt) == b.maxMs as real {
          CappedDelay(b, e.attempt, j);
        }
      }
      forall i | 0 <= i < |trace| - 1 ensures trace[..i] == init[..i] && trace[i] == init[i] {}
    }
  }

  lemma CappedDelay(b: BackoffCalc, n: nat, j: Jitter)
    requires b.Valid() && b.Base(n) == b.maxMs as real
    ensures b.Delay(n, j) >= b.maxMs
  {
    var tenth := b.Base(n) * 0.1;
    ScaleMonotone(tenth, 0.0, j);
    assert (b.Base(n) + tenth * j).Floor >= (b.maxMs as real).Floor;
  }

  /**
   Over every run: sleep k of a failure streak lasts a delay of attempt k (the
   streak restarts whenever the tunnel comes up), every delay lies between the
   minimum and the maximum plus ten percent, a capped one is at least the
   maximum, and two attempts to connect are at least the minimum apart.
   */
  lemma RetriesAreSpaced(p: Params, b: BackoffCalc, now: int, err: Option<Cause>, mm: Option<nat>, acts: seq<Act>)
    requires b.Valid() && BacksOffBy(p, b)
    ensures var s := Run(p, Started(now, err, mm), acts);
            && SleepsFollow(s.trace, b)
            && Paced(p, s.trace, b.minMs)
            && s.restartCount == FailuresInARow(s.trace)
  {
    forall n: nat, j: Jitter ensures p.delay(n, j) >= b.minMs {
      DelayWithinBounds(b, n, j);
    }
    RunKeepsPacing(p, now, err, mm, acts, b.minMs);
    PacedSleepsFollow(p, Run(p, Started(now, err, mm), acts).trace, b);
  }
}
