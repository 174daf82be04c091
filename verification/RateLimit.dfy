/** The sliding one-hour window that limits restarts. Instants are integer nanoseconds. */
module RateLimit {

  const SECOND: int := 1_000_000_000
  const HOUR: int := 3600 * SECOND

  /** The instants of `times` strictly after `cutoff`, in order. */
  function After(times: seq<int>, cutoff: int): (r: seq<int>)
    ensures |r| <= |times|
    decreases |times|
  {
    if times == [] then []
    else
      var t := times[|times| - 1];
      After(times[..|times| - 1], cutoff) + (if t > cutoff then [t] else [])
  }

  /** One rate-limit check at `now`: forget what is an hour old, then note this check. */
  function Note(times: seq<int>, now: int): seq<int> {
    After(times, now - HOUR) + [now]
  }

  function Exceeded(times: seq<int>, now: int, limit: int): bool {
    |Note(times, now)| >= limit
  }

  /** The checks of the hour before the latest of them. */
  function Window(checks: seq<int>): seq<int> {
    if checks == [] then [] else After(checks, checks[|checks| - 1] - HOUR)
  }

  /** How many checks let a restart through at instants from lo to hi: those that found room in their hour. */
  function AdmittedWithin(checks: seq<int>, limit: int, lo: int, hi: int): nat
    decreases |checks|
  {
    if checks == [] then 0
    else
      var last := checks[|checks| - 1];
      AdmittedWithin(checks[..|checks| - 1], limit, lo, hi) +
      if lo <= last <= hi && |Window(checks)| < limit then 1 else 0
  }

  /** How many instants are after the cutoff. */
  function CountAfter(times: seq<int>, cutoff: int): nat
    decreases |times|
  {
    if times == [] then 0
    else CountAfter(times[..|times| - 1], cutoff) + if times[|times| - 1] > cutoff then 1 else 0
  }

  lemma {:induction false} AfterCounts(times: seq<int>, cutoff: int)
    ensures |After(times, cutoff)| == CountAfter(times, cutoff)
    decreases |times|
  {
    if times != [] {
      AfterCounts(times[..|times| - 1], cutoff);
    }
  }

  lemma {:induction false} AfterTwice(times: seq<int>, early: int, late: int)
    requires early <= late
    ensures After(After(times, early), late) == After(times, late)
    decreases |times|
  {
    if times != [] {
      var init, t := times[..|times| - 1], times[|times| - 1];
      AfterTwice(init, early, late);
      if t > early {
        assert (After(init, early) + [t])[..|After(init, early)|] == After(init, early);
      } else {
        assert After(times, early) == After(init, early);
      }
    }
  }

  lemma AfterSnoc(times: seq<int>, t: int, cutoff: int)
    ensures After(times + [t], cutoff) == After(times, cutoff) + (if t > cutoff then [t] else [])
  {
    assert (times + [t])[..|times|] == times;
  }

  lemma NoteAfter(times: seq<int>, early: int, now: int)
    requires early <= now - HOUR
    ensures Note(After(times, early), now) == After(times + [now], now - HOUR)
  {
    AfterTwice(times, early, now - HOUR);
    AfterSnoc(times, now, now - HOUR);
  }

  lemma LatestIsLast(checks: seq<int>, now: int)
    ensures (checks + [now])[|checks + [now]| - 1] == now
  {
  }

  /**
   The field is the window of the checks made, and stays it: noting a check leaves,
   in order, exactly the checks of the hour before that one, and itself.
   */
  lemma NoteKeepsTheWindow(checks: seq<int>, now: int)
    requires checks != [] ==> checks[|checks| - 1] <= now
    ensures Note(Window(checks), now) == After(checks + [now], now - HOUR)
    ensures Window(checks + [now]) == After(checks + [now], now - HOUR)
  {
    LatestIsLast(checks, now);
    NoteAfter(checks, if checks == [] then now - HOUR else checks[|checks| - 1] - HOUR, now);
  }

  /** One more check, at the end. */
  lemma CheckSnoc(checks: seq<int>, now: int, limit: int, lo: int, hi: int)
    requires checks != [] ==> checks[|checks| - 1] <= now
    ensures Window(checks + [now]) == Note(Window(checks), now)
    ensures AdmittedWithin(checks + [now], limit, lo, hi) ==
            AdmittedWithin(checks, limit, lo, hi) + if lo <= now <= hi && !Exceeded(Window(checks), now, limit) then 1 else 0
  {
    NoteKeepsTheWindow(checks, now);
    assert (checks + [now])[..|checks|] == checks;
  }

  lemma {:induction false} AdmittedAreInTheWindow(checks: seq<int>, limit: int, lo: int, hi: int, cutoff: int)
    requires cutoff < lo
    ensures AdmittedWithin(checks, limit, lo, hi) <= CountAfter(checks, cutoff)
    decreases |checks|
  {
    if checks != [] {
      AdmittedAreInTheWindow(checks[..|checks| - 1], limit, lo, hi, cutoff);
    }
  }

  lemma LatestAdmissionFits(checks: seq<int>, limit: int, lo: int, hi: int)
    requires checks != [] && hi - lo < HOUR && checks[|checks| - 1] <= hi && |Window(checks)| < limit
    ensures AdmittedWithin(checks, limit, lo, hi) < limit
  {
    var cutoff := checks[|checks| - 1] - HOUR;
    AdmittedAreInTheWindow(checks, limit, lo, hi, cutoff);
    AfterCounts(checks, cutoff);
  }

  /**
   Any stretch of less than an hour, wherever it lies, contains fewer admitted
   restarts than the limit (and none at all under a limit that is not positive).
   */
  lemma {:induction false} AdmissionsPerHour(checks: seq<int>, limit: int, lo: int, hi: int)
    requires hi - lo < HOUR
    ensures AdmittedWithin(checks, limit, lo, hi) < limit || AdmittedWithin(checks, limit, lo, hi) == 0
    decreases |checks|
  {
    if checks != [] {
      AdmissionsPerHour(checks[..|checks| - 1], limit, lo, hi);
      if lo <= checks[|checks| - 1] <= hi && |Window(checks)| < limit {
        LatestAdmissionFits(checks, limit, lo, hi);
      }
    }
  }

  lemma AfterOneMore(times: seq<int>, i: nat, cutoff: int)
    requires i < |times|
    ensures After(times[..i + 1], cutoff) == After(times[..i], cutoff) + (if times[i] > cutoff then [times[i]] else [])
  {
    assert times[..i + 1] == times[..i] + [times[i]];
    AfterSnoc(times[..i], times[i], cutoff);
  }

  /**
   The compaction as written: the surviving instants are moved down within the
   array they are being read from, behind the reading position.
   */
  method CompactInPlace(a: array<int>, n: nat, cutoff: int) returns (kept: nat)
    requires n <= a.Length
    modifies a
    ensures kept <= n
    ensures a[..kept] == After(old(a[..n]), cutoff)
    ensures a[n..] == old(a[n..])
  {
    ghost var was := a[..n];
    kept := 0;
    var i := 0;
    while i < n
      invariant 0 <= kept <= i <= n
      invariant a[..kept] == After(was[..i], cutoff)
      invariant forall k :: i <= k < n ==> a[k] == was[k]
      invariant a[n..] == old(a[n..])
    {
      var t := a[i];
      AfterOneMore(was, i, cutoff);
      if t > cutoff {
        a[kept] := t;
        kept := kept + 1;
        assert a[..kept] == a[..kept - 1] + [t];
      }
      i := i + 1;
    }
    assert was[..n] == was;
  }

  /** Go's append: in place while the backing array has room, otherwise into a larger copy. */
  method Append(a: array<int>, n: nat, x: int) returns (b: array<int>)
    requires n <= a.Length
    modifies a
    ensures b == a || fresh(b)
    ensures n + 1 <= b.Length && b[..n + 1] == old(a[..n]) + [x]
  {
    if n < a.Length {
      b := a;
      b[n] := x;
    } else {
      b := new int[2 * n + 1];
      forall i | 0 <= i < n {
        b[i] := a[i];
      }
      b[n] := x;
      assert b[..n] == a[..n];
    }
    assert b[..n + 1] == b[..n] + [x];
  }

  /** The supervisor's restartTimes: a slice over a backing array that is reused and, when full, replaced. */
  class RestartWindow {
    var times: array<int>
    var len: nat
    ghost var contents: seq<int>

    ghost predicate Valid()
      reads this, times
    {
      len <= times.Length && contents == times[..len]
    }

    constructor ()
      ensures Valid() && contents == [] && fresh(times)
    {
      times, len, contents := new int[0], 0, [];
    }

    method Exceeds(now: int, limit: int) returns (over: bool)
      requires Valid()
      modifies this, times
      ensures Valid() && contents == Note(old(contents), now)
      ensures over == Exceeded(old(contents), now, limit)
      ensures times == old(times) || fresh(times)
    {
      var kept := CompactInPlace(times, len, now - HOUR);
      times := Append(times, kept, now);
      len := kept + 1;
      contents := times[..len];
      over := len >= limit;
    }
  }
}
