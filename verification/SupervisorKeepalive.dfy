/** Which hop a reported keepalive failure is about. */
module SupervisorKeepalive {
  import opened Prelude
  import opened SupervisorMachine
  import opened SupervisorSafety
  import opened SupervisorReach

  // ---------------------------------------------------------------- channels and hops

  lemma {:induction false} ChannelsWatchHops(keepalive: seq<bool>, k: nat)
    requires k < |Channels(keepalive)|
    ensures Channels(keepalive)[k] < |keepalive| && keepalive[Channels(keepalive)[k]]
    decreases |keepalive|
  {
    var last := |keepalive| - 1;
    if k < |Channels(keepalive[..last])| {
      ChannelsWatchHops(keepalive[..last], k);
    }
  }

  lemma {:induction false} NeverAheadOfTheHop(keepalive: seq<bool>)
    ensures |Channels(keepalive)| <= |keepalive|
    ensures |Channels(keepalive)| == |keepalive| <==> forall i :: 0 <= i < |keepalive| ==> keepalive[i]
    decreases |keepalive|
  {
    if keepalive != [] {
      NeverAheadOfTheHop(keepalive[..|keepalive| - 1]);
    }
  }

  /** A channel has its hop's number exactly when every earlier hop runs a keepalive. */
  lemma {:induction false} ChannelNumbersTheHop(keepalive: seq<bool>, k: nat)
    requires k < |Channels(keepalive)|
    ensures Channels(keepalive)[k] < |keepalive|
    ensures Channels(keepalive)[k] == k <==> forall i :: 0 <= i < Channels(keepalive)[k] ==> keepalive[i]
    decreases |keepalive|
  {
    var last := |keepalive| - 1;
    var init := keepalive[..last];
    ChannelsWatchHops(keepalive, k);
    if k < |Channels(init)| {
      ChannelsWatchHops(init, k);
      ChannelNumbersTheHop(init, k);
      assert forall i :: 0 <= i < last ==> init[i] == keepalive[i];
    } else {
      NeverAheadOfTheHop(init);
      assert forall i :: 0 <= i < last ==> init[i] == keepalive[i];
    }
  }

  /** Hops with a keepalive come before hops without one. */
  predicate NoGap(keepalive: seq<bool>) {
    forall i, j :: 0 <= i < j < |keepalive| && keepalive[j] ==> keepalive[i]
  }

  /** Every hop with a keepalive has a channel. */
  lemma {:induction false} HopHasAChannel(keepalive: seq<bool>, hop: nat) returns (k: nat)
    requires hop < |keepalive| && keepalive[hop]
    ensures k < |Channels(keepalive)| && Channels(keepalive)[k] == hop
    decreases |keepalive|
  {
    var last := |keepalive| - 1;
    if hop == last {
      k := |Channels(keepalive)| - 1;
    } else {
      k := HopHasAChannel(keepalive[..last], hop);
    }
  }

  lemma AllChannelsNumberTheirHops(keepalive: seq<bool>)
    requires NoGap(keepalive)
    ensures forall k :: 0 <= k < |Channels(keepalive)| ==> Channels(keepalive)[k] == k
  {
    forall k | 0 <= k < |Channels(keepalive)| ensures Channels(keepalive)[k] == k {
      ChannelsWatchHops(keepalive, k);
      ChannelNumbersTheHop(keepalive, k);
    }
  }

  lemma SomeChannelIsOff(keepalive: seq<bool>) returns (k: nat)
    requires !NoGap(keepalive)
    ensures k < |Channels(keepalive)| && Channels(keepalive)[k] != k
  {
    var i, j :| 0 <= i < j < |keepalive| && keepalive[j] && !keepalive[i];
    k := HopHasAChannel(keepalive, j);
    ChannelNumbersTheHop(keepalive, k);
  }

  // ---------------------------------------------------------------- over runs

  /** A failure that some keepalive channel of this chain can report. */
  ghost predicate Genuine(p: Params, why: Option<Cause>) {
    why.Some? && why.value.KeepaliveFailed? ==>
      && why.value.reported < |Channels(p.keepalive)|
      && why.value.hop == Channels(p.keepalive)[why.value.reported]
  }

  ghost predicate AllGenuine(p: Params, s: Sup) {
    && Causes(s) && Genuine(p, s.lastErr)
    && (s.pc.Degrade? ==> Genuine(p, s.pc.msg))
  }

  lemma BuildKeepsGenuine(p: Params, s: Sup, c: Choice)
    requires InBuild(s.pc) && AllGenuine(p, s)
    ensures var t := BuildStep(p, s, c); Genuine(p, t.lastErr) && !t.pc.Degrade?
  {
  }

  lemma ServiceKeepsGenuine(p: Params, s: Sup, c: Choice)
    requires InService(s.pc) && AllGenuine(p, s)
    ensures var t := ServiceStep(p, s, c); Genuine(p, t.lastErr) && (t.pc.Degrade? ==> Genuine(p, t.pc.msg))
  {
  }

  lemma RestartKeepsGenuine(p: Params, s: Sup, c: Choice)
    requires !InBuild(s.pc) && !InService(s.pc) && AllGenuine(p, s)
    ensures var t := RestartStep(p, s, c); Genuine(p, t.lastErr) && !t.pc.Degrade?
  {
  }

  lemma LoopKeepsGenuine(p: Params, s: Sup, c: Choice)
    requires AllGenuine(p, s)
    ensures var t := LoopStep(p, s, c); Genuine(p, t.lastErr) && (t.pc.Degrade? ==> Genuine(p, t.pc.msg))
  {
    if InBuild(s.pc) {
      BuildKeepsGenuine(p, s, c);
    } else if InService(s.pc) {
      ServiceKeepsGenuine(p, s, c);
    } else {
      RestartKeepsGenuine(p, s, c);
    }
  }

  lemma {:induction false} RunKeepsGenuine(p: Params, now: int, err: Option<Cause>, mm: Option<nat>, acts: seq<Act>)
    requires Genuine(p, err)
    ensures AllGenuine(p, Run(p, Started(now, err, mm), acts))
    decreases |acts|
  {
    RunKeepsHonesty(p, now, err, mm, acts);
    if acts != [] {
      var init, a := acts[..|acts| - 1], acts[|acts| - 1];
      RunKeepsGenuine(p, now, err, mm, init);
      if a.Loop? {
        LoopKeepsGenuine(p, Run(p, Started(now, err, mm), init), a.c);
      }
    }
  }

  /**
   Over every run: a keepalive failure on record is that of a hop which runs a
   keepalive, and is reported under that hop's number exactly when every earlier
   hop runs one too.
   */
  lemma KeepaliveFailuresOnRecord(p: Params, now: int, err: Option<Cause>, mm: Option<nat>, acts: seq<Act>)
    requires Genuine(p, err)
    ensures var why := Run(p, Started(now, err, mm), acts).lastErr;
            why.Some? && why.value.KeepaliveFailed? ==>
              && why.value.hop < p.hops && p.keepalive[why.value.hop]
              && (why.value.reported == why.value.hop <==> forall i :: 0 <= i < why.value.hop ==> p.keepalive[i])
  {
    RunKeepsGenuine(p, now, err, mm, acts);
    var why := Run(p, Started(now, err, mm), acts).lastErr;
    if why.Some? && why.value.KeepaliveFailed? {
      ChannelsWatchHops(p.keepalive, why.value.reported);
      ChannelNumbersTheHop(p.keepalive, why.value.reported);
    }
  }

  /** The hop named is the hop that failed. */
  ghost predicate NamesItsHop(s: Sup) {
    s.lastErr.Some? && s.lastErr.value.KeepaliveFailed? ==> s.lastErr.value.reported == s.lastErr.value.hop
  }

  lemma FailWhileWaiting(p: Params, s: Sup, k: nat) returns (acts: seq<Act>)
    requires s.pc.Wait? && k < |Channels(p.keepalive)|
    ensures Run(p, s, acts).lastErr == Some(KeepaliveFailed(k, Channels(p.keepalive)[k]))
  {
    var dead := Loop(Choice(true, false, false, k, 0.0));
    FirstAct(p, Next(p, s, dead), Go(), []);
    FirstAct(p, s, dead, [Go()] + []);
    acts := [dead] + ([Go()] + []);
  }

  /** A tunnel that is up loses its k-th keepalive. */
  lemma FailFromLive(p: Params, s: Sup, k: nat) returns (acts: seq<Act>)
    requires s.pc.GoLive? && k < |Channels(p.keepalive)|
    ensures Run(p, s, acts).lastErr == Some(KeepaliveFailed(k, Channels(p.keepalive)[k]))
  {
    var rest := FailWhileWaiting(p, Next(p, s, Go()), k);
    FirstAct(p, s, Go(), rest);
    acts := [Go()] + rest;
  }

  /** For every channel there is a run in which it fails and is put on record. */
  lemma ChannelMayFail(p: Params, k: nat) returns (acts: seq<Act>)
    requires k < |Channels(p.keepalive)|
    ensures Run(p, Started(0, None, None), acts).lastErr == Some(KeepaliveFailed(k, Channels(p.keepalive)[k]))
  {
    ChannelsWatchHops(p.keepalive, k);
    var s0, first := Started(0, None, None), [Go(), Go()];
    TwoRegionsIn(p, s0);
    RunKeepsShape(p, 0, None, None, first);
    var up := Rise(p, Run(p, s0, first));
    RunCompose(p, s0, first, up);
    var down := FailFromLive(p, Run(p, s0, first + up), k);
    RunCompose(p, s0, first + up, down);
    acts := first + up + down;
  }

  /** All failures of all runs name their hop exactly when no hop without a keepalive comes before one with. */
  lemma HopsAreNamedExactlyWhenThereIsNoGap(p: Params)
    ensures (forall now, mm, acts :: NamesItsHop(Run(p, Started(now, None, mm), acts))) <==> NoGap(p.keepalive)
  {
    if NoGap(p.keepalive) {
      forall now, mm, acts ensures NamesItsHop(Run(p, Started(now, None, mm), acts)) {
        RunKeepsGenuine(p, now, None, mm, acts);
        AllChannelsNumberTheirHops(p.keepalive);
      }
    } else {
      var k := SomeChannelIsOff(p.keepalive);
      var acts := ChannelMayFail(p, k);
      assert !NamesItsHop(Run(p, Started(0, None, None), acts));
    }
  }
}
