/** Runs that get somewhere: what the loop can still reach when the world plays along. */
module SupervisorReach {
  import opened Prelude
  import opened SupervisorMachine
  import opened SupervisorSafety

  lemma {:induction false} RunCompose(p: Params, s: Sup, a: seq<Act>, b: seq<Act>)
    ensures Run(p, s, a + b) == Run(p, Run(p, s, a), b)
    decreases |b|
  {
    if b == [] {
      assert a + b == a;
    } else {
      var init := b[..|b| - 1];
      RunCompose(p, s, a, init);
      assert (a + b)[..|a + b| - 1] == a + init;
    }
  }

  lemma FirstAct(p: Params, s: Sup, a: Act, rest: seq<Act>)
    ensures Run(p, s, [a] + rest) == Run(p, Next(p, s, a), rest)
  {
    RunCompose(p, s, [a], rest);
    assert [a][..0] == [];
  }

  /** A loop region in which everything asked for succeeds. */
  function Go(): Act {
    Loop(Choice(true, true, false, 0, 0.0))
  }

  predicate OnlyGoes(acts: seq<Act>) {
    forall i :: 0 <= i < |acts| ==> acts[i] == Go()
  }

  /** Where the tunnel may still come up, even if it is cancelled: past the first dial, and not yet up. */
  predicate CanRise(p: Params, s: Sup) {
    || s.pc.Handshake? || (s.pc.Dial? && (s.clients != [] || p.hops == 0))
    || s.pc.Attach? || s.pc.StartForward? || s.pc.GoLive?
  }

  /** How many regions that takes at most. */
  function Climb(p: Params, s: Sup): int {
    var w := Wanted(p);
    match s.pc
    case Dial => 2 * (p.hops - |s.clients|) + w + 3
    case Handshake => 2 * (p.hops - |s.clients|) + w + 2
    case Attach => w + 2
    case StartForward => w - |s.forwards| + 1
    case _ => 0
  }

  lemma OneRegionUp(p: Params, s: Sup)
    requires Shape(p, s) && CanRise(p, s) && !s.pc.GoLive?
    ensures var t := Next(p, s, Go());
            && Shape(p, t) && CanRise(p, t)
            && t.cancelled == s.cancelled && t.state == s.state
            && 0 <= Climb(p, t) < Climb(p, s)
  {
    NextKeepsShape(p, s, Go());
  }

  /** From there the loop reaches the point where it says Running. */
  lemma Rise(p: Params, s: Sup) returns (acts: seq<Act>)
    requires Shape(p, s) && CanRise(p, s)
    ensures OnlyGoes(acts)
    ensures var t := Run(p, s, acts);
            t.pc.GoLive? && Shape(p, t) && t.cancelled == s.cancelled && t.state == s.state
    decreases Climb(p, s)
  {
    if s.pc.GoLive? {
      acts := [];
    } else {
      OneRegionUp(p, s);
      var rest := Rise(p, Next(p, s, Go()));
      FirstAct(p, s, Go(), rest);
      acts := [Go()] + rest;
    }
  }

  /** Where a cancelled tunnel that is up, or one being cleaned up, is on its way to having no chain. */
  predicate CanSink(s: Sup) {
    (s.pc.Wait? && s.cancelled) || s.pc == Degrade(None) || s.pc.Cleanup? || s.pc.Detach?
  }

  /** How many regions that takes. */
  function Depth(s: Sup): nat {
    match s.pc
    case Wait => |s.forwards| + |s.clients| + 3
    case Degrade(_) => |s.forwards| + |s.clients| + 2
    case Cleanup => |s.forwards| + |s.clients| + 1
    case _ => 0
  }

  lemma OneRegionDown(p: Params, s: Sup)
    requires CanSink(s) && !s.pc.Detach?
    ensures var t := Next(p, s, Go());
            CanSink(t) && Depth(t) < Depth(s) && t.cancelled == s.cancelled && t.state == s.state
  {
  }

  /** That takes the chain away and leaves the state it found. */
  lemma Sink(p: Params, s: Sup) returns (acts: seq<Act>)
    requires CanSink(s)
    ensures OnlyGoes(acts)
    ensures var t := Run(p, s, acts);
            t.pc.AfterRun? && t.chain == None && t.cancelled == s.cancelled && t.state == s.state
    decreases Depth(s)
  {
    var t := Next(p, s, Go());
    var rest := [];
    if !s.pc.Detach? {
      OneRegionDown(p, s);
      rest := Sink(p, t);
    }
    FirstAct(p, s, Go(), rest);
    acts := [Go()] + rest;
  }

  /** A first dial that succeeds. */
  lemma TwoRegionsIn(p: Params, s: Sup)
    requires s.pc.Begin? && s.clients == [] && !s.cancelled && p.hops > 0
    ensures var t := Run(p, s, [Go(), Go()]);
            t.pc.Handshake? && t.cancelled == s.cancelled && t.state == s.state
  {
    assert [Go(), Go()] == [Go()] + [Go()];
    FirstAct(p, s, Go(), [Go()]);
    FirstAct(p, Next(p, s, Go()), Go(), []);
    assert [Go()] + [] == [Go()];
  }
}
