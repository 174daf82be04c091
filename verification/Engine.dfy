/** The engine: from a tunnel's chain of ids to the connections it goes through, and the supervisors it keeps. */
module Engine {
  import opened Prelude
  import opened ConfigModel
  import opened ConfigValidate

  /** Where the first connection with an id stands. */
  function IndexOf(ids: seq<string>, id: string): (r: Option<nat>)
    ensures match r
            case Some(i) => i < |ids| && ids[i] == id && id !in ids[..i]
            case None => id !in ids
  {
    if ids == [] then None
    else if ids[0] == id then Some(0)
    else
      match IndexOf(ids[1..], id)
      case None => None
      case Some(i) =>
        assert ids[..i + 1] == [ids[0]] + ids[1..][..i];
        Some(i + 1)
  }

  lemma {:induction false} FirstIs(ids: seq<string>, id: string, i: nat)
    requires i < |ids| && ids[i] == id && id !in ids[..i]
    ensures IndexOf(ids, id) == Some(i)
  {
    if i > 0 {
      assert ids[..i] == [ids[0]] + ids[1..][..i - 1];
      FirstIs(ids[1..], id, i - 1);
    }
  }

  /** These are the connections of a chain: for every id in it, the first connection that has it. */
  ghost predicate Resolves(chain: seq<string>, cs: seq<ConnectionValue>, conns: seq<ConnectionValue>) {
    && |conns| == |chain|
    && forall k :: 0 <= k < |chain| ==> Stands(cs, chain[k], conns[k])
  }

  ghost predicate Stands(cs: seq<ConnectionValue>, id: string, c: ConnectionValue) {
    var i := IndexOf(ConnectionIds(cs), id);
    i.Some? && c == cs[i.value]
  }

  /** The first id of a chain that no connection has. */
  ghost predicate FirstUnknown(chain: seq<string>, cs: seq<ConnectionValue>, id: string) {
    exists k :: 0 <= k < |chain| && chain[k] == id && id !in ConnectionIds(cs)
                && forall j :: 0 <= j < k ==> chain[j] in ConnectionIds(cs)
  }

  method FindConnection(cs: seq<ConnectionValue>, id: string) returns (r: Option<ConnectionValue>)
    ensures r.Some? ==> Stands(cs, id, r.value)
    ensures r.None? ==> id !in ConnectionIds(cs)
  {
    ghost var ids := ConnectionIds(cs);
    for i := 0 to |cs|
      invariant id !in ids[..i]
    {
      if cs[i].id == id {
        FirstIs(ids, id, i);
        return Some(cs[i]);
      }
      assert ids[..i + 1] == ids[..i] + [cs[i].id];
    }
    assert ids[..|cs|] == ids;
    return None;
  }

  method ResolveChain(chain: seq<string>, cs: seq<ConnectionValue>) returns (r: Result<seq<ConnectionValue>, string>)
    ensures r.Ok? ==> Resolves(chain, cs, r.value)
    ensures r.Err? ==> FirstUnknown(chain, cs, r.error)
  {
    var conns := [];
    for k := 0 to |chain|
      invariant Resolves(chain[..k], cs, conns)
    {
      var found := FindConnection(cs, chain[k]);
      if found.None? {
        forall j | 0 <= j < k ensures chain[j] in ConnectionIds(cs) {
          assert Stands(cs, chain[..k][j], conns[j]);
        }
        return Err(chain[k]);
      }
      conns := conns + [found.value];
      assert chain[..k + 1] == chain[..k] + [chain[k]];
    }
    assert chain[..|chain|] == chain;
    return Ok(conns);
  }

  /** What a chain without unknown hops resolves to. */
  function Hops(chain: seq<string>, cs: seq<ConnectionValue>): (conns: seq<ConnectionValue>)
    requires forall k :: 0 <= k < |chain| ==> chain[k] in ConnectionIds(cs)
    ensures Resolves(chain, cs, conns)
  {
    seq(|chain|, k requires 0 <= k < |chain| => cs[IndexOf(ConnectionIds(cs), chain[k]).value])
  }

  /** In a consistent configuration every chain resolves, and what it resolves to has the chain's own ids. */
  lemma ChainsResolve(c: Config, i: nat)
    requires Consistent(c) && i < |c.tunnels|
    ensures forall id :: !FirstUnknown(c.tunnels[i].chain, c.connections, id)
    ensures exists conns :: Resolves(c.tunnels[i].chain, c.connections, conns)
    ensures forall conns :: Resolves(c.tunnels[i].chain, c.connections, conns) ==> ConnectionIds(conns) == c.tunnels[i].chain
  {
    var chain := c.tunnels[i].chain;
    assert TunnelOk(c.tunnels[i], ConnectionIds(c.connections));
    assert Resolves(chain, c.connections, Hops(chain, c.connections));
    forall conns | Resolves(chain, c.connections, conns) ensures ConnectionIds(conns) == chain {
      forall k | 0 <= k < |chain| ensures ConnectionIds(conns)[k] == chain[k] {
        assert Stands(c.connections, chain[k], conns[k]);
      }
    }
  }

  // ---------------------------------------------------------------- the supervisors

  /** What a supervisor was made from, and keeps. */
  datatype Made = Made(tunnel: TunnelValue, conns: seq<ConnectionValue>)

  datatype Refusal = NoTunnel(id: string) | NoConnection(id: string) | NotStarted

  /** What a supervisor made now from the first tunnel with an id would keep. */
  ghost predicate Current(c: Config, id: string, m: Made) {
    var i := IndexOf(TunnelIds(c.tunnels), id);
    i.Some? && m.tunnel == c.tunnels[i.value] && Resolves(m.tunnel.chain, c.connections, m.conns)
  }

  /** There is nothing to make a supervisor from, and this is why. */
  ghost predicate Unmakeable(c: Config, id: string, why: Refusal) {
    var i := IndexOf(TunnelIds(c.tunnels), id);
    if i.None? then why == NoTunnel(id)
    else why.NoConnection? && FirstUnknown(c.tunnels[i.value].chain, c.connections, why.id)
  }

  class Engine {
    var sups: map<string, Made>

    constructor ()
      ensures sups == map[]
    {
      sups := map[];
    }

    method FindTunnel(c: Config, id: string) returns (r: Option<TunnelValue>)
      ensures var i := IndexOf(TunnelIds(c.tunnels), id);
              r == match i case None => None case Some(at) => Some(c.tunnels[at])
    {
      ghost var ids := TunnelIds(c.tunnels);
      for i := 0 to |c.tunnels|
        invariant id !in ids[..i]
      {
        if c.tunnels[i].id == id {
          FirstIs(ids, id, i);
          return Some(c.tunnels[i]);
        }
        assert ids[..i + 1] == ids[..i] + [c.tunnels[i].id];
      }
      assert ids[..|ids|] == ids;
      return None;
    }

    /** A supervisor there is is used as it is; otherwise one is made from the configuration now. */
    method GetOrCreateSupervisor(c: Config, t: TunnelValue) returns (r: Result<Made, string>)
      modifies this
      ensures t.id in old(sups) ==> r == Ok(old(sups)[t.id]) && sups == old(sups)
      ensures t.id !in old(sups) && r.Ok? ==>
                && r.value.tunnel == t && Resolves(t.chain, c.connections, r.value.conns)
                && sups == old(sups)[t.id := r.value]
      ensures t.id !in old(sups) && r.Err? ==> FirstUnknown(t.chain, c.connections, r.error) && sups == old(sups)
    {
      if t.id in sups {
        return Ok(sups[t.id]);
      }
      var conns := ResolveChain(t.chain, c.connections);
      if conns.Err? {
        return Err(conns.error);
      }
      var sup := Made(t, conns.value);
      sups := sups[t.id := sup];
      return Ok(sup);
    }

    /** `startOk` is the supervisor's own answer. */
    method StartTunnel(c: Config, id: string, startOk: bool) returns (r: Result<Made, Refusal>)
      modifies this
      ensures id in old(sups) && id in TunnelIds(c.tunnels) ==>
                sups == old(sups) && r == if startOk then Ok(old(sups)[id]) else Err(NotStarted)
      ensures id !in old(sups) || id !in TunnelIds(c.tunnels) ==> Launched(c, id, startOk, old(sups), sups, r)
    {
      var t := FindTunnel(c, id);
      if t.None? {
        return Err(NoTunnel(id));
      }
      var sup := GetOrCreateSupervisor(c, t.value);
      if sup.Err? {
        return Err(NoConnection(sup.error));
      }
      assert t.value.id == id;
      r := if startOk then Ok(sup.value) else Err(NotStarted);
    }

    /** The supervisor is told to stop and forgotten, whether it stopped in time or not. */
    method StopTunnel(id: string)
      modifies this
      ensures sups == old(sups) - {id}
    {
      if id in sups {
        sups := sups - {id};
      }
    }

    /** Whatever was running before, a restart runs the configuration as it is now. */
    method RestartTunnel(c: Config, id: string, startOk: bool) returns (r: Result<Made, Refusal>)
      modifies this
      ensures Launched(c, id, startOk, old(sups) - {id}, sups, r)
    {
      if id in sups {
        sups := sups - {id};
      }
      var t := FindTunnel(c, id);
      if t.None? {
        return Err(NoTunnel(id));
      }
      var sup := GetOrCreateSupervisor(c, t.value);
      if sup.Err? {
        return Err(NoConnection(sup.error));
      }
      assert t.value.id == id;
      r := if startOk then Ok(sup.value) else Err(NotStarted);
    }
  }

  /** A supervisor was made from the configuration as it is, kept and started; or there was nothing to make one from. */
  ghost predicate Launched(
      c: Config, id: string, startOk: bool, before: map<string, Made>, after: map<string, Made>, r: Result<Made, Refusal>) {
    match r
    case Ok(m) => startOk && Current(c, id, m) && after == before[id := m]
    case Err(NotStarted) => !startOk && id in after && Current(c, id, after[id]) && after == before[id := after[id]]
    case Err(why) => Unmakeable(c, id, why) && after == before
  }

  function Lookup(cs: seq<ConnectionValue>, id: string): Option<ConnectionValue> {
    var i := IndexOf(ConnectionIds(cs), id);
    if i.None? then None else Some(cs[i.value])
  }

  /** The tunnel is there as it was, and so is the connection behind every id of its chain. */
  ghost predicate Untouched(before: Config, now: Config, id: string) {
    var i, j := IndexOf(TunnelIds(before.tunnels), id), IndexOf(TunnelIds(now.tunnels), id);
    && i.Some? && j.Some? && before.tunnels[i.value] == now.tunnels[j.value]
    && forall k :: 0 <= k < |now.tunnels[j.value].chain| ==>
         Lookup(before.connections, now.tunnels[j.value].chain[k]) == Lookup(now.connections, now.tunnels[j.value].chain[k])
  }

  /**
   Starting a tunnel that has a supervisor runs what that one was made from.
   That is what one made now would run exactly when the tunnel and the
   connections its chain names read as they did.
   */
  lemma KeptIsCurrentExactlyWhenUntouched(before: Config, now: Config, id: string, kept: Made)
    requires Current(before, id, kept)
    ensures Current(now, id, kept) <==> Untouched(before, now, id)
  {
  }
}
