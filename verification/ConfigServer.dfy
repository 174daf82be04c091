/**
 The handlers that edit the configuration. A stored tunnel refers to its
 mappings, so a copy of the tunnel shares them and the defaults write through.
 */
module ConfigServer {
  import opened Prelude
  import opened ConfigModel
  import opened ConfigDefaults
  import opened ConfigValidate
  import opened ConfigRequests
  import opened Engine

  type TunnelRef = Tunnel<array<MappingValue>>

  ghost function Reify(t: TunnelRef): TunnelValue
    reads t.mappings
  {
    Tunnel(t.id, t.name, t.notes, t.mode, t.chain, t.mappings[..], t.policy)
  }

  ghost function Arrays(ts: seq<TunnelRef>): set<array<MappingValue>> {
    set i | 0 <= i < |ts| :: ts[i].mappings
  }

  /** The tunnels read as these values, and no two of them share their mappings. */
  ghost predicate Holds(ts: seq<TunnelRef>, vs: seq<TunnelValue>)
    reads Arrays(ts)
  {
    && |vs| == |ts|
    && (forall i :: 0 <= i < |ts| ==> vs[i] == Reify(ts[i]))
    && (forall i, j :: 0 <= i < j < |ts| ==> ts[i].mappings != ts[j].mappings)
  }

  /** Overwriting one tunnel by one that shares its mappings with no other. */
  lemma HoldsReplaced(ts: seq<TunnelRef>, vs: seq<TunnelValue>, i: nat, t: TunnelRef)
    requires Holds(ts, vs) && i < |ts|
    requires forall j :: 0 <= j < |ts| && j != i ==> ts[j].mappings != t.mappings
    ensures Holds(ts[i := t], vs[i := Reify(t)])
  {
  }

  lemma HoldsAppended(ts: seq<TunnelRef>, vs: seq<TunnelValue>, t: TunnelRef)
    requires Holds(ts, vs)
    requires forall j :: 0 <= j < |ts| ==> ts[j].mappings != t.mappings
    ensures Holds(ts + [t], vs + [Reify(t)])
  {
  }

  lemma HoldsWithout(ts: seq<TunnelRef>, vs: seq<TunnelValue>, i: nat)
    requires Holds(ts, vs) && i < |ts|
    ensures Holds(Without(ts, i), Without(vs, i))
  {
    var ts', vs' := Without(ts, i), Without(vs, i);
    forall k | 0 <= k < |ts'| ensures vs'[k] == Reify(ts'[k]) {
      var at := if k < i then k else k + 1;
      assert ts'[k] == ts[at] && vs'[k] == vs[at];
    }
    forall j, k | 0 <= j < k < |ts'| ensures ts'[j].mappings != ts'[k].mappings {
      assert ts'[j] == ts[if j < i then j else j + 1] && ts'[k] == ts[if k < i then k else k + 1];
    }
  }

  /** The state once the candidate of a patch is there: the defaults may have been written through. */
  function Prepared(s: State, i: nat, p: TunnelPatch): State
    requires i < |s.config.tunnels|
  {
    State(
      if p.mappings.Some? then s.config else WithTunnel(s.config, i, Settled(s.config.tunnels[i])),
      s.disk, s.drawn + Blanks(Or(p.mappings, [])))
  }

  lemma PatchingIsReplacing(s: State, i: nat, p: TunnelPatch, env: Env, saveOk: bool)
    requires i < |s.config.tunnels|
    ensures var s', t := Prepared(s, i, p), TunnelDefaults(PatchedTunnel(s.config.tunnels[i], p, env.xid, s.drawn));
            PatchAt(s, i, p, env, saveOk) == ReplaceTunnel(s', i, t, s'.config, s'.drawn, env, saveOk)
  {
    var ts, t := s.config.tunnels, TunnelDefaults(PatchedTunnel(s.config.tunnels[i], p, env.xid, s.drawn));
    assert ts[i := Settled(ts[i])][i := t] == ts[i := t];
  }

  lemma BlanksOneMore(ms: seq<MappingValue>, i: nat)
    requires i < |ms|
    ensures Blanks(ms[..i + 1]) == Blanks(ms[..i]) + (if ms[i].id == "" then 1 else 0)
  {
    assert ms[..i + 1][..i] == ms[..i];
  }

  /** A server validates with this validator. */
  ghost predicate Validates(check: Config -> seq<Problem>) {
    forall c {:trigger Asked(c)} :: Asked(c) ==> check(c) == Problems(c)
  }

  /** Each tunnel with its mappings in memory of their own. */
  method TunnelRefs(vs: seq<TunnelValue>) returns (ts: seq<TunnelRef>)
    ensures Holds(ts, vs) && fresh(Arrays(ts))
  {
    ts := [];
    for i := 0 to |vs|
      invariant Holds(ts, vs[..i]) && forall k :: 0 <= k < i ==> fresh(ts[k].mappings)
    {
      var v := vs[i];
      var a := new MappingValue[|v.mappings|](k requires 0 <= k < |v.mappings| => v.mappings[k]);
      assert a[..] == v.mappings;
      var t := Tunnel(v.id, v.name, v.notes, v.mode, v.chain, a, v.policy);
      HoldsAppended(ts, vs[..i], t);
      assert vs[..i + 1] == vs[..i] + [Reify(t)];
      ts := ts + [t];
    }
    assert vs[..|vs|] == vs;
  }

  class Server {
    var settings: Settings
    var connections: seq<ConnectionValue>
    var tunnels: seq<TunnelRef>
    var drawn: nat
    const env: Env
    ghost var stored: seq<TunnelValue>
    ghost var disk: Config

    /** What the tunnels read as is kept in `stored`. */
    ghost predicate Valid()
      reads this, Arrays(tunnels)
    {
      Holds(tunnels, stored) && Validates(env.check)
    }

    ghost function Value(): Config
      reads this
    {
      Config(settings, connections, stored)
    }

    ghost function State(): State
      reads this
    {
      ConfigRequests.State(Value(), disk, drawn)
    }

    /** Serves a configuration that is on disk already. */
    constructor (c: Config, env: Env)
      requires Validates(env.check)
      ensures Valid() && State() == ConfigRequests.State(c, c, 0)
      ensures this.env == env && fresh(Arrays(tunnels))
    {
      var refs := TunnelRefs(c.tunnels);
      this.env, settings, connections, tunnels, drawn := env, c.settings, c.connections, refs, 0;
      stored, disk := c.tunnels, c;
    }

    /** xid.New() for each mapping without an id. */
    method AssignIds(ms: array<MappingValue>)
      modifies this`drawn, ms
      ensures ms[..] == Identified(old(ms[..]), env.xid, old(drawn))
      ensures drawn == old(drawn) + Blanks(old(ms[..]))
    {
      ghost var before := ms[..];
      for i := 0 to ms.Length
        invariant drawn == old(drawn) + Blanks(before[..i])
        invariant forall k :: 0 <= k < i ==> ms[k] == IdentifiedAt(before, env.xid, old(drawn), k)
        invariant forall k :: i <= k < ms.Length ==> ms[k] == before[k]
      {
        BlanksOneMore(before, i);
        if ms[i].id == "" {
          ms[i] := ms[i].(id := env.xid(drawn));
          drawn := drawn + 1;
        }
      }
      assert before[..ms.Length] == before;
    }

    /** The configuration as it stands. */
    method Read() returns (c: Config)
      requires Valid()
      ensures c == Value()
    {
      var ts: seq<TunnelValue> := [];
      for i := 0 to |tunnels|
        invariant |ts| == i && forall k :: 0 <= k < i ==> ts[k] == Reify(tunnels[k])
      {
        var t := tunnels[i];
        ts := ts + [Tunnel(t.id, t.name, t.notes, t.mode, t.chain, t.mappings[..], t.policy)];
      }
      assert ts == stored;
      c := Config(settings, connections, ts);
    }

    method SaveConfig(saveOk: bool) returns (r: Saved)
      requires Valid()
      modifies this`disk
      ensures r == Verdict(Value(), env, saveOk)
      ensures disk == if r.Kept? then Value() else old(disk)
    {
      var c := Read();
      assert Asked(c);
      var errors := ValidateConfig(c);
      if errors != [] {
        return Rejected(errors);
      }
      if !saveOk {
        return Failed;
      }
      disk := c;
      return Kept;
    }

    method FindTunnel(id: string) returns (r: Option<nat>)
      requires Valid()
      ensures r == IndexOf(TunnelIds(stored), id)
    {
      ghost var ids := TunnelIds(stored);
      for i := 0 to |tunnels|
        invariant id !in ids[..i]
      {
        if tunnels[i].id == id {
          FirstIs(ids, id, i);
          return Some(i);
        }
        assert ids[..i + 1] == ids[..i] + [tunnels[i].id];
      }
      assert ids[..|ids|] == ids;
      return None;
    }

    method FindConnection(id: string) returns (r: Option<nat>)
      ensures r == IndexOf(ConnectionIds(connections), id)
    {
      ghost var ids := ConnectionIds(connections);
      for i := 0 to |connections|
        invariant id !in ids[..i]
      {
        if connections[i].id == id {
          FirstIs(ids, id, i);
          return Some(i);
        }
        assert ids[..i + 1] == ids[..i] + [connections[i].id];
      }
      assert ids[..|ids|] == ids;
      return None;
    }

    /** A tunnel from a request, in memory of its own, with its ids and defaults filled in. */
    method Decode(body: TunnelValue, id: string) returns (t: TunnelRef)
      modifies this`drawn
      ensures fresh(t.mappings) && Reify(t) == TunnelDefaults(Named(body, id, env.xid, old(drawn)))
      ensures drawn == old(drawn) + Blanks(body.mappings)
    {
      var ms := body.mappings;
      var a := new MappingValue[|ms|](i requires 0 <= i < |ms| => ms[i]);
      assert a[..] == ms;
      AssignIds(a);
      t := ApplyTunnelDefaults(Tunnel(id, body.name, body.notes, body.mode, body.chain, a, body.policy));
    }

    method CreateTunnel(body: TunnelValue, saveOk: bool) returns (r: Response)
      requires Valid()
      modifies this
      ensures Valid()
      ensures (State(), r) == CreateTunnelIn(old(State()), body, env, saveOk)
    {
      var id := env.xid(drawn);
      drawn := drawn + 1;
      var tun := DecodeApart(body, id);
      r := AppendTunnel(tun, saveOk);
    }

    /** Append, validate and save, and cut the list back if that fails. */
    method AppendTunnel(tun: TunnelRef, saveOk: bool) returns (r: Response)
      requires Valid() && forall j :: 0 <= j < |tunnels| ==> tunnels[j].mappings != tun.mappings
      modifies this
      ensures Valid()
      ensures (State(), r) == ConfigRequests.AppendTunnel(old(State()), Reify(tun), old(drawn), env, saveOk)
    {
      HoldsAppended(tunnels, stored, tun);
      tunnels, stored := tunnels + [tun], stored + [Reify(tun)];
      var vr := SaveConfig(saveOk);
      if !vr.Kept? {
        tunnels, stored := tunnels[..|tunnels| - 1], old(stored);
        assert tunnels == old(tunnels);
        return if vr.Failed? then InternalError else Invalid(vr.problems);
      }
      return Created;
    }

    /** The same beside the stored tunnels, none of which it touches. */
    method DecodeApart(body: TunnelValue, id: string) returns (t: TunnelRef)
      requires Valid()
      modifies this`drawn
      ensures Valid() && forall j :: 0 <= j < |tunnels| ==> tunnels[j].mappings != t.mappings
      ensures Reify(t) == TunnelDefaults(Named(body, id, env.xid, old(drawn)))
      ensures drawn == old(drawn) + Blanks(body.mappings)
    {
      t := Decode(body, id);
    }

    method UpdateTunnel(id: string, body: TunnelValue, saveOk: bool) returns (r: Response)
      requires Valid()
      modifies this
      ensures Valid()
      ensures (State(), r) == UpdateTunnelIn(old(State()), id, body, env, saveOk)
    {
      var tun := DecodeApart(body, id);
      var at := FindTunnel(id);
      if at.None? {
        return NotFound;
      }
      r := ReplaceTunnel(at.value, tun, saveOk);
    }

    /** Overwrite, validate and save, and put the old tunnel back if that fails. */
    method ReplaceTunnel(idx: nat, tun: TunnelRef, saveOk: bool) returns (r: Response)
      requires Valid() && idx < |tunnels|
      requires forall j :: 0 <= j < |tunnels| && j != idx ==> tunnels[j].mappings != tun.mappings
      modifies this
      ensures Valid()
      ensures (State(), r) == ConfigRequests.ReplaceTunnel(old(State()), idx, Reify(tun), old(Value()), old(drawn), env, saveOk)
    {
      HoldsReplaced(tunnels, stored, idx, tun);
      var old' := tunnels[idx];
      tunnels, stored := tunnels[idx := tun], stored[idx := Reify(tun)];
      var vr := SaveConfig(saveOk);
      if !vr.Kept? {
        tunnels, stored := tunnels[idx := old'], old(stored);
        assert tunnels == old(tunnels);
        return if vr.Failed? then InternalError else Invalid(vr.problems);
      }
      return Done;
    }

    /** The candidate of a patch: a copy of the stored tunnel, sharing its mappings unless the patch brings its own. */
    method ApplyPatch(stored': TunnelRef, patch: TunnelPatch) returns (tun: TunnelRef)
      modifies this`drawn
      ensures Reify(tun) == PatchedTunnel(old(Reify(stored')), patch, env.xid, old(drawn))
      ensures drawn == old(drawn) + Blanks(Or(patch.mappings, []))
      ensures if patch.mappings.Some? then fresh(tun.mappings) else tun.mappings == stored'.mappings
    {
      tun := stored';
      if patch.name.Some? {
        tun := tun.(name := patch.name.value);
      }
      if patch.notes.Some? {
        tun := tun.(notes := patch.notes.value);
      }
      if patch.mode.Some? {
        tun := tun.(mode := patch.mode.value);
      }
      if patch.chain.Some? {
        tun := tun.(chain := patch.chain.value);
      }
      if patch.mappings.Some? {
        var ms := patch.mappings.value;
        var a := new MappingValue[|ms|](i requires 0 <= i < |ms| => ms[i]);
        assert a[..] == ms;
        tun := tun.(mappings := a);
        AssignIds(tun.mappings);
      }
      if patch.policy.Some? {
        tun := tun.(policy := patch.policy.value);
      }
    }

    /** The candidate with its defaults, which are written to the stored tunnel's mappings where these are shared. */
    method PreparePatch(idx: nat, patch: TunnelPatch) returns (tun: TunnelRef)
      requires Valid() && idx < |tunnels|
      modifies this`drawn, this`stored, tunnels[idx].mappings
      ensures Valid()
      ensures Reify(tun) == TunnelDefaults(PatchedTunnel(old(stored)[idx], patch, env.xid, old(drawn)))
      ensures State() == Prepared(old(State()), idx, patch)
      ensures forall j :: 0 <= j < |tunnels| && j != idx ==> tunnels[j].mappings != tun.mappings
    {
      tun := ApplyPatch(tunnels[idx], patch);
      tun := ApplyTunnelDefaults(tun);
      if patch.mappings.None? {
        stored := stored[idx := Settled(stored[idx])];
      }
    }

    /**
     Where no stored mapping lacks its default, nobody who shares the mappings of
     a stored tunnel (as a supervisor does) can see that they were written to.
     */
    method PatchTunnel(id: string, patch: TunnelPatch, saveOk: bool) returns (r: Response)
      requires Valid()
      modifies this, Arrays(tunnels)
      ensures Valid()
      ensures (State(), r) == PatchTunnelIn(old(State()), id, patch, env, saveOk)
      ensures Tidy(old(Value())) ==> forall a :: a in old(Arrays(tunnels)) ==> a[..] == old(a[..])
    {
      var at := FindTunnel(id);
      if at.None? {
        return NotFound;
      }
      MappingsDefaultsSettle(stored[at.value].mappings);
      r := PatchTunnelAt(at.value, patch, saveOk);
    }

    method PatchTunnelAt(idx: nat, patch: TunnelPatch, saveOk: bool) returns (r: Response)
      requires Valid() && idx < |tunnels|
      modifies this, tunnels[idx].mappings
      ensures Valid()
      ensures (State(), r) == PatchAt(old(State()), idx, patch, env, saveOk)
      ensures old(tunnels)[idx].mappings[..] ==
              Prepared(old(State()), idx, patch).config.tunnels[idx].mappings
    {
      var tun := PreparePatch(idx, patch);
      PatchingIsReplacing(old(State()), idx, patch, env, saveOk);
      r := ReplaceTunnel(idx, tun, saveOk);
    }

    method DeleteTunnel(id: string, saveOk: bool) returns (r: Response)
      requires Valid()
      modifies this
      ensures Valid()
      ensures (State(), r) == DeleteTunnelIn(old(State()), id, env, saveOk)
    {
      var at := FindTunnel(id);
      if at.None? {
        return NotFound;
      }
      HoldsWithout(tunnels, stored, at.value);
      tunnels, stored := Without(tunnels, at.value), Without(stored, at.value);
      var vr := SaveConfig(saveOk);
      return if vr.Failed? then InternalError else NoContent;
    }

    method CreateConnection(body: ConnectionValue, saveOk: bool) returns (r: Response)
      requires Valid()
      modifies this
      ensures Valid()
      ensures (State(), r) == CreateConnectionIn(old(State()), body, env, saveOk)
    {
      var conn := body.(id := env.xid(drawn));
      drawn := drawn + 1;
      conn := ApplySSHConnectionDefaults(conn);
      connections := connections + [conn];
      var vr := SaveConfig(saveOk);
      if !vr.Kept? {
        connections := connections[..|connections| - 1];
        return if vr.Failed? then InternalError else Invalid(vr.problems);
      }
      return Created;
    }

    method UpdateConnection(id: string, body: ConnectionValue, saveOk: bool) returns (r: Response)
      requires Valid()
      modifies this
      ensures Valid()
      ensures (State(), r) == UpdateConnectionIn(old(State()), id, body, env, saveOk)
    {
      var conn := ApplySSHConnectionDefaults(body.(id := id));
      var at := FindConnection(id);
      if at.None? {
        return NotFound;
      }
      r := ReplaceConnection(at.value, conn, saveOk);
    }

    method PatchConnection(id: string, patch: ConnectionPatch, saveOk: bool) returns (r: Response)
      requires Valid()
      modifies this
      ensures Valid()
      ensures (State(), r) == PatchConnectionIn(old(State()), id, patch, env, saveOk)
    {
      var at := FindConnection(id);
      if at.None? {
        return NotFound;
      }
      var conn := ApplyConnectionPatch(connections[at.value], patch);
      conn := ApplySSHConnectionDefaults(conn);
      r := ReplaceConnection(at.value, conn, saveOk);
    }

    method ApplyConnectionPatch(stored': ConnectionValue, patch: ConnectionPatch) returns (conn: ConnectionValue)
      ensures conn == PatchedConnection(stored', patch)
    {
      conn := stored';
      if patch.name.Some? {
        conn := conn.(name := patch.name.value);
      }
      if patch.endpoint.Some? {
        conn := conn.(endpoint := patch.endpoint.value);
      }
      if patch.auth.Some? {
        conn := conn.(auth := patch.auth.value);
      }
      if patch.hostKeyMode.Some? {
        conn := conn.(hostKeyMode := patch.hostKeyMode.value);
      }
      if patch.dialTimeoutMs.Some? {
        conn := conn.(dialTimeoutMs := patch.dialTimeoutMs.value);
      }
      if patch.keepAlive.Some? {
        conn := conn.(keepAlive := patch.keepAlive.value);
      }
    }

    /** Overwrite, validate and save, and put the old one back if that fails. */
    method ReplaceConnection(idx: nat, conn: ConnectionValue, saveOk: bool) returns (r: Response)
      requires Valid() && idx < |connections|
      modifies this
      ensures Valid()
      ensures (State(), r) == ConfigRequests.ReplaceConnection(old(State()), idx, conn, env, saveOk)
    {
      var old' := connections[idx];
      connections := connections[idx := conn];
      var vr := SaveConfig(saveOk);
      if !vr.Kept? {
        connections := connections[idx := old'];
        assert connections == old(connections);
        return if vr.Failed? then InternalError else Invalid(vr.problems);
      }
      return Done;
    }

    method DeleteConnection(id: string, saveOk: bool) returns (r: Response)
      requires Valid()
      modifies this
      ensures Valid()
      ensures (State(), r) == DeleteConnectionIn(old(State()), id, env, saveOk)
    {
      var at := FindConnection(id);
      if at.None? {
        return NotFound;
      }
      var c := Read();
      var refs := FindSSHConnectionReferences(c.tunnels, id);
      if |refs| > 0 {
        return Conflict(refs);
      }
      connections := Without(connections, at.value);
      var vr := SaveConfig(saveOk);
      return if vr.Failed? then InternalError else NoContent;
    }
  }
}
