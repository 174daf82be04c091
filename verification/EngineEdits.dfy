/** How long a supervisor goes on running today's configuration while that is edited. */
module EngineEdits {
  import opened Prelude
  import opened ConfigModel
  import opened ConfigDefaults
  import opened ConfigRequests
  import opened Engine

  /** The request is about this tunnel or about a connection of its chain. */
  predicate Names(r: Request, id: string, chain: seq<string>) {
    match r
    case CreateTunnel(_) => false
    case UpdateTunnel(i, _) => i == id
    case PatchTunnel(i, _) => i == id
    case DeleteTunnel(i) => i == id
    case CreateConnection(_) => false
    case UpdateConnection(i, _) => i in chain
    case PatchConnection(i, _) => i in chain
    case DeleteConnection(i) => i in chain
  }

  /** Refused for good: a deletion that could not be saved is refused too, but has happened. */
  predicate TurnedDown(r: Request, response: Response) {
    Refused(response) && !(Deletes(r) && response.InternalError?)
  }

  // ---------------------------------------------------------------- where an id stands after an edit

  lemma IndexAfterAppending(ids: seq<string>, x: string, id: string)
    requires IndexOf(ids, id).Some?
    ensures IndexOf(ids + [x], id) == IndexOf(ids, id)
  {
    var i := IndexOf(ids, id).value;
    assert (ids + [x])[..i] == ids[..i];
    FirstIs(ids + [x], id, i);
  }

  lemma NotBefore(ids: seq<string>, at: nat, id: string, n: nat)
    requires at < n <= |ids| && id !in ids[..n]
    ensures id !in Without(ids, at)[..n - 1]
  {
    var rest := Without(ids, at);
    forall k | 0 <= k < n - 1 ensures rest[k] != id {
      var from := if k < at then k else k + 1;
      assert rest[k] == ids[from] && ids[from] in ids[..n];
    }
  }

  lemma IndexAfterRemoving(ids: seq<string>, at: nat, id: string)
    requires at < |ids| && ids[at] != id && IndexOf(ids, id).Some?
    ensures var i := IndexOf(ids, id).value;
            IndexOf(Without(ids, at), id) == Some(if i < at then i else i - 1)
  {
    var i := IndexOf(ids, id).value;
    if i < at {
      assert Without(ids, at)[..i] == ids[..i];
      FirstIs(Without(ids, at), id, i);
    } else {
      NotBefore(ids, at, id, i);
      FirstIs(Without(ids, at), id, i - 1);
    }
  }

  function TheTunnel(ts: seq<TunnelValue>, id: string): Option<TunnelValue> {
    var i := IndexOf(TunnelIds(ts), id);
    if i.None? then None else Some(ts[i.value])
  }

  lemma TunnelStandsAfter(ts: seq<TunnelValue>, other: TunnelValue, at: nat, id: string)
    requires TheTunnel(ts, id).Some?
    ensures TheTunnel(ts + [other], id) == TheTunnel(ts, id)
    ensures at < |ts| && other.id == ts[at].id != id ==> TheTunnel(ts[at := other], id) == TheTunnel(ts, id)
    ensures at < |ts| && ts[at].id != id ==> TheTunnel(Without(ts, at), id) == TheTunnel(ts, id)
  {
    var ids := TunnelIds(ts);
    IndexAfterAppending(ids, other.id, id);
    assert TunnelIds(ts + [other]) == ids + [other.id];
    if at < |ts| && ts[at].id != id {
      IndexAfterRemoving(ids, at, id);
      assert TunnelIds(Without(ts, at)) == Without(ids, at);
      assert other.id == ts[at].id ==> TunnelIds(ts[at := other]) == ids;
    }
  }

  lemma ConnectionStandsAfter(cs: seq<ConnectionValue>, other: ConnectionValue, at: nat, id: string)
    requires Lookup(cs, id).Some?
    ensures Lookup(cs + [other], id) == Lookup(cs, id)
    ensures at < |cs| && other.id == cs[at].id != id ==> Lookup(cs[at := other], id) == Lookup(cs, id)
    ensures at < |cs| && cs[at].id != id ==> Lookup(Without(cs, at), id) == Lookup(cs, id)
  {
    var ids := ConnectionIds(cs);
    IndexAfterAppending(ids, other.id, id);
    assert ConnectionIds(cs + [other]) == ids + [other.id];
    if at < |cs| && cs[at].id != id {
      IndexAfterRemoving(ids, at, id);
      assert ConnectionIds(Without(cs, at)) == Without(ids, at);
      assert other.id == cs[at].id ==> ConnectionIds(cs[at := other]) == ids;
    }
  }

  // ---------------------------------------------------------------- one request

  lemma CurrentMeans(c: Config, id: string, kept: Made)
    ensures Current(c, id, kept) <==>
              && TheTunnel(c.tunnels, id) == Some(kept.tunnel) && |kept.conns| == |kept.tunnel.chain|
              && forall k :: 0 <= k < |kept.conns| ==> Lookup(c.connections, kept.tunnel.chain[k]) == Some(kept.conns[k])
  {
    var chain := kept.tunnel.chain;
    forall k | 0 <= k < |chain| && k < |kept.conns|
      ensures Stands(c.connections, chain[k], kept.conns[k]) <==> Lookup(c.connections, chain[k]) == Some(kept.conns[k])
    {
    }
  }

  /** The tunnel and the connections behind its chain can be found as before. */
  ghost predicate Spared(c: Config, after: Config, id: string, chain: seq<string>) {
    && TheTunnel(after.tunnels, id) == TheTunnel(c.tunnels, id)
    && forall k :: 0 <= k < |chain| ==> Lookup(after.connections, chain[k]) == Lookup(c.connections, chain[k])
  }

  lemma SparedStaysCurrent(c: Config, after: Config, id: string, kept: Made)
    requires Current(c, id, kept) && Spared(c, after, id, kept.tunnel.chain)
    ensures Current(after, id, kept)
  {
    CurrentMeans(c, id, kept);
    CurrentMeans(after, id, kept);
  }

  /** A request on tunnels changes no connection, and at most the one tunnel it names. */
  lemma TunnelOutcome(s: State, r: Request, env: Env, saveOk: bool) returns (at: nat, t: TunnelValue)
    requires OnTunnels(r)
    ensures var c, after := s.config, Handle(s, r, env, saveOk).0.config;
            && after.connections == c.connections
            && (|| after.tunnels == c.tunnels
                || (r.CreateTunnel? && after.tunnels == c.tunnels + [t])
                || (at < |c.tunnels| && !r.CreateTunnel? && t.id == c.tunnels[at].id == r.id && after.tunnels == c.tunnels[at := t])
                || (at < |c.tunnels| && r.DeleteTunnel? && c.tunnels[at].id == r.id && after.tunnels == Without(c.tunnels, at)))
  {
    var c, after := s.config, Handle(s, r, env, saveOk).0.config;
    if r.CreateTunnel? {
      at, t := 0, TunnelDefaults(Named(r.tunnel, env.xid(s.drawn), env.xid, s.drawn + 1));
    } else {
      var i := IndexOf(TunnelIds(c.tunnels), r.id);
      at := if i.Some? then i.value else 0;
      t := *;
      if at < |after.tunnels| {
        t := after.tunnels[at];
      }
    }
  }

  lemma TunnelRequestSpares(s: State, r: Request, env: Env, saveOk: bool, id: string, chain: seq<string>)
    requires OnTunnels(r) && TheTunnel(s.config.tunnels, id).Some? && !Names(r, id, chain)
    ensures Spared(s.config, Handle(s, r, env, saveOk).0.config, id, chain)
  {
    var at, t := TunnelOutcome(s, r, env, saveOk);
    TunnelStandsAfter(s.config.tunnels, t, at, id);
  }

  /** A request on connections changes no tunnel, and at most the one connection it names. */
  lemma ConnectionOutcome(s: State, r: Request, env: Env, saveOk: bool) returns (at: nat, conn: ConnectionValue)
    requires !OnTunnels(r)
    ensures var c, after := s.config, Handle(s, r, env, saveOk).0.config;
            && after.tunnels == c.tunnels
            && (|| after.connections == c.connections
                || (r.CreateConnection? && after.connections == c.connections + [conn])
                || (at < |c.connections| && !r.CreateConnection? && conn.id == c.connections[at].id == r.id
                    && after.connections == c.connections[at := conn])
                || (at < |c.connections| && r.DeleteConnection? && c.connections[at].id == r.id
                    && after.connections == Without(c.connections, at)))
  {
    var c := s.config;
    if r.CreateConnection? {
      at, conn := 0, ConnectionDefaults(r.connection.(id := env.xid(s.drawn)));
    } else {
      var i := IndexOf(ConnectionIds(c.connections), r.id);
      at := if i.Some? then i.value else 0;
      var after := Handle(s, r, env, saveOk).0.config.connections;
      conn := *;
      if at < |after| {
        conn := after[at];
      }
    }
  }

  lemma ConnectionRequestSpares(s: State, r: Request, env: Env, saveOk: bool, id: string, chain: seq<string>)
    requires !OnTunnels(r) && !Names(r, id, chain)
    requires forall k :: 0 <= k < |chain| ==> Lookup(s.config.connections, chain[k]).Some?
    ensures Spared(s.config, Handle(s, r, env, saveOk).0.config, id, chain)
  {
    var at, conn := ConnectionOutcome(s, r, env, saveOk);
    forall k | 0 <= k < |chain|
      ensures Lookup(Handle(s, r, env, saveOk).0.config.connections, chain[k]) == Lookup(s.config.connections, chain[k])
    {
      ConnectionStandsAfter(s.config.connections, conn, at, chain[k]);
    }
  }

  lemma TurnedDownChangesNothing(s: State, r: Request, env: Env, saveOk: bool)
    requires Tidy(s.config) && TurnedDown(r, Handle(s, r, env, saveOk).1)
    ensures Handle(s, r, env, saveOk).0.config == s.config
  {
    if !Deletes(r) {
      TidyConfigurationsRollBack(s, r, env, saveOk);
    }
  }

  lemma OneRequest(s: State, e: Event, env: Env, id: string, kept: Made)
    requires Tidy(s.config) && Current(s.config, id, kept)
    requires Names(e.request, id, kept.tunnel.chain) ==> TurnedDown(e.request, Handle(s, e.request, env, e.saveOk).1)
    ensures Current(Handle(s, e.request, env, e.saveOk).0.config, id, kept)
  {
    if Names(e.request, id, kept.tunnel.chain) {
      TurnedDownChangesNothing(s, e.request, env, e.saveOk);
    } else {
      CurrentMeans(s.config, id, kept);
      if OnTunnels(e.request) {
        TunnelRequestSpares(s, e.request, env, e.saveOk, id, kept.tunnel.chain);
      } else {
        ConnectionRequestSpares(s, e.request, env, e.saveOk, id, kept.tunnel.chain);
      }
      SparedStaysCurrent(s.config, Handle(s, e.request, env, e.saveOk).0.config, id, kept);
    }
  }

  /** Every request of the run about the tunnel or its connections was turned down. */
  ghost predicate Spares(s: State, es: seq<Event>, env: Env, id: string, chain: seq<string>) {
    forall i :: 0 <= i < |es| && Names(es[i].request, id, chain) ==>
      TurnedDown(es[i].request, Handle(Run(s, es[..i], env), es[i].request, env, es[i].saveOk).1)
  }

  /**
   A supervisor that is kept goes on running today's configuration through any
   run of requests in which nobody edits its tunnel or a connection of its chain.
   */
  lemma {:induction false} KeptStaysCurrent(s: State, es: seq<Event>, env: Env, id: string, kept: Made)
    requires Tidy(s.config) && Current(s.config, id, kept) && Spares(s, es, env, id, kept.tunnel.chain)
    ensures Current(Run(s, es, env).config, id, kept)
  {
    if es != [] {
      var init, e := es[..|es| - 1], es[|es| - 1];
      assert Spares(s, init, env, id, kept.tunnel.chain) by {
        forall i | 0 <= i < |init| ensures es[..i] == init[..i] && es[i] == init[i] {}
      }
      KeptStaysCurrent(s, init, env, id, kept);
      EveryRunKeepsDefaults(s, init, env);
      OneRequest(Run(s, init, env), e, env, id, kept);
    }
  }
}
