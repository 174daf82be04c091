/**
 What a request asks for, field by field, and that this and nothing else is what
 it does. Nothing here is said in terms of the functions that make the edits.
 */
module ConfigEffects {
  import opened Prelude
  import opened ConfigModel
  import opened ConfigDefaults
  import opened ConfigValidate
  import opened ConfigRequests
  import opened Engine

  // ---------------------------------------------------------------- fields

  /** A number is as asked for, and d where none was given; likewise a text. */
  predicate Number(x: int, asked: int, d: int) {
    if asked == 0 then x == d else x == asked
  }

  predicate Text(x: string, asked: string, d: string) {
    if asked == "" then x == d else x == asked
  }

  /** A field of a patch that was brought is taken over; one that was not is kept. */
  predicate Brought<T(==)>(x: T, brought: Option<T>, kept: T) {
    if brought.Some? then x == brought.value else x == kept
  }

  predicate KeepAliveAsAsked(k: KeepAlive, asked: KeepAlive) {
    Number(k.intervalMs, asked.intervalMs, 15000) && Number(k.maxMissed, asked.maxMissed, 3)
  }

  /** Automatic restart is also switched on by leaving the backoff out. */
  predicate PolicyAsAsked(p: Policy, asked: Policy) {
    && p.autoStart == asked.autoStart
    && (p.autoRestart <==> asked.autoRestart || (asked.restartBackoff.minMs == 0 && asked.restartBackoff.maxMs == 0))
    && Number(p.restartBackoff.minMs, asked.restartBackoff.minMs, 500)
    && Number(p.restartBackoff.maxMs, asked.restartBackoff.maxMs, 15000)
    && (p.restartBackoff.factor == if asked.restartBackoff.factor == 0.0 then 1.7 else asked.restartBackoff.factor)
    && Number(p.maxRestartsPerHour, asked.maxRestartsPerHour, 60)
    && Number(p.gracefulStopTimeoutMs, asked.gracefulStopTimeoutMs, 5000)
  }

  /** All of a mapping but its id. */
  predicate MappingAsAsked(m: MappingValue, asked: MappingValue) {
    && Text(m.listen.host, asked.listen.host, "127.0.0.1") && m.listen.port == asked.listen.port
    && m.connect == asked.connect && m.socks5 == asked.socks5 && m.notes == asked.notes
  }

  /** How many mappings before the i-th came without an id. */
  function Unnamed(ms: seq<MappingValue>, i: nat): nat
    requires i <= |ms|
  {
    |set j | 0 <= j < i && ms[j].id == ""|
  }

  /** The mappings of a request: those without an id get new ones, drawn in order from the given number on. */
  ghost predicate MappingsAsAsked(ms: seq<MappingValue>, asked: seq<MappingValue>, xid: nat -> string, from: nat) {
    && |ms| == |asked|
    && forall i :: 0 <= i < |asked| ==>
         && MappingAsAsked(ms[i], asked[i])
         && (ms[i].id == if asked[i].id == "" then xid(from + Unnamed(asked, i)) else asked[i].id)
  }

  /** Stored mappings that no request replaced. */
  ghost predicate MappingsKept(ms: seq<MappingValue>, stored: seq<MappingValue>) {
    |ms| == |stored| && forall i :: 0 <= i < |stored| ==> MappingAsAsked(ms[i], stored[i]) && ms[i].id == stored[i].id
  }

  // ---------------------------------------------------------------- entities

  ghost predicate TunnelAsAsked(t: TunnelValue, id: string, asked: TunnelValue, xid: nat -> string, from: nat) {
    && t.id == id && t.name == asked.name && t.notes == asked.notes && t.mode == asked.mode && t.chain == asked.chain
    && MappingsAsAsked(t.mappings, asked.mappings, xid, from)
    && PolicyAsAsked(t.policy, asked.policy)
  }

  ghost predicate TunnelAsPatched(t: TunnelValue, stored: TunnelValue, p: TunnelPatch, xid: nat -> string, from: nat) {
    && t.id == stored.id
    && Brought(t.name, p.name, stored.name) && Brought(t.notes, p.notes, stored.notes)
    && Brought(t.mode, p.mode, stored.mode) && Brought(t.chain, p.chain, stored.chain)
    && (if p.mappings.Some? then MappingsAsAsked(t.mappings, p.mappings.value, xid, from)
        else MappingsKept(t.mappings, stored.mappings))
    && PolicyAsAsked(t.policy, if p.policy.Some? then p.policy.value else stored.policy)
  }

  predicate ConnectionAsAsked(conn: ConnectionValue, id: string, asked: ConnectionValue) {
    && conn.id == id && conn.name == asked.name && conn.endpoint == asked.endpoint && conn.auth == asked.auth
    && Text(conn.hostKeyMode, asked.hostKeyMode, "acceptNew")
    && Number(conn.dialTimeoutMs, asked.dialTimeoutMs, 10000)
    && KeepAliveAsAsked(conn.keepAlive, asked.keepAlive)
  }

  predicate ConnectionAsPatched(conn: ConnectionValue, stored: ConnectionValue, p: ConnectionPatch) {
    && conn.id == stored.id
    && Brought(conn.name, p.name, stored.name) && Brought(conn.endpoint, p.endpoint, stored.endpoint)
    && Brought(conn.auth, p.auth, stored.auth)
    && Text(conn.hostKeyMode, if p.hostKeyMode.Some? then p.hostKeyMode.value else stored.hostKeyMode, "acceptNew")
    && Number(conn.dialTimeoutMs, if p.dialTimeoutMs.Some? then p.dialTimeoutMs.value else stored.dialTimeoutMs, 10000)
    && KeepAliveAsAsked(conn.keepAlive, if p.keepAlive.Some? then p.keepAlive.value else stored.keepAlive)
  }

  // ---------------------------------------------------------------- lists

  /** One more at the end. */
  ghost predicate OneMore<T>(after: seq<T>, before: seq<T>) {
    |after| == |before| + 1 && forall j :: 0 <= j < |before| ==> after[j] == before[j]
  }

  /** Only the i-th may have changed. */
  ghost predicate OnlyAt<T>(after: seq<T>, before: seq<T>, i: nat) {
    |after| == |before| && forall j :: 0 <= j < |before| && j != i ==> after[j] == before[j]
  }

  /** The i-th is gone. */
  ghost predicate OneLess<T>(after: seq<T>, before: seq<T>, i: nat) {
    && i < |before| && |after| == |before| - 1
    && (forall j :: 0 <= j < i ==> after[j] == before[j])
    && (forall j :: i <= j < |after| ==> after[j] == before[j + 1])
  }

  /** The first with this id. */
  predicate StandsAt(ids: seq<string>, id: string, i: nat) {
    i < |ids| && ids[i] == id && forall j :: 0 <= j < i ==> ids[j] != id
  }

  // ---------------------------------------------------------------- requests

  /** What a request is about is there. */
  ghost predicate Present(c: Config, r: Request) {
    match r
    case CreateTunnel(_) => true
    case UpdateTunnel(id, _) => id in TunnelIds(c.tunnels)
    case PatchTunnel(id, _) => id in TunnelIds(c.tunnels)
    case DeleteTunnel(id) => id in TunnelIds(c.tunnels)
    case CreateConnection(_) => true
    case UpdateConnection(id, _) => id in ConnectionIds(c.connections)
    case PatchConnection(id, _) => id in ConnectionIds(c.connections)
    case DeleteConnection(id) => id in ConnectionIds(c.connections)
  }

  ghost predicate TunnelReplaced(c: Config, id: string, asked: TunnelValue, xid: nat -> string, drawn: nat, after: seq<TunnelValue>) {
    exists i: nat :: StandsAt(TunnelIds(c.tunnels), id, i) && OnlyAt(after, c.tunnels, i)
                     && TunnelAsAsked(after[i], id, asked, xid, drawn)
  }

  ghost predicate TunnelPatched(c: Config, id: string, p: TunnelPatch, xid: nat -> string, drawn: nat, after: seq<TunnelValue>) {
    exists i: nat :: StandsAt(TunnelIds(c.tunnels), id, i) && OnlyAt(after, c.tunnels, i)
                     && TunnelAsPatched(after[i], c.tunnels[i], p, xid, drawn)
  }

  ghost predicate TunnelRemoved(c: Config, id: string, after: seq<TunnelValue>) {
    exists i: nat :: StandsAt(TunnelIds(c.tunnels), id, i) && OneLess(after, c.tunnels, i)
  }

  ghost predicate ConnectionReplaced(c: Config, id: string, asked: ConnectionValue, after: seq<ConnectionValue>) {
    exists i: nat :: StandsAt(ConnectionIds(c.connections), id, i) && OnlyAt(after, c.connections, i)
                     && ConnectionAsAsked(after[i], id, asked)
  }

  ghost predicate ConnectionPatched(c: Config, id: string, p: ConnectionPatch, after: seq<ConnectionValue>) {
    exists i: nat :: StandsAt(ConnectionIds(c.connections), id, i) && OnlyAt(after, c.connections, i)
                     && ConnectionAsPatched(after[i], c.connections[i], p)
  }

  ghost predicate ConnectionRemoved(c: Config, id: string, after: seq<ConnectionValue>) {
    exists i: nat :: StandsAt(ConnectionIds(c.connections), id, i) && OneLess(after, c.connections, i)
  }

  /** The tunnels, or connections, that such a request asks for. */
  ghost predicate TunnelsMeant(c: Config, r: Request, xid: nat -> string, drawn: nat, after: seq<TunnelValue>)
    requires OnTunnels(r)
  {
    match r
    case CreateTunnel(t) => OneMore(after, c.tunnels) && TunnelAsAsked(after[|c.tunnels|], xid(drawn), t, xid, drawn + 1)
    case UpdateTunnel(id, t) => TunnelReplaced(c, id, t, xid, drawn, after)
    case PatchTunnel(id, p) => TunnelPatched(c, id, p, xid, drawn, after)
    case DeleteTunnel(id) => TunnelRemoved(c, id, after)
  }

  ghost predicate ConnectionsMeant(c: Config, r: Request, xid: nat -> string, drawn: nat, after: seq<ConnectionValue>)
    requires !OnTunnels(r)
  {
    match r
    case CreateConnection(conn) => OneMore(after, c.connections) && ConnectionAsAsked(after[|c.connections|], xid(drawn), conn)
    case UpdateConnection(id, conn) => ConnectionReplaced(c, id, conn, after)
    case PatchConnection(id, p) => ConnectionPatched(c, id, p, after)
    case DeleteConnection(id) => ConnectionRemoved(c, id, after)
  }

  /** `after` is what the request asks to make of the configuration: everything else stays. */
  ghost predicate Means(c: Config, r: Request, xid: nat -> string, drawn: nat, after: Config) {
    && after.settings == c.settings
    && (if OnTunnels(r) then after.connections == c.connections && TunnelsMeant(c, r, xid, drawn, after.tunnels)
        else after.tunnels == c.tunnels && ConnectionsMeant(c, r, xid, drawn, after.connections))
  }

  // ---------------------------------------------------------------- the edits, read that way

  lemma UnnamedOneMore(ms: seq<MappingValue>, i: nat)
    requires i < |ms|
    ensures Unnamed(ms, i + 1) == Unnamed(ms, i) + if ms[i].id == "" then 1 else 0
  {
    var before, upTo := set j | 0 <= j < i && ms[j].id == "", set j | 0 <= j < i + 1 && ms[j].id == "";
    if ms[i].id == "" {
      assert upTo == before + {i};
    } else {
      assert upTo == before;
    }
  }

  lemma BlanksOneMore(ms: seq<MappingValue>, i: nat)
    requires i < |ms|
    ensures Blanks(ms[..i + 1]) == Blanks(ms[..i]) + if ms[i].id == "" then 1 else 0
  {
    assert ms[..i + 1][..i] == ms[..i];
  }

  lemma {:induction false} UnnamedAreBlanks(ms: seq<MappingValue>, i: nat)
    requires i <= |ms|
    ensures Blanks(ms[..i]) == Unnamed(ms, i)
  {
    if i > 0 {
      UnnamedAreBlanks(ms, i - 1);
      UnnamedOneMore(ms, i - 1);
      BlanksOneMore(ms, i - 1);
    }
  }

  lemma MappingRead(m: MappingValue, asked: MappingValue)
    ensures MappingAsAsked(m, asked) && m.id == asked.id <==> m == MappingDefaults(asked)
  {
  }

  lemma PolicyRead(p: Policy, asked: Policy)
    ensures PolicyAsAsked(p, asked) <==> p == PolicyDefaults(asked)
  {
  }

  lemma NamedMappingRead(m: MappingValue, asked: seq<MappingValue>, xid: nat -> string, from: nat, i: nat)
    requires i < |asked|
    ensures MappingAsAsked(m, asked[i]) && (m.id == if asked[i].id == "" then xid(from + Unnamed(asked, i)) else asked[i].id)
            <==> m == MappingDefaults(IdentifiedAt(asked, xid, from, i))
  {
    UnnamedAreBlanks(asked, i);
  }

  lemma MappingsRead(ms: seq<MappingValue>, asked: seq<MappingValue>, xid: nat -> string, from: nat)
    ensures MappingsAsAsked(ms, asked, xid, from) <==> ms == MappingsDefaults(Identified(asked, xid, from))
  {
    var named := Identified(asked, xid, from);
    forall i | 0 <= i < |asked| && i < |ms|
      ensures ms[i] == MappingDefaults(named[i]) <==>
                && MappingAsAsked(ms[i], asked[i])
                && (ms[i].id == if asked[i].id == "" then xid(from + Unnamed(asked, i)) else asked[i].id)
    {
      NamedMappingRead(ms[i], asked, xid, from, i);
    }
  }

  lemma MappingsKeptRead(ms: seq<MappingValue>, stored: seq<MappingValue>)
    ensures MappingsKept(ms, stored) <==> ms == MappingsDefaults(stored)
  {
    forall i | 0 <= i < |stored| && i < |ms|
      ensures ms[i] == MappingDefaults(stored[i]) <==> MappingAsAsked(ms[i], stored[i]) && ms[i].id == stored[i].id
    {
      MappingRead(ms[i], stored[i]);
    }
  }

  lemma TunnelRead(t: TunnelValue, id: string, asked: TunnelValue, xid: nat -> string, from: nat)
    ensures TunnelAsAsked(t, id, asked, xid, from) <==> t == TunnelDefaults(Named(asked, id, xid, from))
  {
    MappingsRead(t.mappings, asked.mappings, xid, from);
    PolicyRead(t.policy, asked.policy);
  }

  lemma PatchRead(t: TunnelValue, stored: TunnelValue, p: TunnelPatch, xid: nat -> string, from: nat)
    ensures TunnelAsPatched(t, stored, p, xid, from) <==> t == TunnelDefaults(PatchedTunnel(stored, p, xid, from))
  {
    if p.mappings.Some? {
      MappingsRead(t.mappings, p.mappings.value, xid, from);
    } else {
      MappingsKeptRead(t.mappings, stored.mappings);
    }
    PolicyRead(t.policy, if p.policy.Some? then p.policy.value else stored.policy);
  }

  lemma ConnectionRead(conn: ConnectionValue, id: string, asked: ConnectionValue)
    ensures ConnectionAsAsked(conn, id, asked) <==> conn == ConnectionDefaults(asked.(id := id))
  {
  }

  lemma ConnectionPatchRead(conn: ConnectionValue, stored: ConnectionValue, p: ConnectionPatch)
    ensures ConnectionAsPatched(conn, stored, p) <==> conn == ConnectionDefaults(PatchedConnection(stored, p))
  {
  }

  // ---------------------------------------------------------------- the lists, read that way

  lemma OneMoreRead<T>(after: seq<T>, before: seq<T>, x: T)
    ensures OneMore(after, before) && after[|before|] == x <==> after == before + [x]
  {
  }

  lemma OnlyAtRead<T>(after: seq<T>, before: seq<T>, i: nat, x: T)
    requires i < |before|
    ensures OnlyAt(after, before, i) && after[i] == x <==> after == before[i := x]
  {
  }

  lemma OneLessRead<T>(after: seq<T>, before: seq<T>, i: nat)
    requires i < |before|
    ensures OneLess(after, before, i) <==> after == Without(before, i)
  {
  }

  lemma StandsAtRead(ids: seq<string>, id: string, i: nat)
    ensures StandsAt(ids, id, i) <==> IndexOf(ids, id) == Some(i)
  {
    if StandsAt(ids, id, i) {
      FirstIs(ids, id, i);
    } else if IndexOf(ids, id) == Some(i) {
      forall j | 0 <= j < i ensures ids[j] != id {
        assert ids[j] in ids[..i];
      }
    }
  }

  // ---------------------------------------------------------------- what requests mean

  /** The lists that the edits build. */
  ghost function UpdatedTunnels(c: Config, id: string, body: TunnelValue, xid: nat -> string, drawn: nat): Option<seq<TunnelValue>> {
    match IndexOf(TunnelIds(c.tunnels), id)
    case None => None
    case Some(i) => Some(c.tunnels[i := TunnelDefaults(Named(body, id, xid, drawn))])
  }

  ghost function PatchedTunnels(c: Config, id: string, p: TunnelPatch, xid: nat -> string, drawn: nat): Option<seq<TunnelValue>> {
    match IndexOf(TunnelIds(c.tunnels), id)
    case None => None
    case Some(i) => Some(c.tunnels[i := TunnelDefaults(PatchedTunnel(c.tunnels[i], p, xid, drawn))])
  }

  ghost function TunnelsWithout(c: Config, id: string): Option<seq<TunnelValue>> {
    match IndexOf(TunnelIds(c.tunnels), id)
    case None => None
    case Some(i) => Some(Without(c.tunnels, i))
  }

  ghost function UpdatedConnections(c: Config, id: string, body: ConnectionValue): Option<seq<ConnectionValue>> {
    match IndexOf(ConnectionIds(c.connections), id)
    case None => None
    case Some(i) => Some(c.connections[i := ConnectionDefaults(body.(id := id))])
  }

  ghost function PatchedConnections(c: Config, id: string, p: ConnectionPatch): Option<seq<ConnectionValue>> {
    match IndexOf(ConnectionIds(c.connections), id)
    case None => None
    case Some(i) => Some(c.connections[i := ConnectionDefaults(PatchedConnection(c.connections[i], p))])
  }

  ghost function ConnectionsWithout(c: Config, id: string): Option<seq<ConnectionValue>> {
    match IndexOf(ConnectionIds(c.connections), id)
    case None => None
    case Some(i) => Some(Without(c.connections, i))
  }

  ghost function WithTunnels(c: Config, ts: Option<seq<TunnelValue>>): Option<Config> {
    if ts.None? then None else Some(c.(tunnels := ts.value))
  }

  ghost function WithConnections(c: Config, cs: Option<seq<ConnectionValue>>): Option<Config> {
    if cs.None? then None else Some(c.(connections := cs.value))
  }

  ghost function TunnelsAfter(s: State, r: Request, env: Env): Option<seq<TunnelValue>>
    requires OnTunnels(r)
  {
    var c := s.config;
    match r
    case CreateTunnel(t) => Some(c.tunnels + [TunnelDefaults(Named(t, env.xid(s.drawn), env.xid, s.drawn + 1))])
    case UpdateTunnel(id, t) => UpdatedTunnels(c, id, t, env.xid, s.drawn)
    case PatchTunnel(id, p) => PatchedTunnels(c, id, p, env.xid, s.drawn)
    case DeleteTunnel(id) => TunnelsWithout(c, id)
  }

  ghost function ConnectionsAfter(s: State, r: Request, env: Env): Option<seq<ConnectionValue>>
    requires !OnTunnels(r)
  {
    var c := s.config;
    match r
    case CreateConnection(conn) => Some(c.connections + [ConnectionDefaults(conn.(id := env.xid(s.drawn)))])
    case UpdateConnection(id, conn) => UpdatedConnections(c, id, conn)
    case PatchConnection(id, p) => PatchedConnections(c, id, p)
    case DeleteConnection(id) => ConnectionsWithout(c, id)
  }

  /** The configuration that a request asks for, as the edits build it. */
  ghost function Candidate(s: State, r: Request, env: Env): Option<Config> {
    if OnTunnels(r) then WithTunnels(s.config, TunnelsAfter(s, r, env))
    else WithConnections(s.config, ConnectionsAfter(s, r, env))
  }

  lemma NewTunnelRead(s: State, t: TunnelValue, env: Env, after: seq<TunnelValue>)
    ensures OneMore(after, s.config.tunnels)
            && TunnelAsAsked(after[|s.config.tunnels|], env.xid(s.drawn), t, env.xid, s.drawn + 1)
            <==> after == s.config.tunnels + [TunnelDefaults(Named(t, env.xid(s.drawn), env.xid, s.drawn + 1))]
  {
    var ts := s.config.tunnels;
    OneMoreRead(after, ts, TunnelDefaults(Named(t, env.xid(s.drawn), env.xid, s.drawn + 1)));
    if |after| > |ts| {
      TunnelRead(after[|ts|], env.xid(s.drawn), t, env.xid, s.drawn + 1);
    }
  }

  lemma NewConnectionRead(s: State, conn: ConnectionValue, env: Env, after: seq<ConnectionValue>)
    ensures OneMore(after, s.config.connections)
            && ConnectionAsAsked(after[|s.config.connections|], env.xid(s.drawn), conn)
            <==> after == s.config.connections + [ConnectionDefaults(conn.(id := env.xid(s.drawn)))]
  {
    var cs := s.config.connections;
    OneMoreRead(after, cs, ConnectionDefaults(conn.(id := env.xid(s.drawn))));
    if |after| > |cs| {
      ConnectionRead(after[|cs|], env.xid(s.drawn), conn);
    }
  }

  lemma StandsRead(ids: seq<string>, id: string)
    ensures forall i: nat :: StandsAt(ids, id, i) <==> IndexOf(ids, id) == Some(i)
  {
    forall i: nat ensures StandsAt(ids, id, i) <==> IndexOf(ids, id) == Some(i) {
      StandsAtRead(ids, id, i);
    }
  }

  lemma TunnelUpdateRead(c: Config, id: string, body: TunnelValue, xid: nat -> string, drawn: nat, after: seq<TunnelValue>)
    ensures TunnelReplaced(c, id, body, xid, drawn, after) <==> UpdatedTunnels(c, id, body, xid, drawn) == Some(after)
  {
    var at := IndexOf(TunnelIds(c.tunnels), id);
    StandsRead(TunnelIds(c.tunnels), id);
    if at.Some? {
      OnlyAtRead(after, c.tunnels, at.value, TunnelDefaults(Named(body, id, xid, drawn)));
      if |after| == |c.tunnels| {
        TunnelRead(after[at.value], id, body, xid, drawn);
      }
    }
  }

  lemma TunnelPatchRead(c: Config, id: string, p: TunnelPatch, xid: nat -> string, drawn: nat, after: seq<TunnelValue>)
    ensures TunnelPatched(c, id, p, xid, drawn, after) <==> PatchedTunnels(c, id, p, xid, drawn) == Some(after)
  {
    var at := IndexOf(TunnelIds(c.tunnels), id);
    StandsRead(TunnelIds(c.tunnels), id);
    if at.Some? {
      OnlyAtRead(after, c.tunnels, at.value, TunnelDefaults(PatchedTunnel(c.tunnels[at.value], p, xid, drawn)));
      if |after| == |c.tunnels| {
        PatchRead(after[at.value], c.tunnels[at.value], p, xid, drawn);
      }
    }
  }

  lemma ConnectionUpdateRead(c: Config, id: string, body: ConnectionValue, after: seq<ConnectionValue>)
    ensures ConnectionReplaced(c, id, body, after) <==> UpdatedConnections(c, id, body) == Some(after)
  {
    var at := IndexOf(ConnectionIds(c.connections), id);
    StandsRead(ConnectionIds(c.connections), id);
    if at.Some? {
      OnlyAtRead(after, c.connections, at.value, ConnectionDefaults(body.(id := id)));
      if |after| == |c.connections| {
        ConnectionRead(after[at.value], id, body);
      }
    }
  }

  lemma ConnectionPatchedRead(c: Config, id: string, p: ConnectionPatch, after: seq<ConnectionValue>)
    ensures ConnectionPatched(c, id, p, after) <==> PatchedConnections(c, id, p) == Some(after)
  {
    var at := IndexOf(ConnectionIds(c.connections), id);
    StandsRead(ConnectionIds(c.connections), id);
    if at.Some? {
      OnlyAtRead(after, c.connections, at.value, ConnectionDefaults(PatchedConnection(c.connections[at.value], p)));
      if |after| == |c.connections| {
        ConnectionPatchRead(after[at.value], c.connections[at.value], p);
      }
    }
  }

  lemma DeletionsRead(c: Config, id: string, ts: seq<TunnelValue>, cs: seq<ConnectionValue>)
    ensures TunnelRemoved(c, id, ts) <==> TunnelsWithout(c, id) == Some(ts)
    ensures ConnectionRemoved(c, id, cs) <==> ConnectionsWithout(c, id) == Some(cs)
  {
    StandsRead(TunnelIds(c.tunnels), id);
    StandsRead(ConnectionIds(c.connections), id);
    var t, k := IndexOf(TunnelIds(c.tunnels), id), IndexOf(ConnectionIds(c.connections), id);
    if t.Some? {
      OneLessRead(ts, c.tunnels, t.value);
    }
    if k.Some? {
      OneLessRead(cs, c.connections, k.value);
    }
  }

  lemma CandidatesOfThePresent(s: State, r: Request, env: Env)
    ensures Candidate(s, r, env).Some? <==> Present(s.config, r)
  {
  }

  lemma CreateTunnelRead(s: State, r: Request, env: Env, after: seq<TunnelValue>)
    requires r.CreateTunnel?
    ensures TunnelsMeant(s.config, r, env.xid, s.drawn, after) <==> TunnelsAfter(s, r, env) == Some(after)
  {
    NewTunnelRead(s, r.tunnel, env, after);
  }

  lemma UpdateTunnelRead(s: State, r: Request, env: Env, after: seq<TunnelValue>)
    requires r.UpdateTunnel?
    ensures TunnelsMeant(s.config, r, env.xid, s.drawn, after) <==> TunnelsAfter(s, r, env) == Some(after)
  {
    TunnelUpdateRead(s.config, r.id, r.tunnel, env.xid, s.drawn, after);
  }

  lemma PatchTunnelRead(s: State, r: Request, env: Env, after: seq<TunnelValue>)
    requires r.PatchTunnel?
    ensures TunnelsMeant(s.config, r, env.xid, s.drawn, after) <==> TunnelsAfter(s, r, env) == Some(after)
  {
    TunnelPatchRead(s.config, r.id, r.tunnelPatch, env.xid, s.drawn, after);
  }

  lemma DeleteTunnelRead(s: State, r: Request, env: Env, after: seq<TunnelValue>)
    requires r.DeleteTunnel?
    ensures TunnelsMeant(s.config, r, env.xid, s.drawn, after) <==> TunnelsAfter(s, r, env) == Some(after)
  {
    DeletionsRead(s.config, r.id, after, []);
  }

  lemma TunnelsMeantRead(s: State, r: Request, env: Env, after: seq<TunnelValue>)
    requires OnTunnels(r)
    ensures TunnelsMeant(s.config, r, env.xid, s.drawn, after) <==> TunnelsAfter(s, r, env) == Some(after)
  {
    if r.CreateTunnel? {
      CreateTunnelRead(s, r, env, after);
    } else if r.UpdateTunnel? {
      UpdateTunnelRead(s, r, env, after);
    } else if r.PatchTunnel? {
      PatchTunnelRead(s, r, env, after);
    } else {
      DeleteTunnelRead(s, r, env, after);
    }
  }

  lemma ConnectionsMeantRead(s: State, r: Request, env: Env, after: seq<ConnectionValue>)
    requires !OnTunnels(r)
    ensures ConnectionsMeant(s.config, r, env.xid, s.drawn, after) <==> ConnectionsAfter(s, r, env) == Some(after)
  {
    match r
    case CreateConnection(conn) => NewConnectionRead(s, conn, env, after);
    case UpdateConnection(id, conn) => ConnectionUpdateRead(s.config, id, conn, after);
    case PatchConnection(id, p) => ConnectionPatchedRead(s.config, id, p, after);
    case DeleteConnection(id) => DeletionsRead(s.config, id, [], after);
  }

  /** A request means one configuration at most. */
  lemma RequestsRead(s: State, r: Request, env: Env, after: Config)
    ensures Means(s.config, r, env.xid, s.drawn, after) <==> Candidate(s, r, env) == Some(after)
  {
    if OnTunnels(r) {
      TunnelsMeantRead(s, r, env, after.tunnels);
    } else {
      ConnectionsMeantRead(s, r, env, after.connections);
    }
  }

  // ---------------------------------------------------------------- what requests do

  /** What the request asks for is a consistent configuration. */
  ghost predicate AsksConsistently(s: State, r: Request, env: Env) {
    exists c :: Means(s.config, r, env.xid, s.drawn, c) && Consistent(c)
  }

  lemma AsksConsistentlyRead(s: State, r: Request, env: Env)
    ensures AsksConsistently(s, r, env) <==> Candidate(s, r, env).Some? && Consistent(Candidate(s, r, env).value)
  {
    if Candidate(s, r, env).Some? {
      RequestsRead(s, r, env, Candidate(s, r, env).value);
    }
    if AsksConsistently(s, r, env) {
      var c :| Means(s.config, r, env.xid, s.drawn, c) && Consistent(c);
      RequestsRead(s, r, env, c);
    }
  }

  function Success(r: Request): Response {
    if r.CreateTunnel? || r.CreateConnection? then Created else if Deletes(r) then NoContent else Done
  }

  /** What an edit does with its candidate. */
  ghost predicate Carried(r: Request, asked: Option<Config>, saveOk: bool, after: State, response: Response) {
    if asked.None? then response == NotFound
    else if !Consistent(asked.value) then response.Invalid?
    else if saveOk then response == Success(r) && after.config == after.disk == asked.value
    else response == InternalError
  }

  lemma ReplacingCarries(s: State, r: Request, i: nat, t: TunnelValue, back: Config, drawn: nat, env: Env, saveOk: bool)
    requires i < |s.config.tunnels| && Sound(env.check) && (r.UpdateTunnel? || r.PatchTunnel?)
    ensures var (after, response) := ReplaceTunnel(s, i, t, back, drawn, env, saveOk);
            Carried(r, Some(WithTunnel(s.config, i, t)), saveOk, after, response)
  {
    assert Asked(WithTunnel(s.config, i, t));
  }

  lemma TunnelCandidates(s: State, id: string, body: TunnelValue, p: TunnelPatch, env: Env, i: nat)
    requires IndexOf(TunnelIds(s.config.tunnels), id) == Some(i)
    ensures var c := s.config;
            && Candidate(s, UpdateTunnel(id, body), env) == Some(WithTunnel(c, i, TunnelDefaults(Named(body, id, env.xid, s.drawn))))
            && Candidate(s, PatchTunnel(id, p), env) ==
               Some(WithTunnel(c, i, TunnelDefaults(PatchedTunnel(c.tunnels[i], p, env.xid, s.drawn))))
  {
  }

  lemma UpdatesAreCarried(s: State, id: string, body: TunnelValue, env: Env, saveOk: bool)
    requires Sound(env.check)
    ensures var (after, response) := UpdateTunnelIn(s, id, body, env, saveOk);
            Carried(UpdateTunnel(id, body), Candidate(s, UpdateTunnel(id, body), env), saveOk, after, response)
  {
    var at := IndexOf(TunnelIds(s.config.tunnels), id);
    if at.Some? {
      var t := TunnelDefaults(Named(body, id, env.xid, s.drawn));
      TunnelCandidates(s, id, body, TunnelPatch(None, None, None, None, None, None), env, at.value);
      ReplacingCarries(s, UpdateTunnel(id, body), at.value, t, s.config, s.drawn + Blanks(body.mappings), env, saveOk);
    }
  }

  lemma PatchingCarries(s: State, i: nat, id: string, p: TunnelPatch, env: Env, saveOk: bool)
    requires i < |s.config.tunnels| && Sound(env.check)
    ensures var t := TunnelDefaults(PatchedTunnel(s.config.tunnels[i], p, env.xid, s.drawn));
            var (after, response) := PatchAt(s, i, p, env, saveOk);
            Carried(PatchTunnel(id, p), Some(WithTunnel(s.config, i, t)), saveOk, after, response)
  {
    var c := s.config;
    var t := TunnelDefaults(PatchedTunnel(c.tunnels[i], p, env.xid, s.drawn));
    var back := if p.mappings.Some? then c else WithTunnel(c, i, Settled(c.tunnels[i]));
    ReplacingCarries(s, PatchTunnel(id, p), i, t, back, s.drawn + Blanks(Or(p.mappings, [])), env, saveOk);
  }

  lemma PatchesAreCarried(s: State, id: string, p: TunnelPatch, env: Env, saveOk: bool)
    requires Sound(env.check)
    ensures var (after, response) := PatchTunnelIn(s, id, p, env, saveOk);
            Carried(PatchTunnel(id, p), Candidate(s, PatchTunnel(id, p), env), saveOk, after, response)
  {
    var at := IndexOf(TunnelIds(s.config.tunnels), id);
    if at.Some? {
      TunnelCandidates(s, id, s.config.tunnels[at.value], p, env, at.value);
      PatchingCarries(s, at.value, id, p, env, saveOk);
    }
  }

  lemma TunnelEditsAreCarried(s: State, r: Request, env: Env, saveOk: bool)
    requires OnTunnels(r) && !Deletes(r) && Sound(env.check)
    ensures var (after, response) := Handle(s, r, env, saveOk);
            Carried(r, Candidate(s, r, env), saveOk, after, response)
  {
    match r
    case CreateTunnel(t) => assert Asked(Candidate(s, r, env).value);
    case UpdateTunnel(id, t) => UpdatesAreCarried(s, id, t, env, saveOk);
    case PatchTunnel(id, p) => PatchesAreCarried(s, id, p, env, saveOk);
  }

  lemma ConnectionEditsAreCarried(s: State, r: Request, env: Env, saveOk: bool)
    requires !OnTunnels(r) && !Deletes(r) && Sound(env.check)
    ensures var (after, response) := Handle(s, r, env, saveOk);
            Carried(r, Candidate(s, r, env), saveOk, after, response)
  {
    var asked := Candidate(s, r, env);
    assert asked.Some? ==> Asked(asked.value);
  }

  /** What an edit comes to, and what each answer to it says. */
  ghost predicate Effected(s: State, r: Request, env: Env, saveOk: bool, after: State, response: Response) {
    && (response == NotFound <==> !Present(s.config, r))
    && (response.Invalid? <==> Present(s.config, r) && !AsksConsistently(s, r, env))
    && (response == InternalError <==> AsksConsistently(s, r, env) && !saveOk)
    && (response == Success(r) <==> AsksConsistently(s, r, env) && saveOk)
    && (response == Success(r) ==>
          Means(s.config, r, env.xid, s.drawn, after.config) && after.disk == after.config)
  }

  lemma CarriedIsEffected(s: State, r: Request, env: Env, saveOk: bool, after: State, response: Response)
    requires !Deletes(r) && Carried(r, Candidate(s, r, env), saveOk, after, response)
    ensures Effected(s, r, env, saveOk, after, response)
  {
    RequestsRead(s, r, env, after.config);
    CandidatesOfThePresent(s, r, env);
    AsksConsistentlyRead(s, r, env);
  }

  /**
   Every create, update and patch: it is accepted exactly when what it is about is
   there, what it asks for is consistent, and the disk takes it; then just what it
   asks for is in memory and on disk. The other answers say which of these failed.
   */
  lemma EditsTakeEffect(s: State, r: Request, env: Env, saveOk: bool)
    requires !Deletes(r) && Sound(env.check)
    ensures var (after, response) := Handle(s, r, env, saveOk);
            Effected(s, r, env, saveOk, after, response)
  {
    if OnTunnels(r) {
      TunnelEditsAreCarried(s, r, env, saveOk);
    } else {
      ConnectionEditsAreCarried(s, r, env, saveOk);
    }
    var (after, response) := Handle(s, r, env, saveOk);
    CarriedIsEffected(s, r, env, saveOk, after, response);
  }

  // ---------------------------------------------------------------- deletions

  /** These are the tunnels whose chain goes through a connection, in order. */
  ghost predicate AreUsers(users: seq<nat>, ts: seq<TunnelValue>, id: string) {
    && (forall k :: 0 <= k < |users| ==> users[k] < |ts| && id in ts[users[k]].chain)
    && (forall k, l :: 0 <= k < l < |users| ==> users[k] < users[l])
    && (forall i: nat :: i < |ts| && id in ts[i].chain ==> i in users)
  }

  ghost predicate AreNames(names: seq<string>, users: seq<nat>, ts: seq<TunnelValue>) {
    |names| == |users| && forall k :: 0 <= k < |users| ==> users[k] < |ts| && names[k] == ts[users[k]].name
  }

  /** And these their names. */
  ghost predicate NamesOfUsers(names: seq<string>, ts: seq<TunnelValue>, id: string) {
    exists users: seq<nat> :: AreUsers(users, ts, id) && AreNames(names, users, ts)
  }

  lemma AllUsersOneMore(users: seq<nat>, ts: seq<TunnelValue>, n: nat, id: string)
    requires |ts| == n + 1 && forall i: nat :: i < n && id in ts[..n][i].chain ==> i in users
    ensures forall i: nat :: i < |ts| && id in ts[i].chain ==> i in (if id in ts[n].chain then users + [n] else users)
  {
    var more := if id in ts[n].chain then users + [n] else users;
    forall i: nat | i < |ts| && id in ts[i].chain ensures i in more {
      if i < n {
        assert id in ts[..n][i].chain;
      } else {
        assert more[|users|] == n;
      }
    }
  }

  lemma LaterUser(users: seq<nat>, n: nat)
    requires forall k :: 0 <= k < |users| ==> users[k] < n
    requires forall k, l :: 0 <= k < l < |users| ==> users[k] < users[l]
    ensures var more := users + [n]; forall k, l :: 0 <= k < l < |more| ==> more[k] < more[l]
  {
  }

  lemma UserAdded(users: seq<nat>, ts: seq<TunnelValue>, n: nat, id: string)
    requires |ts| == n + 1 && AreUsers(users, ts[..n], id) && id in ts[n].chain
    ensures AreUsers(users + [n], ts, id)
  {
    LaterUser(users, n);
    AllUsersOneMore(users, ts, n, id);
  }

  lemma NoUserAdded(users: seq<nat>, ts: seq<TunnelValue>, n: nat, id: string)
    requires |ts| == n + 1 && AreUsers(users, ts[..n], id) && id !in ts[n].chain
    ensures AreUsers(users, ts, id)
  {
    AllUsersOneMore(users, ts, n, id);
  }

  lemma NamesOneMore(names: seq<string>, users: seq<nat>, ts: seq<TunnelValue>, n: nat)
    requires |ts| == n + 1 && AreNames(names, users, ts[..n])
    ensures AreNames(names, users, ts) && AreNames(names + [ts[n].name], users + [n], ts)
  {
  }

  lemma {:induction false} ReferencesAreNames(ts: seq<TunnelValue>, id: string) returns (users: seq<nat>)
    ensures AreUsers(users, ts, id) && AreNames(References(ts, id), users, ts)
    decreases |ts|
  {
    if ts == [] {
      users := [];
    } else {
      var n := |ts| - 1;
      users := ReferencesAreNames(ts[..n], id);
      NamesOneMore(References(ts[..n], id), users, ts, n);
      if id in ts[n].chain {
        UserAdded(users, ts, n, id);
        users := users + [n];
      } else {
        NoUserAdded(users, ts, n, id);
      }
    }
  }

  lemma NoneLeft(ids: seq<string>, i: nat)
    requires DistinctIds(ids) && i < |ids|
    ensures ids[i] !in Without(ids, i)
  {
    forall k | 0 <= k < |ids| - 1 ensures Without(ids, i)[k] != ids[i] {
      assert Without(ids, i)[k] == ids[if k < i then k else k + 1];
    }
  }

  /** The entity is gone, none with its id is left, and nothing else has changed. */
  ghost predicate TunnelGone(c: Config, after: Config, id: string) {
    after == c.(tunnels := after.tunnels) && TunnelRemoved(c, id, after.tunnels) && id !in TunnelIds(after.tunnels)
  }

  ghost predicate ConnectionGone(c: Config, after: Config, id: string) {
    after == c.(connections := after.connections) && ConnectionRemoved(c, id, after.connections) && id !in ConnectionIds(after.connections)
  }

  /** What a deletion that is not refused answers, and leaves on disk. */
  ghost predicate Wrote(s: State, saveOk: bool, after: State, response: Response) {
    response == (if saveOk then NoContent else InternalError) && after.disk == if saveOk then after.config else s.disk
  }

  lemma NoTunnelLeft(ts: seq<TunnelValue>, i: nat)
    requires i < |ts| && DistinctIds(TunnelIds(ts))
    ensures ts[i].id !in TunnelIds(Without(ts, i))
  {
    NoneLeft(TunnelIds(ts), i);
    assert TunnelIds(Without(ts, i)) == Without(TunnelIds(ts), i);
  }

  lemma NoConnectionLeft(cs: seq<ConnectionValue>, i: nat)
    requires i < |cs| && DistinctIds(ConnectionIds(cs))
    ensures cs[i].id !in ConnectionIds(Without(cs, i))
  {
    NoneLeft(ConnectionIds(cs), i);
    assert ConnectionIds(Without(cs, i)) == Without(ConnectionIds(cs), i);
  }

  lemma WithoutTunnelGone(c: Config, i: nat, id: string)
    requires Consistent(c) && IndexOf(TunnelIds(c.tunnels), id) == Some(i)
    ensures TunnelGone(c, WithoutTunnel(c, i), id)
  {
    DeletionsRead(c, id, Without(c.tunnels, i), []);
    NoTunnelLeft(c.tunnels, i);
  }

  lemma WithoutConnectionGone(c: Config, i: nat, id: string)
    requires Consistent(c) && IndexOf(ConnectionIds(c.connections), id) == Some(i)
    ensures ConnectionGone(c, WithoutConnection(c, i), id)
  {
    DeletionsRead(c, id, [], Without(c.connections, i));
    NoConnectionLeft(c.connections, i);
  }

  lemma ConsistentIsWritten(s: State, after: Config, env: Env, saveOk: bool)
    requires Consistent(after) && Sound(env.check)
    ensures var (t, response) := CommitDelete(s, after, Verdict(after, env, saveOk));
            t.config == after && Wrote(s, saveOk, t, response)
  {
    assert Asked(after);
  }

  lemma TunnelDeletionsTakeEffect(s: State, id: string, env: Env, saveOk: bool)
    requires Consistent(s.config) && Sound(env.check)
    ensures var (after, response) := DeleteTunnelIn(s, id, env, saveOk);
            if id !in TunnelIds(s.config.tunnels) then after == s && response == NotFound
            else TunnelGone(s.config, after.config, id) && Wrote(s, saveOk, after, response)
  {
    var at := IndexOf(TunnelIds(s.config.tunnels), id);
    if at.Some? {
      WithoutTunnelGone(s.config, at.value, id);
      WithoutTunnelIsConsistent(s.config, at.value);
      ConsistentIsWritten(s, WithoutTunnel(s.config, at.value), env, saveOk);
    }
  }

  lemma ConnectionDeletionsTakeEffect(s: State, id: string, env: Env, saveOk: bool)
    requires Consistent(s.config) && Sound(env.check)
    ensures var (after, response) := DeleteConnectionIn(s, id, env, saveOk);
            if id !in ConnectionIds(s.config.connections) then after == s && response == NotFound
            else if References(s.config.tunnels, id) != [] then after == s && response == Conflict(References(s.config.tunnels, id))
            else ConnectionGone(s.config, after.config, id) && Wrote(s, saveOk, after, response)
  {
    var at := IndexOf(ConnectionIds(s.config.connections), id);
    if at.Some? && References(s.config.tunnels, id) == [] {
      WithoutConnectionGone(s.config, at.value, id);
      WithoutConnectionIsConsistent(s.config, at.value);
      ConsistentIsWritten(s, WithoutConnection(s.config, at.value), env, saveOk);
    }
  }

  /** Some tunnel goes through the connection to be deleted. */
  ghost predicate InUse(c: Config, r: Request) {
    r.DeleteConnection? && exists i :: 0 <= i < |c.tunnels| && r.id in c.tunnels[i].chain
  }

  /**
   Every deletion in a consistent configuration: it is refused exactly when there is
   nothing to delete, or when tunnels go through the connection, whose names are
   given; otherwise the entity is gone, and nothing else, and from the disk too if
   that takes it.
   */
  lemma DeletionsTakeEffect(s: State, r: Request, env: Env, saveOk: bool)
    requires Deletes(r) && Consistent(s.config) && Sound(env.check)
    ensures var (after, response) := Handle(s, r, env, saveOk);
            if !Present(s.config, r) then after == s && response == NotFound
            else if InUse(s.config, r) then after == s && response.Conflict? && NamesOfUsers(response.names, s.config.tunnels, r.id)
            else
              && (if r.DeleteTunnel? then TunnelGone(s.config, after.config, r.id) else ConnectionGone(s.config, after.config, r.id))
              && Wrote(s, saveOk, after, response)
  {
    if r.DeleteTunnel? {
      TunnelDeletionsTakeEffect(s, r.id, env, saveOk);
    } else {
      ConnectionDeletionsTakeEffect(s, r.id, env, saveOk);
      NoReferences(s.config.tunnels, r.id);
      var users := ReferencesAreNames(s.config.tunnels, r.id);
    }
  }

  // ---------------------------------------------------------------- new ids

  /** How many new ids a request takes: one for what it creates, and one for each mapping that came without. */
  function Taken(c: Config, r: Request): nat {
    match r
    case CreateTunnel(t) => 1 + Unnamed(t.mappings, |t.mappings|)
    case UpdateTunnel(_, t) => Unnamed(t.mappings, |t.mappings|)
    case PatchTunnel(id, p) =>
      if id in TunnelIds(c.tunnels) && p.mappings.Some? then Unnamed(p.mappings.value, |p.mappings.value|) else 0
    case CreateConnection(_) => 1
    case _ => 0
  }

  lemma AllBlanks(ms: seq<MappingValue>)
    ensures Blanks(ms) == Unnamed(ms, |ms|)
  {
    assert ms[..|ms|] == ms;
    UnnamedAreBlanks(ms, |ms|);
  }

  lemma TunnelIdsAreDrawn(s: State, r: Request, env: Env, saveOk: bool)
    requires r.CreateTunnel? || r.UpdateTunnel? || r.DeleteTunnel?
    ensures Handle(s, r, env, saveOk).0.drawn == s.drawn + Taken(s.config, r)
  {
    match r
    case CreateTunnel(t) => AllBlanks(t.mappings);
    case UpdateTunnel(_, t) => AllBlanks(t.mappings);
    case DeleteTunnel(_) =>
  }

  lemma PatchIdsAreDrawn(s: State, id: string, p: TunnelPatch, env: Env, saveOk: bool)
    ensures PatchTunnelIn(s, id, p, env, saveOk).0.drawn == s.drawn + Taken(s.config, PatchTunnel(id, p))
  {
    AllBlanks(Or(p.mappings, []));
  }

  /** So none is ever given twice, whether the request is accepted or not. */
  lemma IdsAreDrawnOnce(s: State, r: Request, env: Env, saveOk: bool)
    ensures Handle(s, r, env, saveOk).0.drawn == s.drawn + Taken(s.config, r)
  {
    if r.PatchTunnel? {
      PatchIdsAreDrawn(s, r.id, r.tunnelPatch, env, saveOk);
    } else if OnTunnels(r) {
      TunnelIdsAreDrawn(s, r, env, saveOk);
    }
  }
}
