/** What the requests that edit the configuration do to it, in memory and on disk. */
module ConfigRequests {
  import opened Prelude
  import opened ConfigModel
  import opened ConfigDefaults
  import opened ConfigValidate
  import opened Engine

  datatype TunnelPatch = TunnelPatch(
    name: Option<string>, notes: Option<string>, mode: Option<string>, chain: Option<seq<string>>,
    mappings: Option<seq<MappingValue>>, policy: Option<Policy>)

  datatype ConnectionPatch = ConnectionPatch(
    name: Option<string>, endpoint: Option<Endpoint>, auth: Option<Auth<Option<KeyValue>>>,
    hostKeyMode: Option<string>, dialTimeoutMs: Option<int>, keepAlive: Option<KeepAlive>)

  datatype Request =
    | CreateTunnel(tunnel: TunnelValue)
    | UpdateTunnel(id: string, tunnel: TunnelValue)
    | PatchTunnel(id: string, tunnelPatch: TunnelPatch)
    | DeleteTunnel(id: string)
    | CreateConnection(connection: ConnectionValue)
    | UpdateConnection(id: string, connection: ConnectionValue)
    | PatchConnection(id: string, connectionPatch: ConnectionPatch)
    | DeleteConnection(id: string)

  datatype Response = Created | Done | NoContent | NotFound | Invalid(problems: seq<Problem>) | Conflict(names: seq<string>) | InternalError

  /** The configuration in memory and on disk, and how many ids have been drawn. */
  datatype State = State(config: Config, disk: Config, drawn: nat)

  /** What the server is given: where new ids come from, and the validator. */
  datatype Env = Env(xid: nat -> string, check: Config -> seq<Problem>)

  /** Names a configuration the validator is asked about, so that proofs can. */
  predicate Asked(c: Config) { true }

  /** The validator is silent exactly on consistent configurations. */
  ghost predicate Sound(check: Config -> seq<Problem>) {
    forall c {:trigger Asked(c)} :: Asked(c) ==> (check(c) == [] <==> Consistent(c))
  }

  lemma TheValidatorIsSound()
    ensures Sound(Problems)
  {
    forall c | Asked(c) ensures Problems(c) == [] <==> Consistent(c) {
      NoProblemsMeansConsistent(c);
    }
  }

  function Or<T>(o: Option<T>, x: T): T {
    if o.Some? then o.value else x
  }

  // ---------------------------------------------------------------- ids

  function Blanks(ms: seq<MappingValue>): nat {
    if ms == [] then 0 else Blanks(ms[..|ms| - 1]) + (if ms[|ms| - 1].id == "" then 1 else 0)
  }

  /** Mappings without an id get the next ones drawn, in order. */
  function Identified(ms: seq<MappingValue>, xid: nat -> string, drawn: nat): (r: seq<MappingValue>)
    ensures |r| == |ms|
  {
    seq(|ms|, i requires 0 <= i < |ms| => IdentifiedAt(ms, xid, drawn, i))
  }

  function IdentifiedAt(ms: seq<MappingValue>, xid: nat -> string, drawn: nat, i: nat): MappingValue
    requires i < |ms|
  {
    if ms[i].id == "" then ms[i].(id := xid(drawn + Blanks(ms[..i]))) else ms[i]
  }

  // ---------------------------------------------------------------- edits

  /** A body that came with a request, under an id and with all its mappings identified. */
  function Named(body: TunnelValue, id: string, xid: nat -> string, drawn: nat): TunnelValue {
    Tunnel(id, body.name, body.notes, body.mode, body.chain, Identified(body.mappings, xid, drawn), body.policy)
  }

  function WithNewConnection(c: Config, conn: ConnectionValue): Config {
    c.(connections := c.connections + [conn])
  }

  function WithNewTunnel(c: Config, t: TunnelValue): Config {
    c.(tunnels := c.tunnels + [t])
  }

  function PatchedTunnel(t: TunnelValue, p: TunnelPatch, xid: nat -> string, drawn: nat): TunnelValue {
    Tunnel(
      t.id, Or(p.name, t.name), Or(p.notes, t.notes), Or(p.mode, t.mode), Or(p.chain, t.chain),
      if p.mappings.Some? then Identified(p.mappings.value, xid, drawn) else t.mappings,
      Or(p.policy, t.policy))
  }

  function PatchedConnection(c: ConnectionValue, p: ConnectionPatch): ConnectionValue {
    Connection(
      c.id, Or(p.name, c.name), Or(p.endpoint, c.endpoint), Or(p.auth, c.auth),
      Or(p.hostKeyMode, c.hostKeyMode), Or(p.dialTimeoutMs, c.dialTimeoutMs), Or(p.keepAlive, c.keepAlive))
  }

  function WithTunnel(c: Config, i: nat, t: TunnelValue): Config
    requires i < |c.tunnels|
  {
    c.(tunnels := c.tunnels[i := t])
  }

  function WithConnection(c: Config, i: nat, conn: ConnectionValue): Config
    requires i < |c.connections|
  {
    c.(connections := c.connections[i := conn])
  }

  function Without<T>(s: seq<T>, i: nat): seq<T>
    requires i < |s|
  {
    s[..i] + s[i + 1..]
  }

  function WithoutTunnel(c: Config, i: nat): Config
    requires i < |c.tunnels|
  {
    c.(tunnels := Without(c.tunnels, i))
  }

  function WithoutConnection(c: Config, i: nat): Config
    requires i < |c.connections|
  {
    c.(connections := Without(c.connections, i))
  }

  /** A tunnel whose mappings have been through the defaults, and nothing else. */
  function Settled(t: TunnelValue): TunnelValue {
    t.(mappings := MappingsDefaults(t.mappings))
  }

  // ---------------------------------------------------------------- requests

  datatype Saved = Kept | Rejected(problems: seq<Problem>) | Failed

  /** saveConfig: what is inconsistent is not written. */
  function Verdict(c: Config, env: Env, saveOk: bool): Saved {
    if env.check(c) != [] then Rejected(env.check(c)) else if saveOk then Kept else Failed
  }

  /** After an edit: the candidate stays, and is on disk, when it was kept; otherwise it is taken back to `back`. */
  function Commit(s: State, candidate: Config, back: Config, drawn: nat, v: Saved, ok: Response): (State, Response) {
    match v
    case Kept => (State(candidate, candidate, drawn), ok)
    case Rejected(problems) => (State(back, s.disk, drawn), Invalid(problems))
    case Failed => (State(back, s.disk, drawn), InternalError)
  }

  /** Deleting does not go back: an inconsistent remainder is not written, and nobody is told. */
  function CommitDelete(s: State, candidate: Config, v: Saved): (State, Response) {
    (State(candidate, if v.Kept? then candidate else s.disk, s.drawn), if v.Failed? then InternalError else NoContent)
  }

  function AppendTunnel(s: State, t: TunnelValue, drawn: nat, env: Env, saveOk: bool): (State, Response) {
    var candidate := WithNewTunnel(s.config, t);
    Commit(s, candidate, s.config, drawn, Verdict(candidate, env, saveOk), Created)
  }

  function ReplaceTunnel(s: State, i: nat, t: TunnelValue, back: Config, drawn: nat, env: Env, saveOk: bool): (State, Response)
    requires i < |s.config.tunnels|
  {
    var candidate := WithTunnel(s.config, i, t);
    Commit(s, candidate, back, drawn, Verdict(candidate, env, saveOk), Done)
  }

  function AppendConnection(s: State, conn: ConnectionValue, drawn: nat, env: Env, saveOk: bool): (State, Response) {
    var candidate := WithNewConnection(s.config, conn);
    Commit(s, candidate, s.config, drawn, Verdict(candidate, env, saveOk), Created)
  }

  function ReplaceConnection(s: State, i: nat, conn: ConnectionValue, env: Env, saveOk: bool): (State, Response)
    requires i < |s.config.connections|
  {
    var candidate := WithConnection(s.config, i, conn);
    Commit(s, candidate, s.config, s.drawn, Verdict(candidate, env, saveOk), Done)
  }

  function RemoveTunnel(s: State, i: nat, env: Env, saveOk: bool): (State, Response)
    requires i < |s.config.tunnels|
  {
    var candidate := WithoutTunnel(s.config, i);
    CommitDelete(s, candidate, Verdict(candidate, env, saveOk))
  }

  function RemoveConnection(s: State, i: nat, env: Env, saveOk: bool): (State, Response)
    requires i < |s.config.connections|
  {
    var candidate := WithoutConnection(s.config, i);
    CommitDelete(s, candidate, Verdict(candidate, env, saveOk))
  }

  function CreateTunnelIn(s: State, body: TunnelValue, env: Env, saveOk: bool): (State, Response) {
    var t := TunnelDefaults(Named(body, env.xid(s.drawn), env.xid, s.drawn + 1));
    AppendTunnel(s, t, s.drawn + 1 + Blanks(body.mappings), env, saveOk)
  }

  function UpdateTunnelIn(s: State, id: string, body: TunnelValue, env: Env, saveOk: bool): (State, Response) {
    var drawn := s.drawn + Blanks(body.mappings);
    match IndexOf(TunnelIds(s.config.tunnels), id)
    case None => (s.(drawn := drawn), NotFound)
    case Some(i) => ReplaceTunnel(s, i, TunnelDefaults(Named(body, id, env.xid, s.drawn)), s.config, drawn, env, saveOk)
  }

  function PatchTunnelIn(s: State, id: string, p: TunnelPatch, env: Env, saveOk: bool): (State, Response) {
    match IndexOf(TunnelIds(s.config.tunnels), id)
    case None => (s, NotFound)
    case Some(i) => PatchAt(s, i, p, env, saveOk)
  }

  function PatchAt(s: State, i: nat, p: TunnelPatch, env: Env, saveOk: bool): (State, Response)
    requires i < |s.config.tunnels|
  {
    var c := s.config;
    var t := TunnelDefaults(PatchedTunnel(c.tunnels[i], p, env.xid, s.drawn));
    var back := if p.mappings.Some? then c else WithTunnel(c, i, Settled(c.tunnels[i]));
    ReplaceTunnel(s, i, t, back, s.drawn + Blanks(Or(p.mappings, [])), env, saveOk)
  }

  function DeleteTunnelIn(s: State, id: string, env: Env, saveOk: bool): (State, Response) {
    var c := s.config;
    match IndexOf(TunnelIds(c.tunnels), id)
    case None => (s, NotFound)
    case Some(i) => RemoveTunnel(s, i, env, saveOk)
  }

  function CreateConnectionIn(s: State, body: ConnectionValue, env: Env, saveOk: bool): (State, Response) {
    AppendConnection(s, ConnectionDefaults(body.(id := env.xid(s.drawn))), s.drawn + 1, env, saveOk)
  }

  function UpdateConnectionIn(s: State, id: string, body: ConnectionValue, env: Env, saveOk: bool): (State, Response) {
    var c := s.config;
    match IndexOf(ConnectionIds(c.connections), id)
    case None => (s, NotFound)
    case Some(i) => ReplaceConnection(s, i, ConnectionDefaults(body.(id := id)), env, saveOk)
  }

  function PatchConnectionIn(s: State, id: string, p: ConnectionPatch, env: Env, saveOk: bool): (State, Response) {
    var c := s.config;
    match IndexOf(ConnectionIds(c.connections), id)
    case None => (s, NotFound)
    case Some(i) => ReplaceConnection(s, i, ConnectionDefaults(PatchedConnection(c.connections[i], p)), env, saveOk)
  }

  function DeleteConnectionIn(s: State, id: string, env: Env, saveOk: bool): (State, Response) {
    var c := s.config;
    match IndexOf(ConnectionIds(c.connections), id)
    case None => (s, NotFound)
    case Some(i) =>
      var names := References(c.tunnels, id);
      if names != [] then (s, Conflict(names))
      else RemoveConnection(s, i, env, saveOk)
  }

  function Handle(s: State, r: Request, env: Env, saveOk: bool): (State, Response) {
    match r
    case CreateTunnel(t) => CreateTunnelIn(s, t, env, saveOk)
    case UpdateTunnel(id, t) => UpdateTunnelIn(s, id, t, env, saveOk)
    case PatchTunnel(id, p) => PatchTunnelIn(s, id, p, env, saveOk)
    case DeleteTunnel(id) => DeleteTunnelIn(s, id, env, saveOk)
    case CreateConnection(c) => CreateConnectionIn(s, c, env, saveOk)
    case UpdateConnection(id, c) => UpdateConnectionIn(s, id, c, env, saveOk)
    case PatchConnection(id, p) => PatchConnectionIn(s, id, p, env, saveOk)
    case DeleteConnection(id) => DeleteConnectionIn(s, id, env, saveOk)
  }

  /** A request and whether the disk would take a write at its time. */
  datatype Event = Event(request: Request, saveOk: bool)

  function Stepper(env: Env): (State, Event) -> State {
    (s: State, e: Event) => Handle(s, e.request, env, e.saveOk).0
  }

  function Folded(step: (State, Event) -> State, s: State, es: seq<Event>): State {
    if es == [] then s else step(Folded(step, s, es[..|es| - 1]), es[|es| - 1])
  }

  /** The state after a sequence of requests. */
  function Run(s: State, es: seq<Event>, env: Env): State {
    Folded(Stepper(env), s, es)
  }

  lemma {:induction false} FoldedKeeps(step: (State, Event) -> State, inv: State -> bool, allowed: Event -> bool, s: State, es: seq<Event>)
    requires inv(s)
    requires forall s, e :: inv(s) && allowed(e) ==> inv(step(s, e))
    requires forall i :: 0 <= i < |es| ==> allowed(es[i])
    ensures inv(Folded(step, s, es))
  {
    if es != [] {
      FoldedKeeps(step, inv, allowed, s, es[..|es| - 1]);
    }
  }

  // ---------------------------------------------------------------- what every request keeps

  lemma WithoutTunnelIsConsistent(c: Config, i: nat)
    requires Consistent(c) && i < |c.tunnels|
    ensures Consistent(WithoutTunnel(c, i))
  {
    var ts := Without(c.tunnels, i);
    forall k | 0 <= k < |ts| ensures ts[k] == c.tunnels[if k < i then k else k + 1] {
    }
    WithoutStaysDistinct(TunnelIds(c.tunnels), TunnelIds(ts), i);
  }

  lemma WithoutConnectionIsConsistent(c: Config, i: nat)
    requires Consistent(c) && i < |c.connections|
    requires References(c.tunnels, c.connections[i].id) == []
    ensures Consistent(WithoutConnection(c, i))
  {
    var cs := Without(c.connections, i);
    forall k | 0 <= k < |cs| ensures cs[k] == c.connections[if k < i then k else k + 1] {
    }
    var ids, known := ConnectionIds(cs), ConnectionIds(c.connections);
    WithoutStaysDistinct(known, ids, i);
    NoReferences(c.tunnels, c.connections[i].id);
    forall t | 0 <= t < |c.tunnels| ensures TunnelOk(c.tunnels[t], ids) {
      StillKnown(c.tunnels[t].chain, known, ids, i);
    }
  }

  lemma WithoutStaysDistinct(ids: seq<string>, left: seq<string>, i: nat)
    requires DistinctIds(ids) && i < |ids| && |left| == |ids| - 1
    requires forall k :: 0 <= k < |left| ==> left[k] == ids[if k < i then k else k + 1]
    ensures DistinctIds(left)
  {
    forall j, k | 0 <= j < k < |left| ensures left[j] != left[k] {
      assert ids[if j < i then j else j + 1] != ids[if k < i then k else k + 1];
    }
    forall k | 0 <= k < |left| ensures left[k] != "" {
      assert ids[if k < i then k else k + 1] != "";
    }
  }

  lemma StillKnown(chain: seq<string>, known: seq<string>, left: seq<string>, i: nat)
    requires i < |known| && |left| == |known| - 1 && known[i] !in chain
    requires forall k :: 0 <= k < |left| ==> left[k] == known[if k < i then k else k + 1]
    requires forall k :: 0 <= k < |chain| ==> chain[k] in known
    ensures forall k :: 0 <= k < |chain| ==> chain[k] in left
  {
    forall k | 0 <= k < |chain| ensures chain[k] in left {
      var at :| 0 <= at < |known| && known[at] == chain[k];
      assert at != i;
      assert left[if at < i then at else at - 1] == chain[k];
    }
  }

  /** What the defaults fill in of a mapping is not what the validator looks at. */
  lemma SettlingStaysConsistent(c: Config, i: nat)
    requires Consistent(c) && i < |c.tunnels|
    ensures Consistent(WithTunnel(c, i, Settled(c.tunnels[i])))
  {
    var t := c.tunnels[i];
    var c' := WithTunnel(c, i, Settled(t));
    assert MappingIds(Settled(t).mappings) == MappingIds(t.mappings);
    assert TunnelOk(Settled(t), ConnectionIds(c.connections)) by {
      forall k | 0 <= k < |t.mappings| ensures MappingOk(Settled(t).mappings[k], t.mode) {
        assert MappingOk(t.mappings[k], t.mode);
      }
    }
    assert TunnelIds(c'.tunnels) == TunnelIds(c.tunnels);
  }

  lemma AppendTunnelKeepsConsistent(s: State, t: TunnelValue, drawn: nat, env: Env, saveOk: bool)
    requires Consistent(s.config) && Sound(env.check)
    ensures Consistent(AppendTunnel(s, t, drawn, env, saveOk).0.config)
  {
    assert Asked(WithNewTunnel(s.config, t));
  }

  lemma ReplaceTunnelKeepsConsistent(s: State, i: nat, t: TunnelValue, back: Config, drawn: nat, env: Env, saveOk: bool)
    requires Consistent(back) && Sound(env.check) && i < |s.config.tunnels|
    ensures Consistent(ReplaceTunnel(s, i, t, back, drawn, env, saveOk).0.config)
  {
    assert Asked(WithTunnel(s.config, i, t));
  }

  lemma AppendConnectionKeepsConsistent(s: State, conn: ConnectionValue, drawn: nat, env: Env, saveOk: bool)
    requires Consistent(s.config) && Sound(env.check)
    ensures Consistent(AppendConnection(s, conn, drawn, env, saveOk).0.config)
  {
    assert Asked(WithNewConnection(s.config, conn));
  }

  lemma ReplaceConnectionKeepsConsistent(s: State, i: nat, conn: ConnectionValue, env: Env, saveOk: bool)
    requires Consistent(s.config) && Sound(env.check) && i < |s.config.connections|
    ensures Consistent(ReplaceConnection(s, i, conn, env, saveOk).0.config)
  {
    assert Asked(WithConnection(s.config, i, conn));
  }

  /** From a consistent configuration every request leads to one again, whatever the disk does. */
  lemma RequestKeepsConsistent(s: State, r: Request, env: Env, saveOk: bool)
    requires Consistent(s.config) && Sound(env.check)
    ensures Consistent(Handle(s, r, env, saveOk).0.config)
  {
    if OnTunnels(r) {
      TunnelRequestKeepsConsistent(s, r, env, saveOk);
    } else {
      ConnectionRequestKeepsConsistent(s, r, env, saveOk);
    }
  }

  predicate OnTunnels(r: Request) {
    r.CreateTunnel? || r.UpdateTunnel? || r.PatchTunnel? || r.DeleteTunnel?
  }

  lemma TunnelRequestKeepsConsistent(s: State, r: Request, env: Env, saveOk: bool)
    requires OnTunnels(r) && Consistent(s.config) && Sound(env.check)
    ensures Consistent(Handle(s, r, env, saveOk).0.config)
  {
    match r
    case CreateTunnel(t) => CreateTunnelKeepsConsistent(s, t, env, saveOk);
    case UpdateTunnel(id, t) => UpdateTunnelKeepsConsistent(s, id, t, env, saveOk);
    case PatchTunnel(id, p) => PatchTunnelKeepsConsistent(s, id, p, env, saveOk);
    case DeleteTunnel(id) => DeleteTunnelKeepsConsistent(s, id, env, saveOk);
  }

  lemma CreateTunnelKeepsConsistent(s: State, body: TunnelValue, env: Env, saveOk: bool)
    requires Consistent(s.config) && Sound(env.check)
    ensures Consistent(CreateTunnelIn(s, body, env, saveOk).0.config)
  {
    var t := TunnelDefaults(Named(body, env.xid(s.drawn), env.xid, s.drawn + 1));
    AppendTunnelKeepsConsistent(s, t, s.drawn + 1 + Blanks(body.mappings), env, saveOk);
  }

  lemma UpdateTunnelKeepsConsistent(s: State, id: string, body: TunnelValue, env: Env, saveOk: bool)
    requires Consistent(s.config) && Sound(env.check)
    ensures Consistent(UpdateTunnelIn(s, id, body, env, saveOk).0.config)
  {
    var at := IndexOf(TunnelIds(s.config.tunnels), id);
    if at.Some? {
      var t := TunnelDefaults(Named(body, id, env.xid, s.drawn));
      ReplaceTunnelKeepsConsistent(s, at.value, t, s.config, s.drawn + Blanks(body.mappings), env, saveOk);
    }
  }

  lemma PatchTunnelKeepsConsistent(s: State, id: string, p: TunnelPatch, env: Env, saveOk: bool)
    requires Consistent(s.config) && Sound(env.check)
    ensures Consistent(PatchTunnelIn(s, id, p, env, saveOk).0.config)
  {
    var c, at := s.config, IndexOf(TunnelIds(s.config.tunnels), id);
    if at.Some? {
      var i := at.value;
      var t := TunnelDefaults(PatchedTunnel(c.tunnels[i], p, env.xid, s.drawn));
      var back := if p.mappings.Some? then c else WithTunnel(c, i, Settled(c.tunnels[i]));
      SettlingStaysConsistent(c, i);
      ReplaceTunnelKeepsConsistent(s, i, t, back, s.drawn + Blanks(Or(p.mappings, [])), env, saveOk);
    }
  }

  lemma DeleteTunnelKeepsConsistent(s: State, id: string, env: Env, saveOk: bool)
    requires Consistent(s.config)
    ensures Consistent(DeleteTunnelIn(s, id, env, saveOk).0.config)
  {
    var at := IndexOf(TunnelIds(s.config.tunnels), id);
    if at.Some? {
      WithoutTunnelIsConsistent(s.config, at.value);
    }
  }

  /** A connection goes only when no chain refers to it. */
  lemma ConnectionRequestKeepsConsistent(s: State, r: Request, env: Env, saveOk: bool)
    requires !OnTunnels(r) && Consistent(s.config) && Sound(env.check)
    ensures Consistent(Handle(s, r, env, saveOk).0.config)
  {
    var c, at := s.config, if r.CreateConnection? then None else IndexOf(ConnectionIds(s.config.connections), r.id);
    if r.CreateConnection? {
      AppendConnectionKeepsConsistent(s, ConnectionDefaults(r.connection.(id := env.xid(s.drawn))), s.drawn + 1, env, saveOk);
    } else if at.None? {
    } else if r.UpdateConnection? {
      ReplaceConnectionKeepsConsistent(s, at.value, ConnectionDefaults(r.connection.(id := r.id)), env, saveOk);
    } else if r.PatchConnection? {
      var conn := ConnectionDefaults(PatchedConnection(c.connections[at.value], r.connectionPatch));
      ReplaceConnectionKeepsConsistent(s, at.value, conn, env, saveOk);
    } else if References(c.tunnels, r.id) == [] {
      WithoutConnectionIsConsistent(c, at.value);
    }
  }

  /** Whatever is requested, and whether or not the disk plays along, the configuration stays consistent. */
  lemma EveryRunStaysConsistent(s: State, es: seq<Event>, env: Env)
    requires Consistent(s.config) && Sound(env.check)
    ensures Consistent(Run(s, es, env).config)
  {
    var step, inv := Stepper(env), (s: State) => Consistent(s.config);
    forall s, e | inv(s) ensures inv(step(s, e)) {
      RequestKeepsConsistent(s, e.request, env, e.saveOk);
    }
    FoldedKeeps(step, inv, e => true, s, es);
  }

  /** And so at any time every tunnel's chain resolves, to connections with the chain's ids. */
  lemma EveryTunnelResolves(s: State, es: seq<Event>, env: Env, i: nat)
    requires Consistent(s.config) && Sound(env.check) && i < |Run(s, es, env).config.tunnels|
    ensures var c := Run(s, es, env).config;
            var chain := c.tunnels[i].chain;
            && (forall id :: !FirstUnknown(chain, c.connections, id))
            && (exists conns :: Resolves(chain, c.connections, conns))
            && (forall conns :: Resolves(chain, c.connections, conns) ==> ConnectionIds(conns) == chain)
  {
    EveryRunStaysConsistent(s, es, env);
    ChainsResolve(Run(s, es, env).config, i);
  }

  // ---------------------------------------------------------------- defaults stay filled in

  /** Every tunnel and every connection is as the predicates say. */
  ghost predicate All(c: Config, tp: TunnelValue -> bool, cp: ConnectionValue -> bool) {
    && (forall i :: 0 <= i < |c.tunnels| ==> tp(c.tunnels[i]))
    && (forall i :: 0 <= i < |c.connections| ==> cp(c.connections[i]))
  }

  /** Predicates that the defaults establish, and that filling in mappings does not destroy. */
  ghost predicate ComeWithDefaults(tp: TunnelValue -> bool, cp: ConnectionValue -> bool) {
    && (forall t :: tp(TunnelDefaults(t)))
    && (forall t :: tp(t) ==> tp(Settled(t)))
    && (forall conn :: cp(ConnectionDefaults(conn)))
  }

  lemma PatchKeepsAll(s: State, i: nat, p: TunnelPatch, env: Env, saveOk: bool, tp: TunnelValue -> bool, cp: ConnectionValue -> bool)
    requires i < |s.config.tunnels| && All(s.config, tp, cp) && ComeWithDefaults(tp, cp)
    ensures All(PatchAt(s, i, p, env, saveOk).0.config, tp, cp)
    ensures PatchAt(s, i, p, env, saveOk).0.config.settings == s.config.settings
  {
  }

  lemma TunnelRequestKeepsAll(s: State, r: Request, env: Env, saveOk: bool, tp: TunnelValue -> bool, cp: ConnectionValue -> bool)
    requires OnTunnels(r) && All(s.config, tp, cp) && ComeWithDefaults(tp, cp)
    ensures All(Handle(s, r, env, saveOk).0.config, tp, cp)
    ensures Handle(s, r, env, saveOk).0.config.settings == s.config.settings
  {
    if r.PatchTunnel? {
      var at := IndexOf(TunnelIds(s.config.tunnels), r.id);
      if at.Some? {
        PatchKeepsAll(s, at.value, r.tunnelPatch, env, saveOk, tp, cp);
      }
    }
  }

  lemma ConnectionRequestKeepsAll(s: State, r: Request, env: Env, saveOk: bool, tp: TunnelValue -> bool, cp: ConnectionValue -> bool)
    requires !OnTunnels(r) && All(s.config, tp, cp) && ComeWithDefaults(tp, cp)
    ensures All(Handle(s, r, env, saveOk).0.config, tp, cp)
    ensures Handle(s, r, env, saveOk).0.config.settings == s.config.settings
  {
  }

  lemma RequestKeepsAll(s: State, r: Request, env: Env, saveOk: bool, tp: TunnelValue -> bool, cp: ConnectionValue -> bool)
    requires All(s.config, tp, cp) && ComeWithDefaults(tp, cp)
    ensures All(Handle(s, r, env, saveOk).0.config, tp, cp)
    ensures Handle(s, r, env, saveOk).0.config.settings == s.config.settings
  {
    if OnTunnels(r) {
      TunnelRequestKeepsAll(s, r, env, saveOk, tp, cp);
    } else {
      ConnectionRequestKeepsAll(s, r, env, saveOk, tp, cp);
    }
  }

  /** No stored mapping lacks its default. */
  ghost predicate Tidy(c: Config) {
    forall i :: 0 <= i < |c.tunnels| ==> MappingsNormal(c.tunnels[i].mappings)
  }

  /** Every request keeps the mappings filled in, and a normal configuration normal. */
  lemma RequestKeepsDefaults(s: State, r: Request, env: Env, saveOk: bool)
    ensures Tidy(s.config) ==> Tidy(Handle(s, r, env, saveOk).0.config)
    ensures Normal(s.config) ==> Normal(Handle(s, r, env, saveOk).0.config)
  {
    forall t: TunnelValue ensures TunnelNormal(TunnelDefaults(t)) && MappingsNormal(Settled(t).mappings) {
      TunnelDefaultsSettle(t);
    }
    if Tidy(s.config) {
      RequestKeepsAll(s, r, env, saveOk, (t: TunnelValue) => MappingsNormal(t.mappings), c => true);
    }
    if Normal(s.config) {
      RequestKeepsAll(s, r, env, saveOk, (t: TunnelValue) => TunnelNormal(t), (c: ConnectionValue) => ConnectionNormal(c));
    }
  }

  lemma EveryRunKeepsDefaults(s: State, es: seq<Event>, env: Env)
    ensures Tidy(s.config) ==> Tidy(Run(s, es, env).config)
    ensures Normal(s.config) ==> Normal(Run(s, es, env).config)
  {
    var step, tidy, normal := Stepper(env), (s: State) => Tidy(s.config), (s: State) => Normal(s.config);
    forall s, e ensures (tidy(s) ==> tidy(step(s, e))) && (normal(s) ==> normal(step(s, e))) {
      RequestKeepsDefaults(s, e.request, env, e.saveOk);
    }
    if Tidy(s.config) {
      FoldedKeeps(step, tidy, e => true, s, es);
    }
    if Normal(s.config) {
      FoldedKeeps(step, normal, e => true, s, es);
    }
  }

  /** What a server starts from: a consistent configuration whose mappings are filled in. */
  ghost predicate Good(c: Config) {
    Consistent(c) && Tidy(c)
  }

  /** A fresh installation is that, and so is every consistent configuration that went through the defaults. */
  lemma StartingPoints(c: Config)
    ensures Good(NewConfig())
    ensures Good(Defaults(c)) <==> Consistent(Defaults(c))
  {
    DefaultsSettle(c);
  }

  // ---------------------------------------------------------------- failures

  predicate Deletes(r: Request) {
    r.DeleteTunnel? || r.DeleteConnection?
  }

  predicate Refused(response: Response) {
    response.Invalid? || response.InternalError? || response.NotFound? || response.Conflict?
  }

  /** The mappings a refused patch writes through: those of the stored tunnel, unless it brings its own. */
  predicate WritesThrough(c: Config, r: Request) {
    && r.PatchTunnel? && r.tunnelPatch.mappings.None?
    && var i := IndexOf(TunnelIds(c.tunnels), r.id);
       i.Some? && !MappingsNormal(c.tunnels[i.value].mappings)
  }

  /**
   A refused create, update or patch leaves the disk alone, and the
   configuration exactly as it was unless it is a patch without mappings of a
   tunnel whose stored mappings lack a default: those are filled in all the same.
   */
  lemma RefusedRequestsChangeNothing(s: State, r: Request, env: Env, saveOk: bool)
    requires !Deletes(r) && Refused(Handle(s, r, env, saveOk).1)
    ensures Handle(s, r, env, saveOk).0.config == s.config <==> !WritesThrough(s.config, r)
    ensures Handle(s, r, env, saveOk).0.disk == s.disk
  {
    if r.PatchTunnel? {
      RefusedPatch(s, r.id, r.tunnelPatch, env, saveOk);
    }
  }

  lemma SettlingShows(c: Config, i: nat)
    requires i < |c.tunnels|
    ensures WithTunnel(c, i, Settled(c.tunnels[i])) == c <==> MappingsNormal(c.tunnels[i].mappings)
  {
    var t := c.tunnels[i];
    MappingsDefaultsSettle(t.mappings);
    assert WithTunnel(c, i, Settled(t)).tunnels[i] == Settled(t);
    assert Settled(t) == t ==> WithTunnel(c, i, Settled(t)).tunnels == c.tunnels;
  }

  lemma RefusedPatch(s: State, id: string, p: TunnelPatch, env: Env, saveOk: bool)
    requires Refused(PatchTunnelIn(s, id, p, env, saveOk).1)
    ensures PatchTunnelIn(s, id, p, env, saveOk).0.config == s.config <==> !WritesThrough(s.config, PatchTunnel(id, p))
    ensures PatchTunnelIn(s, id, p, env, saveOk).0.disk == s.disk
  {
    var at := IndexOf(TunnelIds(s.config.tunnels), id);
    if at.Some? {
      SettlingShows(s.config, at.value);
    }
  }

  /** Where no stored mapping lacks its default, a refusal changes nothing at all. */
  lemma TidyConfigurationsRollBack(s: State, r: Request, env: Env, saveOk: bool)
    requires Tidy(s.config) && !Deletes(r) && Refused(Handle(s, r, env, saveOk).1)
    ensures Handle(s, r, env, saveOk).0.config == s.config && Handle(s, r, env, saveOk).0.disk == s.disk
  {
    RefusedRequestsChangeNothing(s, r, env, saveOk);
  }

  lemma AcceptedIsOnDisk(s: State, r: Request, env: Env, saveOk: bool)
    requires !Deletes(r) && !Refused(Handle(s, r, env, saveOk).1)
    ensures Handle(s, r, env, saveOk).0.disk == Handle(s, r, env, saveOk).0.config
  {
  }

  lemma EditsAreNotDeletions(s: State, r: Request, env: Env, saveOk: bool)
    requires Good(s.config) && s.disk == s.config && !Deletes(r)
    ensures Handle(s, r, env, saveOk).0.disk == Handle(s, r, env, saveOk).0.config
  {
    if Refused(Handle(s, r, env, saveOk).1) {
      TidyConfigurationsRollBack(s, r, env, saveOk);
    } else {
      AcceptedIsOnDisk(s, r, env, saveOk);
    }
  }

  /** Memory and disk agree after a request exactly when it was not a deletion the disk did not take. */
  lemma DiskFollowsMemory(s: State, r: Request, env: Env, saveOk: bool)
    requires Good(s.config) && Sound(env.check) && s.disk == s.config
    ensures var (after, response) := Handle(s, r, env, saveOk);
            after.disk == after.config <==> !(Deletes(r) && response.InternalError?)
  {
    if Deletes(r) {
      DeletionsOnDisk(s, r, env, saveOk);
    } else {
      EditsAreNotDeletions(s, r, env, saveOk);
    }
  }

  /** Over a run in which the disk takes every deletion, it ends up with exactly what is in memory. */
  lemma DiskFollowsMemoryThroughout(s: State, es: seq<Event>, env: Env)
    requires Good(s.config) && Sound(env.check) && s.disk == s.config
    requires forall i :: 0 <= i < |es| && Deletes(es[i].request) ==> es[i].saveOk
    ensures Run(s, es, env).disk == Run(s, es, env).config
  {
    var step, inv := Stepper(env), (s: State) => Good(s.config) && s.disk == s.config;
    var allowed := (e: Event) => Deletes(e.request) ==> e.saveOk;
    forall s, e | inv(s) && allowed(e) ensures inv(step(s, e)) {
      RequestKeepsConsistent(s, e.request, env, e.saveOk);
      RequestKeepsDefaults(s, e.request, env, e.saveOk);
      DiskFollowsMemory(s, e.request, env, e.saveOk);
    }
    FoldedKeeps(step, inv, allowed, s, es);
  }

  lemma DeletionsOnDisk(s: State, r: Request, env: Env, saveOk: bool)
    requires Consistent(s.config) && Sound(env.check) && s.disk == s.config && Deletes(r)
    ensures var (after, response) := Handle(s, r, env, saveOk);
            after.disk == after.config <==> !response.InternalError?
  {
    RequestKeepsConsistent(s, r, env, saveOk);
    assert Asked(Handle(s, r, env, saveOk).0.config);
    var c := s.config;
    if r.DeleteTunnel? {
      var at := IndexOf(TunnelIds(c.tunnels), r.id);
      assert at.Some? ==> |Without(c.tunnels, at.value)| < |c.tunnels|;
    } else {
      var at := IndexOf(ConnectionIds(c.connections), r.id);
      assert at.Some? ==> |Without(c.connections, at.value)| < |c.connections|;
    }
  }
}
