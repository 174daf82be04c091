/** What makes a configuration consistent, and the validator that reports what does not. */
module ConfigValidate {
  import opened Prelude
  import opened ConfigModel

  // ---------------------------------------------------------------- consistency, declaratively

  predicate PortOk(port: int) { 1 <= port <= 65535 }

  predicate KeyOk(k: KeyValue) {
    || (k.source == "inline" && k.keyPem != "")
    || (k.source == "file" && k.filePath != "")
  }

  predicate AuthOk(a: Auth<Option<KeyValue>>) {
    || a.kind == "none"
    || (a.kind == "password" && a.username != "" && a.password != "")
    || (a.kind == "privateKey" && a.username != "" && a.privateKey.Some? && KeyOk(a.privateKey.value))
  }

  /** No mode counts as acceptNew. */
  predicate HostKeyModeOk(mode: string) {
    mode == "" || mode == "insecure" || mode == "acceptNew" || mode == "strict"
  }

  predicate ConnectionOk(c: ConnectionValue) {
    && c.name != "" && c.endpoint.host != "" && PortOk(c.endpoint.port)
    && HostKeyModeOk(c.hostKeyMode)
    && AuthOk(c.auth)
  }

  predicate SocksOk(s: SocksValue) {
    s.auth == "none" || (s.auth == "userpass" && s.username != "" && s.password != "")
  }

  predicate MappingOk(m: MappingValue, mode: string) {
    && PortOk(m.listen.port)
    && (mode == "local" || mode == "remote" ==> m.connect.host != "" && PortOk(m.connect.port))
    && (mode == "dynamic" ==> m.socks5.Some? && SocksOk(m.socks5.value))
  }

  predicate PolicyOk(p: Policy) {
    && 0 < p.restartBackoff.minMs <= p.restartBackoff.maxMs && p.restartBackoff.factor >= 1.0
    && p.maxRestartsPerHour > 0
  }

  predicate DistinctIds(ids: seq<string>) {
    && (forall i :: 0 <= i < |ids| ==> ids[i] != "")
    && (forall i, j :: 0 <= i < j < |ids| ==> ids[i] != ids[j])
  }

  predicate ModeOk(mode: string) {
    mode == "local" || mode == "remote" || mode == "dynamic"
  }

  predicate HeadOk(t: TunnelValue, known: seq<string>) {
    && t.name != "" && ModeOk(t.mode)
    && t.chain != [] && (forall i :: 0 <= i < |t.chain| ==> t.chain[i] in known)
  }

  predicate TunnelOk(t: TunnelValue, known: seq<string>) {
    && HeadOk(t, known)
    && t.mappings != [] && DistinctIds(MappingIds(t.mappings))
    && (forall i :: 0 <= i < |t.mappings| ==> MappingOk(t.mappings[i], t.mode))
    && PolicyOk(t.policy)
  }

  /** Ids are unique, every entity is complete, and every chain refers to connections there are. */
  predicate Consistent(c: Config) {
    && DistinctIds(ConnectionIds(c.connections)) && DistinctIds(TunnelIds(c.tunnels))
    && (forall i :: 0 <= i < |c.connections| ==> ConnectionOk(c.connections[i]))
    && (forall i :: 0 <= i < |c.tunnels| ==> TunnelOk(c.tunnels[i], ConnectionIds(c.connections)))
  }

  // ---------------------------------------------------------------- what is reported

  datatype Place = SshConnections(i: nat) | Tunnels(i: nat) | Mappings(tunnel: nat, i: nat)

  datatype Complaint =
    | Empty | NotUnique | NotAPort | NotAllowed | Missing | Unknown(id: string)
    | NotPositive | BelowMin | BelowOne

  datatype Problem = Problem(place: Place, field: string, complaint: Complaint)

  /** The problems so far, and one more unless all is well. */
  function Note(so: seq<Problem>, ok: bool, place: Place, field: string, complaint: Complaint): seq<Problem> {
    if ok then so else so + [Problem(place, field, complaint)]
  }

  /** The id at i must be there, and no earlier one may be the same. */
  function NoteId(so: seq<Problem>, ids: seq<string>, i: nat, p: Place): seq<Problem>
    requires i < |ids|
  {
    if ids[i] == "" then Note(so, false, p, "id", Empty)
    else Note(so, ids[i] !in ids[..i], p, "id", NotUnique)
  }

  function NoteKey(so: seq<Problem>, k: Option<KeyValue>, p: Place): seq<Problem> {
    if k.None? then Note(so, false, p, "auth.privateKey", Missing)
    else if k.value.source == "inline" then Note(so, k.value.keyPem != "", p, "auth.privateKey.keyPem", Empty)
    else if k.value.source == "file" then Note(so, k.value.filePath != "", p, "auth.privateKey.filePath", Empty)
    else Note(so, false, p, "auth.privateKey.source", NotAllowed)
  }

  function NoteAuth(so: seq<Problem>, a: Auth<Option<KeyValue>>, p: Place): seq<Problem> {
    if a.kind == "password" then
      Note(Note(so, a.username != "", p, "auth.username", Empty), a.password != "", p, "auth.password", Empty)
    else if a.kind == "privateKey" then
      NoteKey(Note(so, a.username != "", p, "auth.username", Empty), a.privateKey, p)
    else Note(so, a.kind == "none", p, "auth.type", NotAllowed)
  }

  function ConnectionProblems(c: ConnectionValue, p: Place): seq<Problem> {
    var named := Note([], c.name != "", p, "name", Empty);
    var hosted := Note(named, c.endpoint.host != "", p, "endpoint.host", Empty);
    var ported := Note(hosted, PortOk(c.endpoint.port), p, "endpoint.port", NotAPort);
    NoteAuth(Note(ported, HostKeyModeOk(c.hostKeyMode), p, "hostKeyVerification.mode", NotAllowed), c.auth, p)
  }

  function NoteSocks(so: seq<Problem>, s: Option<SocksValue>, p: Place): seq<Problem> {
    if s.None? then Note(so, false, p, "socks5", Missing)
    else if s.value.auth == "userpass" then
      Note(Note(so, s.value.username != "", p, "socks5.username", Empty), s.value.password != "", p, "socks5.password", Empty)
    else Note(so, s.value.auth == "none", p, "socks5.auth", NotAllowed)
  }

  function MappingProblems(m: MappingValue, mode: string, p: Place): seq<Problem> {
    var listening := Note([], PortOk(m.listen.port), p, "listen.port", NotAPort);
    if mode == "local" || mode == "remote" then
      Note(Note(listening, m.connect.host != "", p, "connect.host", Empty), PortOk(m.connect.port), p, "connect.port", NotAPort)
    else if mode == "dynamic" then NoteSocks(listening, m.socks5, p)
    else listening
  }

  function NoteChain(so: seq<Problem>, chain: seq<string>, known: seq<string>, n: nat, p: Place): seq<Problem>
    requires n <= |chain|
  {
    if n == 0 then so
    else Note(NoteChain(so, chain, known, n - 1, p), chain[n - 1] in known, p, "chain", Unknown(chain[n - 1]))
  }

  function PolicyProblems(policy: Policy, p: Place): seq<Problem> {
    var b := policy.restartBackoff;
    var positive := Note([], b.minMs > 0, p, "policy.restartBackoff.minMs", NotPositive);
    var ordered := Note(positive, b.maxMs >= b.minMs, p, "policy.restartBackoff.maxMs", BelowMin);
    var growing := Note(ordered, b.factor >= 1.0, p, "policy.restartBackoff.factor", BelowOne);
    Note(growing, policy.maxRestartsPerHour > 0, p, "policy.maxRestartsPerHour", NotPositive)
  }

  /** What is wrong with a tunnel before its mappings are looked at. */
  function HeadProblems(t: TunnelValue, known: seq<string>, p: Place): seq<Problem> {
    var named := Note([], t.name != "", p, "name", Empty);
    var moded := Note(named, ModeOk(t.mode), p, "mode", NotAllowed);
    if t.chain == [] then Note(moded, false, p, "chain", Empty)
    else NoteChain(moded, t.chain, known, |t.chain|, p)
  }

  /** Going through entities: each one's id is looked at, then the entity itself. */
  function NoteEach(so: seq<Problem>, ids: seq<string>, place: nat -> Place, of: nat -> seq<Problem>, n: nat): seq<Problem>
    requires n <= |ids|
  {
    if n == 0 then so
    else NoteId(NoteEach(so, ids, place, of, n - 1), ids, n - 1, place(n - 1)) + of(n - 1)
  }

  function OfMappings(t: TunnelValue, at: nat): nat -> seq<Problem> {
    (i: nat) => if i < |t.mappings| then MappingProblems(t.mappings[i], t.mode, Mappings(at, i)) else []
  }

  function OfConnections(cs: seq<ConnectionValue>): nat -> seq<Problem> {
    (i: nat) => if i < |cs| then ConnectionProblems(cs[i], SshConnections(i)) else []
  }

  function OfTunnels(ts: seq<TunnelValue>, known: seq<string>): nat -> seq<Problem> {
    (i: nat) => if i < |ts| then TunnelProblems(ts[i], known, i) else []
  }

  function MappingPlaces(at: nat): nat -> Place { (i: nat) => Mappings(at, i) }

  function ConnectionPlaces(): nat -> Place { (i: nat) => SshConnections(i) }

  function TunnelPlaces(): nat -> Place { (i: nat) => Tunnels(i) }

  function MappingsProblems(t: TunnelValue, at: nat): seq<Problem> {
    NoteEach([], MappingIds(t.mappings), MappingPlaces(at), OfMappings(t, at), |t.mappings|)
  }

  function TunnelProblems(t: TunnelValue, known: seq<string>, at: nat): seq<Problem> {
    HeadProblems(t, known, Tunnels(at))
    + (if t.mappings == [] then [Problem(Tunnels(at), "mappings", Empty)] else MappingsProblems(t, at))
    + PolicyProblems(t.policy, Tunnels(at))
  }

  function ConnectionsProblems(cs: seq<ConnectionValue>): seq<Problem> {
    NoteEach([], ConnectionIds(cs), ConnectionPlaces(), OfConnections(cs), |cs|)
  }

  function NoteTunnels(so: seq<Problem>, ts: seq<TunnelValue>, known: seq<string>): seq<Problem> {
    NoteEach(so, TunnelIds(ts), TunnelPlaces(), OfTunnels(ts, known), |ts|)
  }

  /** Every problem of a configuration, in the order it is reported. */
  function Problems(c: Config): seq<Problem> {
    NoteTunnels(ConnectionsProblems(c.connections), c.tunnels, ConnectionIds(c.connections))
  }

  // ---------------------------------------------------------------- nothing is reported exactly when all is consistent

  /** Each of the first n ids is there and new. */
  predicate FirstDistinct(ids: seq<string>, n: nat)
    requires n <= |ids|
  {
    n == 0 || (FirstDistinct(ids, n - 1) && ids[n - 1] != "" && ids[n - 1] !in ids[..n - 1])
  }

  lemma {:induction false} FirstDistinctMeans(ids: seq<string>, n: nat)
    requires n <= |ids|
    ensures FirstDistinct(ids, n) <==> DistinctIds(ids[..n])
  {
    if n > 0 {
      FirstDistinctMeans(ids, n - 1);
      var init, last := ids[..n - 1], ids[n - 1];
      assert ids[..n] == init + [last];
      if last in init {
        var i :| 0 <= i < n - 1 && init[i] == last;
        assert ids[..n][i] == ids[..n][n - 1];
      } else if DistinctIds(ids[..n]) {
        assert forall i :: 0 <= i < n - 1 ==> init[i] == ids[..n][i];
      }
    }
  }

  lemma DistinctMeans(ids: seq<string>)
    ensures FirstDistinct(ids, |ids|) <==> DistinctIds(ids)
  {
    FirstDistinctMeans(ids, |ids|);
    assert ids[..|ids|] == ids;
  }

  lemma NoteIdMeans(so: seq<Problem>, ids: seq<string>, n: nat, p: Place, more: seq<Problem>)
    requires n < |ids|
    ensures NoteId(so, ids, n, p) + more == [] <==> so == [] && ids[n] != "" && ids[n] !in ids[..n] && more == []
  {
    var noted := NoteId(so, ids, n, p);
    assert |noted + more| == |noted| + |more|;
  }

  ghost predicate AllOk(ok: nat -> bool, n: nat) {
    forall i: nat :: i < n ==> ok(i)
  }

  lemma {:induction false} NoteEachMeans(
      so: seq<Problem>, ids: seq<string>, place: nat -> Place, of: nat -> seq<Problem>, ok: nat -> bool, n: nat)
    requires n <= |ids|
    requires forall i: nat :: i < n ==> (of(i) == [] <==> ok(i))
    ensures NoteEach(so, ids, place, of, n) == [] <==> so == [] && FirstDistinct(ids, n) && AllOk(ok, n)
  {
    if n > 0 {
      NoteEachMeans(so, ids, place, of, ok, n - 1);
      NoteIdMeans(NoteEach(so, ids, place, of, n - 1), ids, n - 1, place(n - 1), of(n - 1));
      assert AllOk(ok, n) <==> AllOk(ok, n - 1) && ok(n - 1);
    }
  }

  lemma {:induction false} NoteChainMeans(so: seq<Problem>, chain: seq<string>, known: seq<string>, n: nat, p: Place)
    requires n <= |chain|
    ensures NoteChain(so, chain, known, n, p) == [] <==> so == [] && forall i :: 0 <= i < n ==> chain[i] in known
  {
    if n > 0 {
      NoteChainMeans(so, chain, known, n - 1, p);
    }
  }

  lemma HeadProblemsMean(t: TunnelValue, known: seq<string>, p: Place)
    ensures HeadProblems(t, known, p) == [] <==> HeadOk(t, known)
  {
    var named := Note([], t.name != "", p, "name", Empty);
    NoteChainMeans(Note(named, ModeOk(t.mode), p, "mode", NotAllowed), t.chain, known, |t.chain|, p);
  }

  lemma MappingsProblemsMean(t: TunnelValue, at: nat)
    ensures MappingsProblems(t, at) == []
            <==> DistinctIds(MappingIds(t.mappings)) && forall i :: 0 <= i < |t.mappings| ==> MappingOk(t.mappings[i], t.mode)
  {
    var ok := (i: nat) => i < |t.mappings| && MappingOk(t.mappings[i], t.mode);
    DistinctMeans(MappingIds(t.mappings));
    NoteEachMeans([], MappingIds(t.mappings), MappingPlaces(at), OfMappings(t, at), ok, |t.mappings|);
    if AllOk(ok, |t.mappings|) {
      forall i | 0 <= i < |t.mappings| ensures MappingOk(t.mappings[i], t.mode) {
        assert ok(i);
      }
    }
  }

  lemma TunnelProblemsMean(t: TunnelValue, known: seq<string>, at: nat)
    ensures TunnelProblems(t, known, at) == [] <==> TunnelOk(t, known)
  {
    HeadProblemsMean(t, known, Tunnels(at));
    MappingsProblemsMean(t, at);
    assert PolicyProblems(t.policy, Tunnels(at)) == [] <==> PolicyOk(t.policy);
  }

  lemma ConnectionsProblemsMean(cs: seq<ConnectionValue>)
    ensures ConnectionsProblems(cs) == []
            <==> DistinctIds(ConnectionIds(cs)) && forall i :: 0 <= i < |cs| ==> ConnectionOk(cs[i])
  {
    var ok := (i: nat) => i < |cs| && ConnectionOk(cs[i]);
    DistinctMeans(ConnectionIds(cs));
    NoteEachMeans([], ConnectionIds(cs), ConnectionPlaces(), OfConnections(cs), ok, |cs|);
    if AllOk(ok, |cs|) {
      forall i | 0 <= i < |cs| ensures ConnectionOk(cs[i]) {
        assert ok(i);
      }
    }
  }

  lemma NoteTunnelsMeans(so: seq<Problem>, ts: seq<TunnelValue>, known: seq<string>)
    ensures NoteTunnels(so, ts, known) == []
            <==> so == [] && DistinctIds(TunnelIds(ts)) && forall i :: 0 <= i < |ts| ==> TunnelOk(ts[i], known)
  {
    var ok := (i: nat) => i < |ts| && TunnelOk(ts[i], known);
    var of := OfTunnels(ts, known);
    forall i: nat | i < |ts| ensures of(i) == [] <==> ok(i) {
      TunnelProblemsMean(ts[i], known, i);
    }
    DistinctMeans(TunnelIds(ts));
    NoteEachMeans(so, TunnelIds(ts), TunnelPlaces(), of, ok, |ts|);
    if AllOk(ok, |ts|) {
      forall i | 0 <= i < |ts| ensures TunnelOk(ts[i], known) {
        assert ok(i);
      }
    }
  }

  /** The validator is silent exactly on consistent configurations. */
  lemma NoProblemsMeansConsistent(c: Config)
    ensures Problems(c) == [] <==> Consistent(c)
  {
    ConnectionsProblemsMean(c.connections);
    NoteTunnelsMeans(ConnectionsProblems(c.connections), c.tunnels, ConnectionIds(c.connections));
  }

  // ---------------------------------------------------------------- the validator

  /** The ids met so far, as a set. */
  ghost predicate Collects(seen: set<string>, ids: seq<string>) {
    forall id :: id in seen <==> id in ids
  }

  method ValidateSSHConnection(c: ConnectionValue, p: Place) returns (errors: seq<Problem>)
    ensures errors == ConnectionProblems(c, p)
  {
    errors := [];
    if c.name == "" {
      errors := errors + [Problem(p, "name", Empty)];
    }
    if c.endpoint.host == "" {
      errors := errors + [Problem(p, "endpoint.host", Empty)];
    }
    if !PortOk(c.endpoint.port) {
      errors := errors + [Problem(p, "endpoint.port", NotAPort)];
    }
    if !HostKeyModeOk(c.hostKeyMode) {
      errors := errors + [Problem(p, "hostKeyVerification.mode", NotAllowed)];
    }
    errors := ValidateAuth(errors, c.auth, p);
  }

  method ValidateAuth(so: seq<Problem>, a: Auth<Option<KeyValue>>, p: Place) returns (errors: seq<Problem>)
    ensures errors == NoteAuth(so, a, p)
  {
    errors := so;
    if a.kind == "password" {
      if a.username == "" {
        errors := errors + [Problem(p, "auth.username", Empty)];
      }
      if a.password == "" {
        errors := errors + [Problem(p, "auth.password", Empty)];
      }
    } else if a.kind == "privateKey" {
      if a.username == "" {
        errors := errors + [Problem(p, "auth.username", Empty)];
      }
      if a.privateKey.None? {
        errors := errors + [Problem(p, "auth.privateKey", Missing)];
      } else if a.privateKey.value.source == "inline" {
        if a.privateKey.value.keyPem == "" {
          errors := errors + [Problem(p, "auth.privateKey.keyPem", Empty)];
        }
      } else if a.privateKey.value.source == "file" {
        if a.privateKey.value.filePath == "" {
          errors := errors + [Problem(p, "auth.privateKey.filePath", Empty)];
        }
      } else {
        errors := errors + [Problem(p, "auth.privateKey.source", NotAllowed)];
      }
    } else if a.kind != "none" {
      errors := errors + [Problem(p, "auth.type", NotAllowed)];
    }
  }

  method ValidateMapping(m: MappingValue, mode: string, p: Place) returns (errors: seq<Problem>)
    ensures errors == MappingProblems(m, mode, p)
  {
    errors := [];
    if !PortOk(m.listen.port) {
      errors := errors + [Problem(p, "listen.port", NotAPort)];
    }
    if mode == "local" || mode == "remote" {
      if m.connect.host == "" {
        errors := errors + [Problem(p, "connect.host", Empty)];
      }
      if !PortOk(m.connect.port) {
        errors := errors + [Problem(p, "connect.port", NotAPort)];
      }
    } else if mode == "dynamic" {
      if m.socks5.None? {
        errors := errors + [Problem(p, "socks5", Missing)];
      } else if m.socks5.value.auth == "userpass" {
        if m.socks5.value.username == "" {
          errors := errors + [Problem(p, "socks5.username", Empty)];
        }
        if m.socks5.value.password == "" {
          errors := errors + [Problem(p, "socks5.password", Empty)];
        }
      } else if m.socks5.value.auth != "none" {
        errors := errors + [Problem(p, "socks5.auth", NotAllowed)];
      }
    }
  }

  /** The ids seen so far tell whether one is new. */
  method CheckId(so: seq<Problem>, id: string, seen: set<string>, p: Place, ghost ids: seq<string>, ghost i: nat)
      returns (errors: seq<Problem>, seen': set<string>)
    requires i < |ids| && id == ids[i]
    requires Collects(seen, ids[..i])
    ensures errors == NoteId(so, ids, i, p)
    ensures Collects(seen', ids[..i + 1])
  {
    errors := so;
    if id == "" {
      errors := errors + [Problem(p, "id", Empty)];
    } else if id in seen {
      errors := errors + [Problem(p, "id", NotUnique)];
    }
    seen' := seen + {id};
    assert ids[..i + 1] == ids[..i] + [id];
  }

  method ValidateMappings(t: TunnelValue, at: nat) returns (errors: seq<Problem>)
    ensures errors == MappingsProblems(t, at)
  {
    errors := [];
    var seen: set<string> := {};
    ghost var ids := MappingIds(t.mappings);
    for i := 0 to |t.mappings|
      invariant errors == NoteEach([], ids, MappingPlaces(at), OfMappings(t, at), i)
      invariant Collects(seen, ids[..i])
    {
      errors, seen := CheckId(errors, t.mappings[i].id, seen, Mappings(at, i), ids, i);
      var mr := ValidateMapping(t.mappings[i], t.mode, Mappings(at, i));
      errors := errors + mr;
    }
  }

  method ValidateTunnel(t: TunnelValue, sshIds: set<string>, at: nat, ghost known: seq<string>) returns (errors: seq<Problem>)
    requires Collects(sshIds, known)
    ensures errors == TunnelProblems(t, known, at)
  {
    var p := Tunnels(at);
    errors := [];
    if t.name == "" {
      errors := errors + [Problem(p, "name", Empty)];
    }
    if !ModeOk(t.mode) {
      errors := errors + [Problem(p, "mode", NotAllowed)];
    }
    if |t.chain| == 0 {
      errors := errors + [Problem(p, "chain", Empty)];
    } else {
      ghost var before := errors;
      for i := 0 to |t.chain|
        invariant errors == NoteChain(before, t.chain, known, i, p)
      {
        if t.chain[i] !in sshIds {
          errors := errors + [Problem(p, "chain", Unknown(t.chain[i]))];
        }
      }
    }
    if |t.mappings| == 0 {
      errors := errors + [Problem(p, "mappings", Empty)];
    } else {
      var mr := ValidateMappings(t, at);
      errors := errors + mr;
    }
    var pr := ValidatePolicy(t.policy, p);
    errors := errors + pr;
  }

  method ValidatePolicy(policy: Policy, p: Place) returns (errors: seq<Problem>)
    ensures errors == PolicyProblems(policy, p)
  {
    errors := [];
    if policy.restartBackoff.minMs <= 0 {
      errors := errors + [Problem(p, "policy.restartBackoff.minMs", NotPositive)];
    }
    if policy.restartBackoff.maxMs < policy.restartBackoff.minMs {
      errors := errors + [Problem(p, "policy.restartBackoff.maxMs", BelowMin)];
    }
    if policy.restartBackoff.factor < 1.0 {
      errors := errors + [Problem(p, "policy.restartBackoff.factor", BelowOne)];
    }
    if policy.maxRestartsPerHour <= 0 {
      errors := errors + [Problem(p, "policy.maxRestartsPerHour", NotPositive)];
    }
  }

  lemma OneMoreConnection(cs: seq<ConnectionValue>, i: nat)
    requires i < |cs|
    ensures var ids := ConnectionIds(cs);
            NoteEach([], ids, ConnectionPlaces(), OfConnections(cs), i + 1) ==
            NoteId(NoteEach([], ids, ConnectionPlaces(), OfConnections(cs), i), ids, i, SshConnections(i))
            + ConnectionProblems(cs[i], SshConnections(i))
  {
  }

  method ValidateConnections(cs: seq<ConnectionValue>) returns (errors: seq<Problem>, sshIds: set<string>)
    ensures errors == ConnectionsProblems(cs)
    ensures Collects(sshIds, ConnectionIds(cs))
  {
    errors, sshIds := [], {};
    ghost var known := ConnectionIds(cs);
    for i := 0 to |cs|
      invariant errors == NoteEach([], known, ConnectionPlaces(), OfConnections(cs), i)
      invariant Collects(sshIds, known[..i])
    {
      errors, sshIds := CheckId(errors, cs[i].id, sshIds, SshConnections(i), known, i);
      var cr := ValidateSSHConnection(cs[i], SshConnections(i));
      errors := errors + cr;
      OneMoreConnection(cs, i);
    }
    assert known[..|known|] == known;
  }

  method ValidateTunnels(so: seq<Problem>, ts: seq<TunnelValue>, sshIds: set<string>, ghost known: seq<string>)
      returns (errors: seq<Problem>)
    requires Collects(sshIds, known)
    ensures errors == NoteTunnels(so, ts, known)
  {
    errors := so;
    ghost var ids := TunnelIds(ts);
    var tunnelIds: set<string> := {};
    for i := 0 to |ts|
      invariant errors == NoteEach(so, ids, TunnelPlaces(), OfTunnels(ts, known), i)
      invariant Collects(tunnelIds, ids[..i])
    {
      errors, tunnelIds := CheckId(errors, ts[i].id, tunnelIds, Tunnels(i), ids, i);
      var tr := ValidateTunnel(ts[i], sshIds, i, known);
      errors := errors + tr;
    }
  }

  method ValidateConfig(c: Config) returns (errors: seq<Problem>)
    ensures errors == Problems(c)
    ensures errors == [] <==> Consistent(c)
  {
    var sshIds;
    errors, sshIds := ValidateConnections(c.connections);
    errors := ValidateTunnels(errors, c.tunnels, sshIds, ConnectionIds(c.connections));
    NoProblemsMeansConsistent(c);
  }

  // ---------------------------------------------------------------- references

  /** The names of the tunnels whose chain goes through a connection. */
  function References(ts: seq<TunnelValue>, id: string): seq<string> {
    if ts == [] then []
    else References(ts[..|ts| - 1], id) + (if id in ts[|ts| - 1].chain then [ts[|ts| - 1].name] else [])
  }

  lemma {:induction false} NoReferences(ts: seq<TunnelValue>, id: string)
    ensures References(ts, id) == [] <==> forall i :: 0 <= i < |ts| ==> id !in ts[i].chain
  {
    if ts != [] {
      var init, last := ts[..|ts| - 1], ts[|ts| - 1];
      NoReferences(init, id);
      assert |References(ts, id)| == |References(init, id)| + if id in last.chain then 1 else 0;
      assert forall i :: 0 <= i < |init| ==> init[i] == ts[i];
    }
  }

  method FindSSHConnectionReferences(ts: seq<TunnelValue>, id: string) returns (names: seq<string>)
    ensures names == References(ts, id)
  {
    names := [];
    for i := 0 to |ts|
      invariant names == References(ts[..i], id)
    {
      assert ts[..i + 1][..i] == ts[..i];
      var found := false;
      for j := 0 to |ts[i].chain|
        invariant found <==> id in ts[i].chain[..j]
      {
        if ts[i].chain[j] == id {
          found := true;
          break;
        }
      }
      assert ts[i].chain[..|ts[i].chain|] == ts[i].chain;
      if found {
        names := names + [ts[i].name];
      }
    }
    assert ts[..|ts|] == ts;
  }
}
