/** The configuration file: saving encrypts a copy; loading decrypts, migrates and fills in defaults. */
module ConfigStore {
  import opened Prelude
  import opened ConfigModel
  import opened ConfigDefaults
  import opened ConfigCipher
  import opened ConfigCrypto

  /** A file: the configuration in it, and for each tunnel the old "enabled" field, false where there is none. */
  datatype Document = Document(config: Config, enabled: seq<(string, bool)>)

  /** What a file written now looks like: it has no "enabled" fields any more. */
  function Written(e: Config): Document {
    Document(e, seq(|e.tunnels|, i requires 0 <= i < |e.tunnels| => (e.tunnels[i].id, false)))
  }

  predicate EnabledBy(enabled: seq<(string, bool)>, id: string) {
    exists k :: 0 <= k < |enabled| && enabled[k] == (id, true)
  }

  function MigratedTunnel(t: TunnelValue, enabled: seq<(string, bool)>): TunnelValue {
    t.(policy := t.policy.(autoStart := t.policy.autoStart || EnabledBy(enabled, t.id)))
  }

  function MigratedTunnels(ts: seq<TunnelValue>, enabled: seq<(string, bool)>): (r: seq<TunnelValue>)
    ensures |r| == |ts| && forall i :: 0 <= i < |ts| ==> r[i] == MigratedTunnel(ts[i], enabled)
  {
    seq(|ts|, i requires 0 <= i < |ts| => MigratedTunnel(ts[i], enabled))
  }

  function Migrated(c: Config, enabled: seq<(string, bool)>): Config {
    c.(tunnels := MigratedTunnels(c.tunnels, enabled))
  }

  /** v is what a file is loaded as, by way of its decryption d. */
  ghost predicate LoadsVia(c: Cipher, doc: Document, d: Config, v: Config) {
    Decrypts(c, doc.config, d) && v == Defaults(Migrated(d, doc.enabled))
  }

  ghost predicate Loads(c: Cipher, doc: Document, v: Config) {
    exists d :: LoadsVia(c, doc, d, v)
  }

  // ---------------------------------------------------------------- saving and loading

  lemma NothingToMigrate(e: Config, v: Config)
    ensures Migrated(v, Written(e).enabled) == v
  {
    var enabled := Written(e).enabled;
    forall i | 0 <= i < |v.tunnels| ensures MigratedTunnel(v.tunnels[i], enabled) == v.tunnels[i] {
    }
    assert MigratedTunnels(v.tunnels, enabled) == v.tunnels;
  }

  /** A file is never loaded as two different things. */
  lemma LoadIsUnique(c: Cipher, doc: Document, v: Config, w: Config)
    requires Loads(c, doc, v) && Loads(c, doc, w)
    ensures v == w
  {
    var d :| LoadsVia(c, doc, d, v);
    var d' :| LoadsVia(c, doc, d', w);
    DecryptionIsUnique(c, doc.config, d, d');
  }

  lemma SameDefaultsSameConnection(c: Cipher, v: ConnectionValue, e: ConnectionValue, d: ConnectionValue)
    requires ConnectionsRelate(Sealing(c), v, e) && ConnectionsRelate(Opening(c), e, d)
    requires ConnectionDefaults(d) == ConnectionDefaults(v)
    ensures ConnectionsRelate(Opening(c), e, v)
  {
    assert ConnectionSecrets(d) == ConnectionSecrets(ConnectionDefaults(d)) == ConnectionSecrets(v);
    assert AlikeConnections(e, v);
  }

  lemma SameDefaultsSameTunnel(c: Cipher, v: TunnelValue, e: TunnelValue, d: TunnelValue)
    requires TunnelsRelate(Sealing(c), v, e) && TunnelsRelate(Opening(c), e, d)
    requires TunnelDefaults(d) == TunnelDefaults(v)
    ensures TunnelsRelate(Opening(c), e, v)
  {
    forall j | 0 <= j < |e.mappings| ensures MappingsRelate(Opening(c), e.mappings[j], v.mappings[j]) {
      assert MappingsRelate(Sealing(c), v.mappings[j], e.mappings[j]) && MappingsRelate(Opening(c), e.mappings[j], d.mappings[j]);
      assert MappingDefaults(d.mappings[j]) == TunnelDefaults(d).mappings[j] == MappingDefaults(v.mappings[j]);
    }
  }

  /** Defaults touch no secret: two decryptions told apart before the defaults are told apart after them. */
  lemma SameDefaultsSameSecrets(c: Cipher, v: Config, e: Config, d: Config)
    requires Encrypts(c, v, e) && Decrypts(c, e, d) && Defaults(d) == Defaults(v)
    ensures Decrypts(c, e, v)
  {
    forall i | 0 <= i < |e.connections| ensures ConnectionsRelate(Opening(c), e.connections[i], v.connections[i]) {
      assert ConnectionDefaults(d.connections[i]) == Defaults(d).connections[i] == ConnectionDefaults(v.connections[i]);
      SameDefaultsSameConnection(c, v.connections[i], e.connections[i], d.connections[i]);
    }
    forall i | 0 <= i < |e.tunnels| ensures TunnelsRelate(Opening(c), e.tunnels[i], v.tunnels[i]) {
      assert TunnelDefaults(d.tunnels[i]) == Defaults(d).tunnels[i] == TunnelDefaults(v.tunnels[i]);
      SameDefaultsSameTunnel(c, v.tunnels[i], e.tunnels[i], d.tunnels[i]);
    }
  }

  /**
   A saved configuration is loaded as itself with the defaults filled in exactly
   when none of its secrets looks encrypted, unless nothing is encrypted at all;
   and just as it was exactly when it is also normal.
   */
  lemma SaveThenLoad(c: Cipher, v: Config, e: Config)
    requires c.Lawful() && Encrypts(c, v, e)
    ensures Loads(c, Written(e), Defaults(v)) <==> c.Nop? || Unmarked(v)
    ensures Loads(c, Written(e), v) <==> Normal(v) && (c.Nop? || Unmarked(v))
  {
    RoundTrip(c, v, e);
    DefaultsSettle(v);
    if Loads(c, Written(e), v) {
      var d :| LoadsVia(c, Written(e), d, v);
      DefaultsSettle(Migrated(d, Written(e).enabled));
    }
    if c.Nop? || Unmarked(v) {
      NothingToMigrate(e, v);
      assert LoadsVia(c, Written(e), v, Defaults(v));
    }
    if Loads(c, Written(e), Defaults(v)) {
      var d :| LoadsVia(c, Written(e), d, Defaults(v));
      NothingToMigrate(e, d);
      SameDefaultsSameSecrets(c, v, e, d);
    }
  }

  /** And then as nothing else. A normal configuration is its own defaults, so it comes back as it was. */
  lemma ReloadIsTheSame(c: Cipher, v: Config, e: Config, w: Config)
    requires c.Lawful() && Encrypts(c, v, e) && (c.Nop? || Unmarked(v))
    ensures Loads(c, Written(e), w) <==> w == Defaults(v)
    ensures Normal(v) <==> Defaults(v) == v
  {
    SaveThenLoad(c, v, e);
    DefaultsSettle(v);
    if Loads(c, Written(e), w) {
      LoadIsUnique(c, Written(e), Defaults(v), w);
    }
  }

  // ---------------------------------------------------------------- objects from a document

  /** json.Unmarshal makes every object anew. */
  method DecodeConnections(cs: seq<ConnectionValue>) returns (a: array<ConnectionRef>)
    ensures fresh(a) && a.Length == |cs| && fresh(Keys(a[..])) && KeysApart(a[..])
    ensures forall i :: 0 <= i < |cs| ==> ConnectionOf(a[i]) == cs[i]
  {
    var refs: seq<ConnectionRef> := [];
    for i := 0 to |cs|
      invariant |refs| == i && KeysApart(refs)
      invariant forall k :: 0 <= k < i && refs[k].auth.privateKey != null ==> fresh(refs[k].auth.privateKey)
      invariant forall k :: 0 <= k < i ==> ConnectionOf(refs[k]) == cs[k]
    {
      var c := cs[i];
      var pk: PrivateKey? := null;
      if c.auth.privateKey.Some? {
        pk := new PrivateKey(c.auth.privateKey.value);
      }
      var auth := Auth(c.auth.kind, c.auth.username, c.auth.password, pk);
      refs := refs + [Connection(c.id, c.name, c.endpoint, auth, c.hostKeyMode, c.dialTimeoutMs, c.keepAlive)];
    }
    a := new ConnectionRef[|cs|](i requires 0 <= i < |refs| => refs[i]);
    assert a[..] == refs;
  }

  method DecodeMappings(ms: seq<MappingValue>) returns (a: array<MappingRef>)
    ensures fresh(a) && a.Length == |ms| && fresh(Proxies(a[..])) && ProxiesApart(a[..])
    ensures forall j :: 0 <= j < |ms| ==> MappingOf(a[j]) == ms[j]
  {
    var refs: seq<MappingRef> := [];
    for j := 0 to |ms|
      invariant |refs| == j && ProxiesApart(refs)
      invariant forall k :: 0 <= k < j && refs[k].socks5 != null ==> fresh(refs[k].socks5)
      invariant forall k :: 0 <= k < j ==> MappingOf(refs[k]) == ms[k]
    {
      var m := ms[j];
      var s5: SocksCfg? := null;
      if m.socks5.Some? {
        s5 := new SocksCfg(m.socks5.value);
      }
      refs := refs + [Mapping(m.id, m.listen, m.connect, s5, m.notes)];
    }
    a := new MappingRef[|ms|](j requires 0 <= j < |refs| => refs[j]);
    assert a[..] == refs;
  }

  /** A tunnel of its own, apart from the ones there are. */
  method DecodeTunnel(t: TunnelValue, ghost others: seq<TunnelRef>) returns (r: TunnelRef)
    requires TunnelsApart(others)
    ensures fresh(r.mappings) && fresh(Proxies(r.mappings[..]))
    ensures TunnelOf(r) == t && TunnelsApart(others + [r])
    ensures forall k :: 0 <= k < |others| ==>
              others[k].mappings[..] == old(others[k].mappings[..]) && TunnelOf(others[k]) == old(TunnelOf(others[k]))
  {
    var a := DecodeMappings(t.mappings);
    assert MappingsOf(a[..]) == t.mappings;
    TunnelsStand(others);
    r := Tunnel(t.id, t.name, t.notes, t.mode, t.chain, a, t.policy);
    Joins(others, r);
  }

  twostate lemma StayApart(ts: seq<TunnelRef>)
    requires old(TunnelsApart(ts))
    requires forall i :: 0 <= i < |ts| ==> ts[i].mappings[..] == old(ts[i].mappings[..])
    ensures TunnelsApart(ts)
  {
  }

  lemma Joins(ts: seq<TunnelRef>, t: TunnelRef)
    requires TunnelsApart(ts) && ProxiesApart(t.mappings[..])
    requires forall k :: 0 <= k < |ts| ==> ts[k].mappings != t.mappings && Proxies(ts[k].mappings[..]) !! Proxies(t.mappings[..])
    ensures TunnelsApart(ts + [t])
  {
  }

  /** The arrays that some tunnels keep their mappings in. */
  ghost function MappingArrays(ts: seq<TunnelRef>): set<array<MappingRef>> {
    set i | 0 <= i < |ts| :: ts[i].mappings
  }

  method DecodeTunnelList(ts: seq<TunnelValue>) returns (refs: seq<TunnelRef>)
    ensures |refs| == |ts| && TunnelsApart(refs)
    ensures forall i :: 0 <= i < |ts| ==> TunnelOf(refs[i]) == ts[i]
    ensures forall i :: 0 <= i < |ts| ==> fresh(refs[i].mappings) && fresh(Proxies(refs[i].mappings[..]))
  {
    refs := [];
    for i := 0 to |ts|
      invariant |refs| == i && TunnelsApart(refs)
      invariant forall k :: 0 <= k < i ==> TunnelOf(refs[k]) == ts[k]
      invariant forall k :: 0 <= k < i ==> fresh(refs[k].mappings) && fresh(Proxies(refs[k].mappings[..]))
    {
      var t := DecodeTunnel(ts[i], refs);
      refs := refs + [t];
    }
  }

  twostate lemma AllNew(new refs: seq<TunnelRef>)
    requires forall i :: 0 <= i < |refs| ==> fresh(refs[i].mappings) && fresh(Proxies(refs[i].mappings[..]))
    ensures fresh(MappingArrays(refs)) && fresh(AllProxies(refs))
  {
    forall o | o in AllProxies(refs) ensures fresh(o) {
      var i, j :| 0 <= i < |refs| && 0 <= j < refs[i].mappings.Length && o == refs[i].mappings[j].socks5;
      assert o in Proxies(refs[i].mappings[..]);
    }
  }

  method DecodeTunnels(ts: seq<TunnelValue>) returns (a: array<TunnelRef>)
    ensures fresh(a) && a.Length == |ts| && TunnelsApart(a[..])
    ensures forall i :: 0 <= i < |ts| ==> TunnelOf(a[i]) == ts[i]
    ensures fresh(MappingArrays(a[..])) && fresh(AllProxies(a[..]))
  {
    var refs := DecodeTunnelList(ts);
    a := ArrayOf(refs);
    AllNew(refs);
    assert TunnelsOf(refs) == ts;
  }

  method ArrayOf(refs: seq<TunnelRef>) returns (a: array<TunnelRef>)
    requires TunnelsApart(refs)
    ensures fresh(a) && a[..] == refs && TunnelsApart(refs)
    ensures TunnelsOf(refs) == old(TunnelsOf(refs))
    ensures forall i :: 0 <= i < |refs| ==> refs[i].mappings[..] == old(refs[i].mappings[..])
  {
    a := new TunnelRef[|refs|](i requires 0 <= i < |refs| => refs[i]);
    TunnelsStand(refs);
    assert a[..] == refs;
  }

  method Unmarshal(c: Config) returns (cfg: ConfigObject)
    ensures fresh(cfg) && fresh(cfg.connections) && fresh(Keys(cfg.connections[..])) && fresh(cfg.tunnels)
    ensures KeysApart(cfg.connections[..]) && TunnelsApart(cfg.tunnels[..])
    ensures fresh(MappingArrays(cfg.tunnels[..])) && fresh(AllProxies(cfg.tunnels[..]))
    ensures ValueOf(cfg) == c
  {
    var connections := DecodeConnections(c.connections);
    var tunnels := DecodeTunnels(c.tunnels);
    assert ConnectionsOf(connections[..]) == c.connections;
    assert TunnelsOf(tunnels[..]) == c.tunnels;
    cfg := Assemble(c.settings, connections, tunnels);
  }

  method Assemble(settings: Settings, connections: array<ConnectionRef>, tunnels: array<TunnelRef>) returns (cfg: ConfigObject)
    requires TunnelsApart(tunnels[..])
    ensures fresh(cfg) && cfg.connections == connections && cfg.tunnels == tunnels && TunnelsApart(tunnels[..])
    ensures MappingArrays(tunnels[..]) == old(MappingArrays(tunnels[..])) && AllProxies(tunnels[..]) == old(AllProxies(tunnels[..]))
    ensures ValueOf(cfg) == Config(settings, old(ConnectionsOf(connections[..])), old(TunnelsOf(tunnels[..])))
  {
    ghost var ts := tunnels[..];
    label parts:
    cfg := new ConfigObject(settings, connections, tunnels);
    TunnelsStand@parts(ts);
    assert tunnels[..] == ts;
  }

  // ---------------------------------------------------------------- in place

  /** Tunnels that were enabled in the old format start automatically. */
  method MigrateEnabledToAutoStart(tunnels: array<TunnelRef>, enabled: seq<(string, bool)>)
    modifies tunnels
    ensures forall i :: 0 <= i < tunnels.Length ==>
              tunnels[i].mappings == old(tunnels[i].mappings)
              && TunnelOf(tunnels[i]) == MigratedTunnel(old(TunnelOf(tunnels[i])), enabled)
  {
    ghost var was := tunnels[..];
    for k := 0 to |enabled|
      invariant forall i :: 0 <= i < tunnels.Length ==> tunnels[i] == Started(was[i], EnabledBy(enabled[..k], was[i].id))
    {
      var (id, on) := enabled[k];
      assert forall x :: EnabledBy(enabled[..k + 1], x) <==> EnabledBy(enabled[..k], x) || (on && x == id) by {
        EnabledBySnoc(enabled, k);
      }
      if on {
        for i := 0 to tunnels.Length
          invariant forall j :: 0 <= j < i ==> tunnels[j] == Started(was[j], EnabledBy(enabled[..k + 1], was[j].id))
          invariant forall j :: i <= j < tunnels.Length ==> tunnels[j] == Started(was[j], EnabledBy(enabled[..k], was[j].id))
        {
          if tunnels[i].id == id && !tunnels[i].policy.autoStart {
            tunnels[i] := tunnels[i].(policy := tunnels[i].policy.(autoStart := true));
          }
        }
      }
    }
    assert enabled[..|enabled|] == enabled;
    forall i | 0 <= i < tunnels.Length
      ensures TunnelOf(tunnels[i]) == MigratedTunnel(old(TunnelOf(tunnels[i])), enabled)
    {
      assert tunnels[i].mappings[..] == old(tunnels[i].mappings[..]);
      assert MappingsOf(tunnels[i].mappings[..]) == old(MappingsOf(tunnels[i].mappings[..]));
    }
  }

  function Started<M>(t: Tunnel<M>, on: bool): Tunnel<M> {
    t.(policy := t.policy.(autoStart := t.policy.autoStart || on))
  }

  lemma EnabledBySnoc(enabled: seq<(string, bool)>, k: nat)
    requires k < |enabled|
    ensures forall x :: EnabledBy(enabled[..k + 1], x) <==> EnabledBy(enabled[..k], x) || enabled[k] == (x, true)
  {
    forall x ensures EnabledBy(enabled[..k + 1], x) <==> EnabledBy(enabled[..k], x) || enabled[k] == (x, true) {
      assert forall i :: 0 <= i < k ==> enabled[..k][i] == enabled[..k + 1][i];
      assert enabled[..k + 1][k] == enabled[k];
    }
  }

  method ApplySettingsDefaults(cfg: ConfigObject)
    requires TunnelsApart(cfg.tunnels[..])
    modifies cfg`settings
    ensures cfg.settings == SettingsDefaults(old(cfg.settings))
    ensures TunnelsApart(cfg.tunnels[..]) && TunnelsOf(cfg.tunnels[..]) == old(TunnelsOf(cfg.tunnels[..]))
  {
    var s := cfg.settings;
    if s.general.logLevel == "" {
      s := s.(general := s.general.(logLevel := "info"));
    }
    if s.general.language == "" {
      s := s.(general := s.general.(language := "en"));
    }
    if s.theme == "" {
      s := s.(theme := "light");
    }
    if s.closeAction == "" {
      s := s.(closeAction := "ask");
    }
    cfg.settings := s;
    forall i | 0 <= i < cfg.tunnels.Length ensures TunnelOf(cfg.tunnels[i]) == old(TunnelOf(cfg.tunnels[i])) {
      var t := cfg.tunnels[i];
      assert t.mappings[..] == old(t.mappings[..]);
      assert MappingsOf(t.mappings[..]) == old(MappingsOf(t.mappings[..]));
    }
    assert TunnelsOf(cfg.tunnels[..]) == old(TunnelsOf(cfg.tunnels[..]));
  }

  method ApplyConnectionsDefaults(conns: array<ConnectionRef>, ghost tunnels: array<TunnelRef>)
    requires TunnelsApart(tunnels[..])
    modifies conns
    ensures TunnelsApart(tunnels[..]) && TunnelsOf(tunnels[..]) == old(TunnelsOf(tunnels[..]))
    ensures forall i :: 0 <= i < conns.Length ==> ConnectionOf(conns[i]) == ConnectionDefaults(old(ConnectionOf(conns[i])))
  {
    ghost var was := conns[..];
    for i := 0 to conns.Length
      invariant forall k :: 0 <= k < i ==> conns[k] == ConnectionDefaults(was[k])
      invariant forall k :: i <= k < conns.Length ==> conns[k] == was[k]
    {
      conns[i] := ApplySSHConnectionDefaults(conns[i]);
    }
    forall i | 0 <= i < tunnels.Length ensures TunnelOf(tunnels[i]) == old(TunnelOf(tunnels[i])) {
      var t := tunnels[i];
      assert t.mappings[..] == old(t.mappings[..]);
      assert MappingsOf(t.mappings[..]) == old(MappingsOf(t.mappings[..]));
    }
    assert TunnelsOf(tunnels[..]) == old(TunnelsOf(tunnels[..]));
  }

  method ApplyTunnelsDefaults(tunnels: array<TunnelRef>)
    requires TunnelsApart(tunnels[..])
    modifies tunnels, MappingArrays(tunnels[..])
    ensures forall i :: 0 <= i < tunnels.Length ==> TunnelOf(tunnels[i]) == TunnelDefaults(old(TunnelOf(tunnels[i])))
  {
    ghost var was := tunnels[..];
    for i := 0 to tunnels.Length
      invariant forall k :: 0 <= k < i ==>
                  && tunnels[k] == was[k].(policy := PolicyDefaults(was[k].policy))
                  && was[k].mappings[..] == MappingsDefaults(old(was[k].mappings[..]))
      invariant forall k :: i <= k < tunnels.Length ==>
                  tunnels[k] == was[k] && was[k].mappings[..] == old(was[k].mappings[..])
    {
      tunnels[i] := ApplyTunnelDefaults(tunnels[i]);
    }
    forall i | 0 <= i < tunnels.Length ensures TunnelOf(tunnels[i]) == TunnelDefaults(old(TunnelOf(tunnels[i]))) {
      assert MappingsOf(tunnels[i].mappings[..]) == MappingsDefaults(old(MappingsOf(was[i].mappings[..])));
    }
  }

  method ApplyConfigDefaults(cfg: ConfigObject)
    requires TunnelsApart(cfg.tunnels[..])
    modifies cfg, cfg.connections, cfg.tunnels, MappingArrays(cfg.tunnels[..])
    ensures ValueOf(cfg) == Defaults(old(ValueOf(cfg)))
  {
    ghost var was := ValueOf(cfg);
    ApplySettingsDefaults(cfg);
    ApplyConnectionsDefaults(cfg.connections, cfg.tunnels);
    ghost var conns := ConnectionsOf(cfg.connections[..]);
    assert conns == ConnectionsDefaults(was.connections);
    ApplyTunnelsDefaults(cfg.tunnels);
    assert ConnectionsOf(cfg.connections[..]) == conns;
    assert TunnelsOf(cfg.tunnels[..]) == TunnelsDefaults(was.tunnels);
  }

  // ---------------------------------------------------------------- the file

  class FileStore {
    const enc: Encryptor
    var file: Option<Document>

    constructor (enc: Encryptor)
      ensures this.enc == enc && file == None
    {
      this.enc, file := enc, None;
    }

    /** No file is an empty configuration, without the defaults. */
    method Load() returns (r: Option<ConfigObject>)
      ensures file.None? ==> r.Some? && ValueOf(r.value) == NewConfig()
      ensures file.Some? && r.Some? ==> Loads(enc.cipher, file.value, ValueOf(r.value))
      ensures file.Some? && r.None? ==> !Keeps(Decryptable(enc.cipher), file.value.config)
      ensures r.Some? ==> fresh(r.value)
    {
      if file.None? {
        var empty := Unmarshal(NewConfig());
        return Some(empty);
      }
      r := Decipher(file.value.config);
      if r.Some? {
        ghost var d := ValueOf(r.value);
        Finish(r.value, file.value.enabled);
        assert LoadsVia(enc.cipher, file.value, d, ValueOf(r.value));
      }
    }

    method Decipher(e: Config) returns (r: Option<ConfigObject>)
      ensures r.Some? ==> Decrypts(enc.cipher, e, ValueOf(r.value)) && TunnelsApart(r.value.tunnels[..])
      ensures r.Some? ==>
                && fresh(r.value) && fresh(r.value.connections) && fresh(r.value.tunnels)
                && fresh(MappingArrays(r.value.tunnels[..]))
      ensures r.None? ==> !Keeps(Decryptable(enc.cipher), e)
    {
      var cfg := Unmarshal(e);
      ghost var ts := cfg.tunnels[..];
      label L:
      var ok := enc.DecryptConfig(cfg);
      StayApart@L(ts);
      return if ok then Some(cfg) else None;
    }

    method Finish(cfg: ConfigObject, enabled: seq<(string, bool)>)
      requires TunnelsApart(cfg.tunnels[..])
      modifies cfg, cfg.connections, cfg.tunnels, MappingArrays(cfg.tunnels[..])
      ensures ValueOf(cfg) == Defaults(Migrated(old(ValueOf(cfg)), enabled))
    {
      ghost var was := ValueOf(cfg);
      MigrateEnabledToAutoStart(cfg.tunnels, enabled);
      assert ConnectionsOf(cfg.connections[..]) == was.connections;
      assert TunnelsOf(cfg.tunnels[..]) == MigratedTunnels(was.tunnels, enabled);
      ApplyConfigDefaults(cfg);
    }

    /** `writeOk` is whether the new file could be put in place; if not, the old one stays. */
    method Save(cfg: ConfigObject, writeOk: bool) returns (ok: bool)
      modifies this`file, enc
      ensures ok <==> writeOk && !enc.FailsIn(old(enc.calls), enc.calls)
      ensures ok ==> exists e :: Encrypts(enc.cipher, old(ValueOf(cfg)), e) && file == Some(Written(e))
      ensures !ok ==> file == old(file)
    {
      var persisted := enc.EncryptConfig(cfg);
      if persisted.None? || !writeOk {
        return false;
      }
      var e := ValueOf(persisted.value);
      file := Some(Written(e));
      return true;
    }
  }
}
